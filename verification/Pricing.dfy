/** Token counts, rate cards and integer pricing (crates/tailfin-wire/src/lib.rs). */
module Pricing {
  import opened Foundations

  datatype Usage = Usage(input: nat, output: nat, cacheWrite5m: nat, cacheWrite1h: nat,
                         cacheRead: nat, reasoning: nat)

  const ZERO_USAGE := Usage(0, 0, 0, 0, 0, 0)

  datatype RateCard = RateCard(input: nat, output: nat, cacheWrite5m: nat, cacheWrite1h: nat, cacheRead: nat)

  const PER_MILLION: nat := 1_000_000

  /** Tokens moved; reasoning tokens are already part of the output. */
  function TotalTokens(u: Usage): nat {
    u.input + u.output + u.cacheWrite5m + u.cacheWrite1h + u.cacheRead
  }

  function Merge(a: Usage, b: Usage): Usage {
    Usage(a.input + b.input, a.output + b.output, a.cacheWrite5m + b.cacheWrite5m,
          a.cacheWrite1h + b.cacheWrite1h, a.cacheRead + b.cacheRead, a.reasoning + b.reasoning)
  }

  /** The price before it is rounded down to whole micro-dollars. */
  function Scaled(u: Usage, r: RateCard): nat {
    u.input * r.input + u.output * r.output + u.cacheWrite5m * r.cacheWrite5m
    + u.cacheWrite1h * r.cacheWrite1h + u.cacheRead * r.cacheRead
  }

  function Micros(u: Usage, r: RateCard): nat {
    Scaled(u, r) / PER_MILLION
  }

  lemma Distribute(a: nat, b: nat, c: nat)
    ensures (a + b) * c == a * c + b * c
  {}

  lemma ScaledMerge(a: Usage, b: Usage, r: RateCard)
    ensures Scaled(Merge(a, b), r) == Scaled(a, r) + Scaled(b, r)
  {
    Distribute(a.input, b.input, r.input);
    Distribute(a.output, b.output, r.output);
    Distribute(a.cacheWrite5m, b.cacheWrite5m, r.cacheWrite5m);
    Distribute(a.cacheWrite1h, b.cacheWrite1h, r.cacheWrite1h);
    Distribute(a.cacheRead, b.cacheRead, r.cacheRead);
  }

  /** Pricing two usages together never loses money and gains at most one micro-dollar of rounding. */
  lemma MicrosMerge(a: Usage, b: Usage, r: RateCard)
    ensures Micros(a, r) + Micros(b, r) <= Micros(Merge(a, b), r) <= Micros(a, r) + Micros(b, r) + 1
  {}

  /** Tokens moved, kind by kind: each priced counter counts once, and reasoning is already part of the output. */
  lemma {:induction false} TokensByCounter(n: nat, a: Usage, b: Usage)
    ensures TotalTokens(Usage(n, 0, 0, 0, 0, 0)) == TotalTokens(Usage(0, n, 0, 0, 0, 0)) == n
    ensures TotalTokens(Usage(0, 0, n, 0, 0, 0)) == TotalTokens(Usage(0, 0, 0, n, 0, 0)) == n
    ensures TotalTokens(Usage(0, 0, 0, 0, n, 0)) == n && TotalTokens(a.(reasoning := n)) == TotalTokens(a)
    ensures TotalTokens(Merge(a, b)) == TotalTokens(a) + TotalTokens(b)
  {}

  /** Which rate prices which counter: `k` million tokens of one kind cost `k` times the rate of that kind, and
      reasoning tokens cost nothing of their own. With additivity this fixes every price. */
  lemma {:induction false} PriceByCounter(k: nat, r: RateCard, u: Usage, n: nat)
    ensures Micros(Usage(k * 1_000_000, 0, 0, 0, 0, 0), r) == k * r.input
    ensures Micros(Usage(0, k * 1_000_000, 0, 0, 0, 0), r) == k * r.output
    ensures Micros(Usage(0, 0, k * 1_000_000, 0, 0, 0), r) == k * r.cacheWrite5m
    ensures Micros(Usage(0, 0, 0, k * 1_000_000, 0, 0), r) == k * r.cacheWrite1h
    ensures Micros(Usage(0, 0, 0, 0, k * 1_000_000, 0), r) == k * r.cacheRead
    ensures Micros(u.(reasoning := n), r) == Micros(u, r)
  {
    MillionsAt(k, r.input);
    MillionsAt(k, r.output);
    MillionsAt(k, r.cacheWrite5m);
    MillionsAt(k, r.cacheWrite1h);
    MillionsAt(k, r.cacheRead);
  }

  lemma MillionsAt(k: nat, rate: nat)
    ensures k * 1_000_000 * rate / 1_000_000 == k * rate
  {
    assert k * 1_000_000 * rate == k * rate * 1_000_000;
  }

  lemma MicrosZero(r: RateCard)
    ensures Micros(ZERO_USAGE, r) == 0
  {}

  lemma MergeZero(a: Usage)
    ensures Merge(ZERO_USAGE, a) == a == Merge(a, ZERO_USAGE)
  {}

  /** Usages merge in any order. */
  lemma MergeSwap(a: Usage, b: Usage, c: Usage)
    ensures Merge(a, Merge(b, c)) == Merge(b, Merge(a, c))
  {}

  /** The usage recorded for `k`; an unknown identifier has used nothing. */
  function UsageAt(u: map<Id, Usage>, k: Id): Usage {
    if k in u then u[k] else ZERO_USAGE
  }

  ghost function UsageSum(S: set<Id>, u: map<Id, Usage>): Usage
    decreases |S|
  {
    if S == {} then ZERO_USAGE
    else
      var k :| k in S;
      Merge(UsageAt(u, k), UsageSum(S - {k}, u))
  }

  lemma {:induction false} UsageSumRemove(S: set<Id>, u: map<Id, Usage>, x: Id)
    requires x in S
    ensures UsageSum(S, u) == Merge(UsageAt(u, x), UsageSum(S - {x}, u))
    decreases |S|
  {
    var k :| k in S && UsageSum(S, u) == Merge(UsageAt(u, k), UsageSum(S - {k}, u));
    if k != x {
      UsageSumRemove(S - {k}, u, x);
      UsageSumRemove(S - {x}, u, k);
      assert S - {k} - {x} == S - {x} - {k};
      MergeSwap(UsageAt(u, k), UsageAt(u, x), UsageSum(S - {k} - {x}, u));
    }
  }

  lemma MergeCommutes(a: Usage, b: Usage)
    ensures Merge(a, b) == Merge(b, a)
  {}

  lemma UsageSumAdd(S: set<Id>, u: map<Id, Usage>, x: Id)
    requires x !in S
    ensures UsageSum(S + {x}, u) == Merge(UsageSum(S, u), UsageAt(u, x))
  {
    assert UsageSum(S + {x}, u) == Merge(UsageAt(u, x), UsageSum(S, u)) by {
      UsageSumRemove(S + {x}, u, x);
      assert S + {x} - {x} == S;
    }
    MergeCommutes(UsageAt(u, x), UsageSum(S, u));
  }

  lemma {:induction false} UsageSumSupport(A: set<Id>, B: set<Id>, u: map<Id, Usage>)
    requires A <= B
    requires forall k :: k in B && k !in A ==> UsageAt(u, k) == ZERO_USAGE
    ensures UsageSum(A, u) == UsageSum(B, u)
    decreases |B - A|
  {
    if B - A == {} {
      assert A == B;
    } else {
      var k :| k in B - A;
      assert (B - {k}) - A == (B - A) - {k};
      UsageSumSupport(A, B - {k}, u);
      assert UsageSum(A, u) == UsageSum(B, u) by {
        UsageSumRemove(B, u, k);
        MergeZero(UsageSum(B - {k}, u));
      }
    }
  }

  lemma {:induction false} UsageSumAgree(S: set<Id>, u: map<Id, Usage>, v: map<Id, Usage>)
    requires forall k :: k in S ==> UsageAt(u, k) == UsageAt(v, k)
    ensures UsageSum(S, u) == UsageSum(S, v)
    decreases |S|
  {
    if S != {} {
      var k :| k in S;
      UsageSumRemove(S, u, k);
      UsageSumRemove(S, v, k);
      UsageSumAgree(S - {k}, u, v);
    }
  }

  ghost predicate Additive(cost: Usage -> nat) {
    cost(ZERO_USAGE) == 0 && forall a, b :: cost(Merge(a, b)) == cost(a) + cost(b)
  }

  lemma {:induction false} AdditiveOfTotal(S: set<Id>, u: map<Id, Usage>, cost: Usage -> nat, w: map<Id, nat>)
    requires Additive(cost)
    requires forall k :: k in S ==> Weight(w, k) == cost(UsageAt(u, k))
    ensures cost(UsageSum(S, u)) == SetSum(S, w)
    decreases |S|
  {
    if S != {} {
      var k :| k in S;
      UsageSumRemove(S, u, k);
      SetSumRemove(S, w, k);
      AdditiveOfTotal(S - {k}, u, cost, w);
    }
  }

  lemma ScaledIsAdditive(r: RateCard)
    ensures Additive(u => Scaled(u, r))
  {
    forall a, b ensures Scaled(Merge(a, b), r) == Scaled(a, r) + Scaled(b, r) {
      ScaledMerge(a, b, r);
    }
  }

  ghost function PriceMap(u: map<Id, Usage>, r: RateCard): map<Id, nat> {
    map k | k in u :: Micros(u[k], r)
  }

  /** Rounding weights down one by one loses less than one unit for every weight after the first. */
  lemma {:induction false} SumOfFloors(S: set<Id>, w: map<Id, nat>, f: map<Id, nat>)
    requires S != {}
    requires forall k :: k in S ==> Weight(f, k) == Weight(w, k) / PER_MILLION
    ensures SetSum(S, f) <= SetSum(S, w) / PER_MILLION <= SetSum(S, f) + |S| - 1
    decreases |S|
  {
    var k :| k in S;
    SetSumRemove(S, w, k);
    SetSumRemove(S, f, k);
    if S - {k} == {} {
      assert S == {k};
    } else {
      SumOfFloors(S - {k}, w, f);
    }
  }

  /** Rounding each of a set of usages separately under-counts the price of their total, by less than
      one micro-dollar for every usage after the first. */
  lemma {:induction false} PriceOfTotal(S: set<Id>, u: map<Id, Usage>, r: RateCard)
    requires S != {}
    ensures SetSum(S, PriceMap(u, r)) <= Micros(UsageSum(S, u), r)
    ensures Micros(UsageSum(S, u), r) <= SetSum(S, PriceMap(u, r)) + |S| - 1
  {
    ScaledIsAdditive(r);
    var w := map k | k in u :: Scaled(u[k], r);
    AdditiveOfTotal(S, u, x => Scaled(x, r), w);
    SumOfFloors(S, w, PriceMap(u, r));
  }

  // ----- counter by counter -----

  /** One counter of each usage in the map. */
  ghost function Counters(u: map<Id, Usage>, counter: Usage -> nat): map<Id, nat> {
    map k | k in u :: counter(u[k])
  }

  /** A counter that adds up when usages are merged. */
  ghost predicate AddsUp(counter: Usage -> nat) {
    counter(ZERO_USAGE) == 0 && forall a, b :: counter(Merge(a, b)) == counter(a) + counter(b)
  }

  lemma {:induction false} CounterOfTotal(S: set<Id>, u: map<Id, Usage>, counter: Usage -> nat)
    requires AddsUp(counter)
    ensures counter(UsageSum(S, u)) == SetSum(S, Counters(u, counter))
    decreases |S|
  {
    if S != {} {
      var k :| k in S && UsageSum(S, u) == Merge(UsageAt(u, k), UsageSum(S - {k}, u));
      CounterOfTotal(S - {k}, u, counter);
      assert counter(UsageSum(S, u)) == counter(UsageAt(u, k)) + counter(UsageSum(S - {k}, u));
      assert Weight(Counters(u, counter), k) == counter(UsageAt(u, k));
      SetSumRemove(S, Counters(u, counter), k);
    }
  }

  /** Merging usages adds them up counter by counter, reasoning included: no token is lost, moved or counted twice. */
  lemma {:induction false} TotalByCounter(S: set<Id>, u: map<Id, Usage>)
    ensures var total := UsageSum(S, u);
            && total.input == SetSum(S, Counters(u, (x: Usage) => x.input))
            && total.output == SetSum(S, Counters(u, (x: Usage) => x.output))
            && total.cacheWrite5m == SetSum(S, Counters(u, (x: Usage) => x.cacheWrite5m))
            && total.cacheWrite1h == SetSum(S, Counters(u, (x: Usage) => x.cacheWrite1h))
            && total.cacheRead == SetSum(S, Counters(u, (x: Usage) => x.cacheRead))
            && total.reasoning == SetSum(S, Counters(u, (x: Usage) => x.reasoning))
  {
    CounterOfTotal(S, u, (x: Usage) => x.input);
    CounterOfTotal(S, u, (x: Usage) => x.output);
    CounterOfTotal(S, u, (x: Usage) => x.cacheWrite5m);
    CounterOfTotal(S, u, (x: Usage) => x.cacheWrite1h);
    CounterOfTotal(S, u, (x: Usage) => x.cacheRead);
    CounterOfTotal(S, u, (x: Usage) => x.reasoning);
  }
}
