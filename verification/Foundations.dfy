/** Shared vocabulary: options, identifiers, and sums over finite sets.

    The proxy sums over hash maps, whose iteration order is unspecified. `SetSum` is therefore a sum
    over a set: it takes elements out in an arbitrary order, and `SetSumRemove` proves that the order
    does not matter. */
module Foundations {

  datatype Option<+T> = None | Some(value: T)

  type Id = string

  function Min(a: int, b: int): int { if a < b then a else b }

  function Max(a: int, b: int): int { if a < b then b else a }

  /** The weight of `k`; an identifier without a weight counts for nothing. */
  function Weight(w: map<Id, nat>, k: Id): nat {
    if k in w then w[k] else 0
  }

  ghost function SetSum(S: set<Id>, w: map<Id, nat>): nat
    decreases |S|
  {
    if S == {} then 0
    else
      var k :| k in S;
      Weight(w, k) + SetSum(S - {k}, w)
  }

  /** Whichever element is taken out first, the sum is the same. */
  lemma {:induction false} SetSumRemove(S: set<Id>, w: map<Id, nat>, x: Id)
    requires x in S
    ensures SetSum(S, w) == Weight(w, x) + SetSum(S - {x}, w)
    decreases |S|
  {
    var k :| k in S && SetSum(S, w) == Weight(w, k) + SetSum(S - {k}, w);
    if k != x {
      SetSumRemove(S - {k}, w, x);
      SetSumRemove(S - {x}, w, k);
      assert S - {k} - {x} == S - {x} - {k};
    }
  }

  lemma SetSumAdd(S: set<Id>, w: map<Id, nat>, x: Id)
    requires x !in S
    ensures SetSum(S + {x}, w) == Weight(w, x) + SetSum(S, w)
  {
    SetSumRemove(S + {x}, w, x);
    assert S + {x} - {x} == S;
  }

  lemma {:induction false} SetSumUnion(A: set<Id>, B: set<Id>, w: map<Id, nat>)
    requires A !! B
    ensures SetSum(A + B, w) == SetSum(A, w) + SetSum(B, w)
    decreases |B|
  {
    if B == {} {
      assert A + B == A;
    } else {
      var k :| k in B;
      SetSumRemove(B, w, k);
      SetSumRemove(A + B, w, k);
      assert A + B - {k} == A + (B - {k});
      SetSumUnion(A, B - {k}, w);
    }
  }

  lemma SetSumSubset(A: set<Id>, B: set<Id>, w: map<Id, nat>)
    requires A <= B
    ensures SetSum(A, w) <= SetSum(B, w)
  {
    assert A + (B - A) == B;
    SetSumUnion(A, B - A, w);
  }

  /** Two weightings that agree on a set give it the same sum. */
  lemma {:induction false} SetSumAgree(S: set<Id>, w: map<Id, nat>, v: map<Id, nat>)
    requires forall k :: k in S ==> Weight(w, k) == Weight(v, k)
    ensures SetSum(S, w) == SetSum(S, v)
    decreases |S|
  {
    if S != {} {
      var k :| k in S;
      SetSumRemove(S, w, k);
      SetSumRemove(S, v, k);
      SetSumAgree(S - {k}, w, v);
    }
  }

  /** Weightings that agree everywhere except at `x` differ, as sums, by the difference at `x`. */
  lemma SetSumChange(S: set<Id>, w: map<Id, nat>, v: map<Id, nat>, x: Id)
    requires x in S
    requires forall k :: k in S && k != x ==> Weight(w, k) == Weight(v, k)
    ensures SetSum(S, v) == SetSum(S, w) - Weight(w, x) + Weight(v, x)
  {
    SetSumRemove(S, w, x);
    SetSumRemove(S, v, x);
    SetSumAgree(S - {x}, w, v);
  }

  /** Elements of no weight can be left out of a sum. */
  lemma {:induction false} SetSumSupport(A: set<Id>, B: set<Id>, w: map<Id, nat>)
    requires A <= B
    requires forall k :: k in B && k !in A ==> Weight(w, k) == 0
    ensures SetSum(A, w) == SetSum(B, w)
    decreases |B - A|
  {
    if B - A == {} {
      assert A == B;
    } else {
      var k :| k in B - A;
      SetSumRemove(B, w, k);
      assert (B - {k}) - A == (B - A) - {k};
      SetSumSupport(A, B - {k}, w);
    }
  }
}
