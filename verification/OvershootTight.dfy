/** How far past its ceiling a task can really spend: for every rate card that prices anything, a family of runs that
    spends as near to the overshoot bound as the smallest prices allow, and exactly the bound when these are small. */
module OvershootTight {
  import opened Foundations
  import opened Pricing
  import opened TaskModel
  import opened ProxyRun
  import opened Seals
  import opened Overshoot

  /** A rate card, and a usage such as a single token, of which requests use whole multiples. */
  datatype Price = Price(rates: RateCard, unit: Usage)

  function Repeat(unit: Usage, n: nat): Usage {
    if n == 0 then ZERO_USAGE else Merge(Repeat(unit, n - 1), unit)
  }

  function Units(p: Price, n: nat): Usage { Repeat(p.unit, n) }

  /** What `n` units cost together, and what one costs before rounding. */
  function Cost(p: Price, n: nat): nat { Micros(Units(p, n), p.rates) }

  function UnitPrice(p: Price): nat { Scaled(p.unit, p.rates) }

  lemma {:induction false} UnitsAdd(p: Price, a: nat, b: nat)
    ensures Merge(Units(p, a), Units(p, b)) == Units(p, a + b)
  {
    if b == 0 {
      MergeZero(Units(p, a));
    } else {
      UnitsAdd(p, a, b - 1);
    }
  }

  lemma {:induction false} UnitsScaled(p: Price, n: nat)
    ensures Scaled(Units(p, n), p.rates) == Times(n, UnitPrice(p))
  {
    if n > 0 {
      UnitsScaled(p, n - 1);
      ScaledMerge(Units(p, n - 1), p.unit, p.rates);
    }
  }

  lemma CostMonotone(p: Price, a: nat, b: nat)
    requires a <= b
    ensures Cost(p, a) <= Cost(p, b)
  {
    UnitsScaled(p, a);
    UnitsScaled(p, b);
    TimesMonotone(a, b, UnitPrice(p));
  }

  function MainThread(root: Id): NodeRef { NodeRef(root, root, None) }

  lemma {:induction false} IntervalSize(S: set<nat>, lo: nat, hi: nat)
    requires lo <= hi && forall i :: i in S <==> lo <= i < hi
    ensures |S| == hi - lo
    decreases hi
  {
    if lo < hi {
      IntervalSize(S - {hi - 1}, lo, hi - 1);
    } else {
      assert S == {};
    }
  }

  /** A task with ceiling `c` whose root alone has used `t` units. */
  ghost predicate Solo(s: TaskState, root: Id, p: Price, c: nat, t: nat) {
    && WellKept(s) && s.root == root && s.ceiling == Some(c) && s.nodes.Keys == {root}
    && s.nodes[root].usage == Units(p, t) && !s.nodes[root].sealed
  }

  lemma SoloSpent(s: TaskState, root: Id, p: Price, c: nat, t: nat)
    requires Solo(s, root, p, c, t)
    ensures Spent(s, p.rates) == Cost(p, t)
  {
    SetSumRemove({root}, Costs(s, p.rates), root);
    assert {root} - {root} == {};
  }

  lemma SoloAsk(s: TaskState, root: Id, p: Price, c: nat, t: nat)
    requires Solo(s, root, p, c, t) && !s.sealed
    ensures var (u, answer) := Ask(Begin(s, MainThread(root), None), MainThread(root), Some(p.rates));
            Solo(u, root, p, c, t) && u.sealed == (Cost(p, t) >= c) && !answer.Deny?
  {
    var at := MainThread(root);
    var b := Begin(s, at, None);
    BeginWellKept(s, at, None);
    assert Solo(b, root, p, c, t) && !b.sealed;
    RootAdmission(b, at, p.rates);
    SoloSpent(b, root, p, c, t);
  }

  lemma SoloFinish(s: TaskState, root: Id, p: Price, c: nat, t: nat, n: nat)
    requires Solo(s, root, p, c, t)
    ensures var u := Finish(s, MainThread(root), Units(p, n), true);
            Solo(u, root, p, c, t + n) && u.sealed == s.sealed
  {
    FinishWellKept(s, MainThread(root), Units(p, n), true);
    UnitsAdd(p, t, n);
  }

  /** Such a task with the requests numbered from `lo` up to `hi` upstream. */
  ghost predicate Busy(sys: System, root: Id, p: Price, c: nat, t: nat, lo: nat, hi: nat) {
    && Solo(sys.task, root, p, c, t) && lo <= hi
    && (forall i :: i in sys.flights <==> lo <= i < hi)
    && forall i :: i in sys.flights ==> sys.flights[i] == Flight(MainThread(root), Relayed)
  }

  lemma BusyCount(sys: System, root: Id, p: Price, c: nat, t: nat, lo: nat, hi: nat)
    requires Busy(sys, root, p, c, t, lo, hi)
    ensures |Relaying(sys.flights)| == hi - lo
  {
    IntervalSize(Relaying(sys.flights), lo, hi);
  }

  /** A request is let in while the task is not sealed; it seals the task if the ceiling is spent. */
  lemma BusyArrive(sys: System, root: Id, p: Price, c: nat, t: nat, lo: nat, hi: nat) returns (after: System)
    requires Busy(sys, root, p, c, t, lo, hi) && !sys.task.sealed
    ensures after == Next(sys, Arrive(hi, MainThread(root)), Some(p.rates))
    ensures Busy(after, root, p, c, t, lo, hi + 1) && after.task.sealed == (Cost(p, t) >= c)
  {
    after := Next(sys, Arrive(hi, MainThread(root)), Some(p.rates));
    SoloAsk(sys.task, root, p, c, t);
  }

  lemma BusyComplete(sys: System, root: Id, p: Price, c: nat, t: nat, lo: nat, hi: nat, n: nat) returns (after: System)
    requires Busy(sys, root, p, c, t, lo, hi) && lo < hi
    ensures after == Next(sys, Complete(lo, Units(p, n), true), Some(p.rates))
    ensures Busy(after, root, p, c, t + n, lo + 1, hi) && after.task.sealed == sys.task.sealed
  {
    after := Next(sys, Complete(lo, Units(p, n), true), Some(p.rates));
    SoloFinish(sys.task, root, p, c, t, n);
  }

  /** After `k` steps at most `width` requests are upstream, the next step is cheap, and the last stage
      ends in `after`. */
  ghost predicate Stage(p: Price, sys: System, steps: seq<Step>, after: System, k: nat, width: nat, most: nat) {
    && WidthAt(sys, steps, k, width, p.rates)
    && (k < |steps| ==> CheapSteps([steps[k]], most, p.rates))
    && (k == |steps| ==> after == Exec(sys, steps, Some(p.rates)))
  }

  /** A stretch of a run that keeps to the hypotheses of the bound at every stage. */
  ghost predicate Leg(p: Price, sys: System, steps: seq<Step>, after: System, width: nat, most: nat) {
    forall k: nat {:trigger Stage(p, sys, steps, after, k, width, most)} ::
      k <= |steps| ==> Stage(p, sys, steps, after, k, width, most)
  }

  lemma LegMeans(p: Price, sys: System, steps: seq<Step>, after: System, width: nat, most: nat)
    requires Leg(p, sys, steps, after, width, most)
    ensures after == Exec(sys, steps, Some(p.rates))
    ensures AtMostInFlight(sys, steps, width, p.rates)
    ensures CheapSteps(steps, most, p.rates)
  {
    assert Stage(p, sys, steps, after, |steps|, width, most);
    forall k: nat | k <= |steps| ensures WidthAt(sys, steps, k, width, p.rates) {
      assert Stage(p, sys, steps, after, k, width, most);
    }
    forall i | 0 <= i < |steps|
      ensures !steps[i].Tunnel? && (steps[i].Complete? ==> Micros(steps[i].usage, p.rates) <= most)
    {
      assert Stage(p, sys, steps, after, i, width, most);
      assert [steps[i]][0] == steps[i];
    }
  }

  lemma LegStep(p: Price, sys: System, steps: seq<Step>, mid: System, step: Step, after: System, width: nat, most: nat)
    requires Leg(p, sys, steps, mid, width, most) && CheapSteps([step], most, p.rates)
    requires after == Next(mid, step, Some(p.rates)) && |Relaying(after.flights)| <= width
    ensures Leg(p, sys, steps + [step], after, width, most)
  {
    var all := steps + [step];
    assert all[..|all| - 1] == steps && all[..|all|] == all;
    forall k: nat | k <= |all| ensures Stage(p, sys, all, after, k, width, most) {
      if k <= |steps| {
        assert Stage(p, sys, steps, mid, k, width, most);
        assert all[..k] == steps[..k];
      } else {
        assert Stage(p, sys, steps, mid, |steps|, width, most);
      }
    }
  }

  // ----- driving a run -----

  /** What stays fixed along a run. */
  datatype Course = Course(root: Id, p: Price, c: nat, share: Option<Share>, width: nat, most: nat)

  ghost function Origin(k: Course): System { Start(k.root, Some(k.c), k.share) }

  /** The run has led to `now`: `t` units used, and the requests from `lo` up to `hi` upstream. */
  ghost predicate At(k: Course, steps: seq<Step>, now: System, t: nat, lo: nat, hi: nat) {
    && Leg(k.p, Origin(k), steps, now, k.width, k.most)
    && Busy(now, k.root, k.p, k.c, t, lo, hi)
  }

  lemma AtStart(k: Course)
    ensures At(k, [], Origin(k), 0, 0, 0) && !Origin(k).task.sealed
  {
    StartSound(k.root, Some(k.c), k.share);
    BusyCount(Origin(k), k.root, k.p, k.c, 0, 0, 0);
  }

  lemma Enter(k: Course, steps: seq<Step>, now: System, t: nat, lo: nat, hi: nat)
    returns (longer: seq<Step>, after: System)
    requires At(k, steps, now, t, lo, hi) && !now.task.sealed && hi + 1 - lo <= k.width
    ensures At(k, longer, after, t, lo, hi + 1) && after.task.sealed == (Cost(k.p, t) >= k.c)
  {
    after := BusyArrive(now, k.root, k.p, k.c, t, lo, hi);
    BusyCount(after, k.root, k.p, k.c, t, lo, hi + 1);
    LegStep(k.p, Origin(k), steps, now, Arrive(hi, MainThread(k.root)), after, k.width, k.most);
    longer := steps + [Arrive(hi, MainThread(k.root))];
  }

  lemma Land(k: Course, steps: seq<Step>, now: System, t: nat, lo: nat, hi: nat, n: nat)
    returns (longer: seq<Step>, after: System)
    requires At(k, steps, now, t, lo, hi) && lo < hi && hi - (lo + 1) <= k.width && Cost(k.p, n) <= k.most
    ensures At(k, longer, after, t + n, lo + 1, hi) && after.task.sealed == now.task.sealed
  {
    var step := Complete(lo, Units(k.p, n), true);
    after := BusyComplete(now, k.root, k.p, k.c, t, lo, hi, n);
    BusyCount(after, k.root, k.p, k.c, t + n, lo + 1, hi);
    LegStep(k.p, Origin(k), steps, now, step, after, k.width, k.most);
    longer := steps + [step];
  }

  lemma {:induction false} EnterMany(k: Course, steps: seq<Step>, now: System, t: nat, lo: nat, hi: nat, n: nat)
    returns (longer: seq<Step>, after: System)
    requires At(k, steps, now, t, lo, hi) && !now.task.sealed && Cost(k.p, t) < k.c && hi + n - lo <= k.width
    ensures At(k, longer, after, t, lo, hi + n) && !after.task.sealed
    decreases n
  {
    longer, after := steps, now;
    if n > 0 {
      longer, after := EnterMany(k, steps, now, t, lo, hi, n - 1);
      longer, after := Enter(k, longer, after, t, lo, hi + n - 1);
    }
  }

  lemma {:induction false} LandMany(k: Course, steps: seq<Step>, now: System, t: nat, lo: nat, hi: nat, n: nat,
                                    each: nat)
    returns (longer: seq<Step>, after: System)
    requires At(k, steps, now, t, lo, hi) && lo + n <= hi && hi - lo <= k.width && Cost(k.p, each) <= k.most
    ensures At(k, longer, after, t + Times(n, each), lo + n, hi) && after.task.sealed == now.task.sealed
    decreases n
  {
    longer, after := steps, now;
    if n > 0 {
      longer, after := LandMany(k, steps, now, t, lo, hi, n - 1, each);
      longer, after := Land(k, longer, after, t + Times(n - 1, each), lo + n - 1, hi, each);
    }
  }

  lemma PassThrough(k: Course, steps: seq<Step>, now: System, t: nat, i: nat, n: nat)
    returns (longer: seq<Step>, after: System)
    requires At(k, steps, now, t, i, i) && !now.task.sealed && Cost(k.p, t) < k.c
    requires 1 <= k.width && Cost(k.p, n) <= k.most
    ensures At(k, longer, after, t + n, i + 1, i + 1) && !after.task.sealed
  {
    longer, after := Enter(k, steps, now, t, i, i);
    longer, after := Land(k, longer, after, t, i, i + 1, n);
  }

  /** `n` requests of one unit each, one after another, while the spend stays below the ceiling. */
  lemma {:induction false} Climb(k: Course, n: nat) returns (steps: seq<Step>, after: System)
    requires 1 <= k.width && Cost(k.p, n) < k.c && Cost(k.p, 1) <= k.most
    ensures At(k, steps, after, n, n, n) && !after.task.sealed
    decreases n
  {
    if n == 0 {
      AtStart(k);
      steps, after := [], Origin(k);
    } else {
      CostMonotone(k.p, n - 1, n);
      steps, after := Climb(k, n - 1);
      steps, after := PassThrough(k, steps, after, n - 1, n - 1, 1);
    }
  }

  /** The hypotheses of the overshoot bound. */
  ghost predicate Obeys(start: System, steps: seq<Step>, width: nat, most: nat, r: RateCard) {
    CheapSteps(steps, most, r) && AtMostInFlight(start, steps, width, r)
  }

  lemma AtMeans(k: Course, steps: seq<Step>, now: System, t: nat, lo: nat, hi: nat)
    requires At(k, steps, now, t, lo, hi)
    ensures Obeys(Origin(k), steps, k.width, k.most, k.p.rates)
    ensures Spent(Exec(Origin(k), steps, Some(k.p.rates)).task, k.p.rates) == Cost(k.p, t)
  {
    LegMeans(k.p, Origin(k), steps, now, k.width, k.most);
    SoloSpent(now.task, k.root, k.p, k.c, t);
  }

  /** Below the ceiling `width` requests are let in together, and the first of them lands. */
  lemma FirstWave(k: Course, steps: seq<Step>, now: System, t: nat, i: nat, each: nat)
    returns (longer: seq<Step>, after: System)
    requires At(k, steps, now, t, i, i) && !now.task.sealed && Cost(k.p, t) < k.c
    requires 1 <= k.width && Cost(k.p, each) <= k.most
    ensures At(k, longer, after, t + each, i + 1, i + k.width) && !after.task.sealed
  {
    longer, after := EnterMany(k, steps, now, t, i, i, k.width);
    longer, after := Land(k, longer, after, t, i, i + k.width, each);
  }

  /** One more request is let in, and everything upstream lands. */
  lemma SecondWave(k: Course, steps: seq<Step>, now: System, t: nat, i: nat, each: nat)
    returns (longer: seq<Step>, after: System)
    requires At(k, steps, now, t, i + 1, i + k.width) && !now.task.sealed
    requires 1 <= k.width && Cost(k.p, each) <= k.most
    ensures At(k, longer, after, t + Times(k.width, each), i + k.width + 1, i + k.width + 1)
  {
    longer, after := Enter(k, steps, now, t, i + 1, i + k.width);
    longer, after := LandMany(k, longer, after, t, i + 1, i + k.width + 1, k.width, each);
  }

  lemma BothWaves(k: Course, steps: seq<Step>, now: System, t: nat, i: nat, each: nat)
    returns (longer: seq<Step>, after: System)
    requires At(k, steps, now, t, i, i) && !now.task.sealed && Cost(k.p, t) < k.c
    requires 1 <= k.width && Cost(k.p, each) <= k.most
    ensures At(k, longer, after, t + Times(k.width + 1, each), i + k.width + 1, i + k.width + 1)
  {
    longer, after := FirstWave(k, steps, now, t, i, each);
    longer, after := SecondWave(k, longer, after, t + each, i, each);
    assert t + each + Times(k.width, each) == t + Times(k.width + 1, each);
  }

  /** From `low` units below the ceiling, `width + 1` requests of `each` units. */
  lemma {:induction false} TwoWaves(k: Course, low: nat, each: nat) returns (steps: seq<Step>)
    requires 1 <= k.width && Cost(k.p, low) < k.c && Cost(k.p, 1) <= k.most && Cost(k.p, each) <= k.most
    ensures Obeys(Origin(k), steps, k.width, k.most, k.p.rates)
    ensures Spent(Exec(Origin(k), steps, Some(k.p.rates)).task, k.p.rates) == Cost(k.p, low + Times(k.width + 1, each))
  {
    var now;
    steps, now := Climb(k, low);
    steps, now := BothWaves(k, steps, now, low, low, each);
    AtMeans(k, steps, now, low + Times(k.width + 1, each), low + k.width + 1, low + k.width + 1);
  }

  // ----- how near the bound -----

  /** The most units that cost less than `limit` micro-dollars. */
  function UnitsBelow(p: Price, limit: nat): (n: nat)
    requires UnitPrice(p) > 0 && limit > 0
  {
    (limit * PER_MILLION - 1) / UnitPrice(p)
  }

  /** They cost less than the limit, and miss it by no more than the price of a unit. */
  lemma UnitsBelowCost(p: Price, limit: nat)
    requires UnitPrice(p) > 0 && limit > 0
    ensures limit * PER_MILLION - UnitPrice(p) <= Times(UnitsBelow(p, limit), UnitPrice(p)) < limit * PER_MILLION
    ensures Cost(p, UnitsBelow(p, limit)) < limit
  {
    var n, u := UnitsBelow(p, limit), UnitPrice(p);
    QuotientAround(limit * PER_MILLION - 1, u);
    TimesIsProduct(n, u);
    UnitsScaled(p, n);
  }

  lemma QuotientAround(x: nat, d: nat)
    requires d > 0
    ensures x / d * d <= x < x / d * d + d
  {}

  lemma {:induction false} TimesLeast(n: nat, low: nat, each: nat, slack: nat)
    requires low <= each + slack
    ensures Times(n, low) <= Times(n, each) + Times(n, slack)
  {
    if n > 0 {
      TimesLeast(n - 1, low, each, slack);
    }
  }

  lemma {:induction false} TimesTimes(a: nat, b: nat, each: nat)
    ensures Times(Times(a, b), each) == Times(a, Times(b, each))
  {
    if a > 0 {
      TimesTimes(a - 1, b, each);
      TimesAdd(b, Times(a - 1, b), each);
    }
  }

  lemma {:induction false} TimesAdd(a: nat, b: nat, each: nat)
    ensures Times(a + b, each) == Times(a, each) + Times(b, each)
  {
    if a > 0 {
      TimesAdd(a - 1, b, each);
    }
  }

  /** The waves at their largest miss the ceiling and `width + 1` requests of `most + 1` by at most `width + 2`
      units. */
  lemma LargestWaves(p: Price, c: nat, width: nat, most: nat) returns (low: nat, each: nat)
    requires 1 <= c && 1 <= UnitPrice(p)
    ensures low == UnitsBelow(p, c) && each == UnitsBelow(p, most + 1)
    ensures Cost(p, low) < c && Cost(p, each) <= most
    ensures (c + (width + 1) * (most + 1)) * PER_MILLION
            <= Scaled(Units(p, low + Times(width + 1, each)), p.rates) + (width + 2) * UnitPrice(p)
  {
    low, each := UnitsBelow(p, c), UnitsBelow(p, most + 1);
    UnitsBelowCost(p, c);
    UnitsBelowCost(p, most + 1);
    WavesCost(p, low, each, width + 1);
    WavesMiss(c, width + 1, most + 1, UnitPrice(p), Times(low, UnitPrice(p)), Times(each, UnitPrice(p)));
  }

  lemma WavesCost(p: Price, low: nat, each: nat, n: nat)
    ensures Scaled(Units(p, low + Times(n, each)), p.rates)
            == Times(low, UnitPrice(p)) + Times(n, Times(each, UnitPrice(p)))
  {
    UnitsScaled(p, low + Times(n, each));
    TimesAdd(low, Times(n, each), UnitPrice(p));
    TimesTimes(n, each, UnitPrice(p));
  }

  lemma WavesMiss(c: nat, n: nat, limit: nat, unit: nat, low: nat, each: nat)
    requires c * PER_MILLION <= low + unit && limit * PER_MILLION <= each + unit
    ensures (c + n * limit) * PER_MILLION <= low + Times(n, each) + (n + 1) * unit
  {
    TimesLeast(n, limit * PER_MILLION, each, unit);
    TimesIsProduct(n, limit * PER_MILLION);
    TimesIsProduct(n, unit);
    Reassociate(n, limit, PER_MILLION);
    Distribute(c, n * limit, PER_MILLION);
    Distribute(n, 1, unit);
  }

  lemma Reassociate(a: nat, b: nat, c: nat)
    ensures a * (b * c) == a * b * c
  {}

  /** The bound is reached: for every ceiling of at least one, every rate card, width and price, as long as the
      rounding of all requests still adds up, some run in which at most `width` requests are upstream, each costing at
      most `most`, spends exactly what the bound allows. */
  lemma {:induction false} OvershootAttained(root: Id, p: Price, c: nat, share: Option<Share>, width: nat, most: nat)
    returns (steps: seq<Step>)
    requires 1 <= c && 1 <= width && 1 <= UnitPrice(p) && (width + 2) * UnitPrice(p) <= PER_MILLION
    ensures Obeys(Start(root, Some(c), share), steps, width, most, p.rates)
    ensures Spent(Exec(Start(root, Some(c), share), steps, Some(p.rates)).task, p.rates)
            == c - 1 + (width + 1) * (most + 1)
  {
    var low, each := LargestWaves(p, c, width, most);
    UnitIsCheap(p, width, most);
    steps := TwoWaves(Course(root, p, c, share, width, most), low, each);
    var total := Scaled(Units(p, low + Times(width + 1, each)), p.rates);
    assert total / PER_MILLION >= c + (width + 1) * (most + 1) - 1;
    OvershootBound(root, c, share, steps, width, most, p.rates);
  }

  lemma UnitIsCheap(p: Price, width: nat, most: nat)
    requires (width + 2) * UnitPrice(p) <= Max(1, most) * PER_MILLION
    ensures Cost(p, 1) <= most
  {
    UnitsScaled(p, 1);
    assert Times(1, UnitPrice(p)) == UnitPrice(p);
    assert 2 * UnitPrice(p) <= (width + 2) * UnitPrice(p);
  }

  /** The documented overshoot of one request per branch is exceeded, under every rate card that prices anything and at
      every width, as soon as the largest request outweighs `width + 2` units. */
  lemma {:induction false} OnePerBranchExceeded(root: Id, p: Price, c: nat, share: Option<Share>, width: nat, most: nat)
    returns (steps: seq<Step>)
    requires 1 <= c && 1 <= width && 1 <= UnitPrice(p) && (width + 2) * UnitPrice(p) <= most * PER_MILLION
    ensures Obeys(Start(root, Some(c), share), steps, width, most, p.rates)
    ensures Spent(Exec(Start(root, Some(c), share), steps, Some(p.rates)).task, p.rates) > c + width * (most + 1)
  {
    var low, each := LargestWaves(p, c, width, most);
    UnitIsCheap(p, width, most);
    steps := TwoWaves(Course(root, p, c, share, width, most), low, each);
    var total := Scaled(Units(p, low + Times(width + 1, each)), p.rates);
    Distribute(width, 1, most + 1);
    assert total / PER_MILLION >= c + (width + 1) * (most + 1) - most;
  }

  /** At ceiling zero one request is let through, as the last, and costs its price, whatever it used. */
  lemma {:induction false} ZeroCeilingAttained(root: Id, r: RateCard, usage: Usage, share: Option<Share>, most: nat)
    returns (steps: seq<Step>)
    requires Micros(usage, r) <= most
    ensures Obeys(Start(root, Some(0), share), steps, 1, most, r)
    ensures Spent(Exec(Start(root, Some(0), share), steps, Some(r)).task, r) == Micros(usage, r)
  {
    var k := Course(root, Price(r, usage), 0, share, 1, most);
    assert Units(k.p, 1) == usage by {
      assert Units(k.p, 1) == Merge(Units(k.p, 0), usage);
      MergeZero(usage);
    }
    AtStart(k);
    var now := Origin(k);
    steps, now := Enter(k, [], now, 0, 0, 0);
    steps, now := Land(k, steps, now, 0, 0, 1, 1);
    AtMeans(k, steps, now, 1, 1, 1);
  }
}
