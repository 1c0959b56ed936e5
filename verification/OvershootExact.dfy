/** When the documented overshoot holds: one request per branch beyond the ceiling. */
module OvershootExact {
  import opened Foundations
  import opened Pricing
  import opened TaskModel
  import opened ProxyRun
  import opened Overshoot
  import opened OvershootTight

  /** Until a task is sealed it has overshot by at most the requests upstream: the one more that the bound allows
      is the request that seals it. */
  lemma {:induction false} UnsealedBound(root: Id, ceiling: nat, share: Option<Share>, steps: seq<Step>,
                                         width: nat, most: nat, r: RateCard)
    requires CheapSteps(steps, most, r)
    requires AtMostInFlight(Start(root, Some(ceiling), share), steps, width, r)
    ensures var s := Exec(Start(root, Some(ceiling), share), steps, Some(r)).task;
            !s.sealed ==> Spent(s, r) <= Max(ceiling - 1, 0) + width * (most + 1)
  {
    StartBounded(root, ceiling, share, width, most, r);
    ExecBounded(Start(root, Some(ceiling), share), steps, ceiling, width, most, r);
    TimesIsProduct(width, most + 1);
  }

  // ----- a ceiling of nothing -----

  ghost predicate Unused(s: TaskState) {
    forall x :: x in s.nodes ==> s.nodes[x].usage == ZERO_USAGE
  }

  lemma UnusedSpent(s: TaskState, r: RateCard)
    requires Unused(s)
    ensures Spent(s, r) == 0
  {
    MicrosZero(r);
    SetSumSupport({}, s.nodes.Keys, Costs(s, r));
  }

  /** The first request to finish costs its own price: there is nothing yet for it to round up. */
  lemma FirstFinish(s: TaskState, at: NodeRef, usage: Usage, complete: bool, r: RateCard)
    requires Unused(s) && at.node in s.nodes
    ensures Spent(Finish(s, at, usage, complete), r) == Micros(usage, r)
  {
    var t := Finish(s, at, usage, complete);
    MicrosZero(r);
    SetSumSupport({at.node}, t.nodes.Keys, Costs(t, r));
    SetSumRemove({at.node}, Costs(t, r), at.node);
    assert {at.node} - {at.node} == {};
  }

  lemma BeginUnused(s: TaskState, at: NodeRef)
    requires Unused(s)
    ensures Unused(Begin(s, at, None))
  {}

  lemma AskUnused(s: TaskState, at: NodeRef, rates: Option<RateCard>)
    requires Unused(s)
    ensures Unused(Ask(s, at, rates).0)
  {}

  lemma FinishNothing(s: TaskState, at: NodeRef, complete: bool) returns (n: Node)
    requires at.node in s.nodes
    ensures n.usage == s.nodes[at.node].usage
    ensures Finish(s, at, ZERO_USAGE, complete).nodes == s.nodes[at.node := n]
  {
    n := Charged(s.nodes[at.node], ZERO_USAGE, complete);
    MergeZero(s.nodes[at.node].usage);
  }

  lemma UnusedPut(s: TaskState, t: TaskState, x: Id, n: Node)
    requires Unused(s) && x in s.nodes && t.nodes == s.nodes[x := n] && n.usage == s.nodes[x].usage
    ensures Unused(t)
  {}

  /** Nothing has been used after a step, or the step finished a request and the spend is its price. */
  ghost predicate UsesNothingYet(sys: System, after: System, most: nat, r: RateCard) {
    Unused(after.task)
    || (Spent(after.task, r) <= most && |Relaying(after.flights)| + 1 == |Relaying(sys.flights)|)
  }

  lemma ArriveUnused(sys: System, rid: nat, at: NodeRef, r: RateCard)
    requires Unused(sys.task) && Enters(sys, rid, at)
    ensures Unused(Next(sys, Arrive(rid, at), Some(r)).task)
  {
    BeginUnused(sys.task, at);
    AskUnused(Begin(sys.task, at, None), at, Some(r));
  }

  lemma CloseUnused(sys: System, rid: nat, usage: Usage, complete: bool, most: nat, r: RateCard)
    requires Sound(sys) && Unused(sys.task) && rid in sys.flights
    requires if sys.flights[rid].phase == Relayed then Micros(usage, r) <= most else usage == ZERO_USAGE
    ensures UsesNothingYet(sys, Close(sys, rid, usage, complete), most, r)
  {
    var at := sys.flights[rid].at;
    if sys.flights[rid].phase == Relayed {
      RelayingAfter(sys.flights, rid, sys.flights[rid]);
      FirstFinish(sys.task, at, usage, complete, r);
    } else {
      var n := FinishNothing(sys.task, at, complete);
      UnusedPut(sys.task, Finish(sys.task, at, ZERO_USAGE, complete), at.node, n);
    }
  }

  lemma StopUnused(s: TaskState)
    requires Unused(s)
    ensures Unused(TakeStop(s).0)
  {}

  /** While nothing has been used, a step uses nothing or finishes the first request. */
  lemma NextUnused(sys: System, step: Step, most: nat, r: RateCard)
    requires Sound(sys) && NoTunnels(sys) && Unused(sys.task) && CheapSteps([step], most, r)
    ensures UsesNothingYet(sys, Next(sys, step, Some(r)), most, r)
  {
    assert step == [step][0];
    if Enabled(sys, step) {
      match step {
        case Arrive(rid, at) => ArriveUnused(sys, rid, at, r);
        case Stop(rid) => StopUnused(sys.task);
        case Dismiss(rid) => CloseUnused(sys, rid, ZERO_USAGE, true, most, r);
        case Complete(rid, usage, complete) => CloseUnused(sys, rid, usage, complete, most, r);
        case Abandon(rid) =>
      }
    }
  }

  /** With nothing to spend, the only request ever upstream is the one that seals the task; until it finishes,
      nothing has been used. */
  predicate OneRequest(g: Gauge, unused: bool, most: nat) {
    && g.upstream <= (if g.sealed then 1 else 0) && g.spent <= most
    && (unused || (g.sealed && g.upstream == 0))
  }

  ghost predicate ZeroCeiling(sys: System, most: nat, r: RateCard) {
    && Sound(sys) && NoTunnels(sys) && sys.task.ceiling == Some(0)
    && OneRequest(Reading(sys, r), Unused(sys.task), most)
  }

  lemma NextOne(sys: System, step: Step, most: nat, r: RateCard)
    requires ZeroCeiling(sys, most, r) && CheapSteps([step], most, r)
    ensures ZeroCeiling(Next(sys, step, Some(r)), most, r)
  {
    assert step == [step][0];
    var after := Next(sys, step, Some(r));
    NextSound(sys, step, Some(r));
    NextNoTunnels(sys, step, Some(r));
    NextMoves(sys, step, 0, most, r);
    assert after.task.ceiling == sys.task.ceiling by {
      NextKeeps(sys, step, Some(r));
    }
    assert OneRequest(Reading(after, r), Unused(after.task), most) by {
      if Unused(sys.task) {
        NextUnused(sys, step, most, r);
        if Unused(after.task) {
          UnusedSpent(after.task, r);
        }
      }
    }
  }

  lemma {:induction false} ExecOne(sys: System, steps: seq<Step>, most: nat, r: RateCard)
    requires ZeroCeiling(sys, most, r) && CheapSteps(steps, most, r)
    ensures ZeroCeiling(Exec(sys, steps, Some(r)), most, r)
  {
    if steps != [] {
      ExecOne(sys, steps[..|steps| - 1], most, r);
      NextOne(Exec(sys, steps[..|steps| - 1], Some(r)), steps[|steps| - 1], most, r);
    }
  }

  /** At ceiling zero the spend never exceeds the price of one request, however many arrive and whatever the width. */
  lemma {:induction false} ZeroCeilingBound(root: Id, share: Option<Share>, steps: seq<Step>, most: nat, r: RateCard)
    requires CheapSteps(steps, most, r)
    ensures Spent(Exec(Start(root, Some(0), share), steps, Some(r)).task, r) <= most
  {
    var start := Start(root, Some(0), share);
    StartSound(root, Some(0), share);
    StartReading(root, 0, share, r);
    ExecOne(start, steps, most, r);
  }

  // ----- nothing ever upstream -----

  lemma {:induction false} NoWidthNoSpend(root: Id, ceiling: nat, share: Option<Share>, steps: seq<Step>, most: nat,
                                          r: RateCard)
    requires CheapSteps(steps, most, r) && AtMostInFlight(Start(root, Some(ceiling), share), steps, 0, r)
    ensures Reading(Exec(Start(root, Some(ceiling), share), steps, Some(r)), r) == Gauge(0, 0, false)
  {
    var start := Start(root, Some(ceiling), share);
    StartReading(root, ceiling, share, r);
    if steps != [] {
      var init, step := steps[..|steps| - 1], steps[|steps| - 1];
      PrefixWidth(start, steps, |init|, 0, r);
      PrefixWidth(start, steps, |steps|, 0, r);
      assert steps[..|steps|] == steps;
      NoWidthNoSpend(root, ceiling, share, init, most, r);
      StartBounded(root, ceiling, share, 0, most, r);
      ExecBounded(start, init, ceiling, 0, most, r);
      NextMoves(Exec(start, init, Some(r)), step, ceiling, most, r);
    }
  }

  // ----- the documented bound -----

  /** The documented promise of one run: at most one request per branch beyond the ceiling. */
  ghost predicate OnePerBranch(start: System, steps: seq<Step>, width: nat, most: nat, r: RateCard) {
    CheapSteps(steps, most, r) && AtMostInFlight(start, steps, width, r) && start.task.ceiling.Some? ==>
      Spent(Exec(start, steps, Some(r)).task, r) <= start.task.ceiling.value + width * (most + 1)
  }

  /** Under every rate card the promise is kept by every run when nothing may be spent, when no request costs
      anything, or when none is ever upstream. */
  lemma {:induction false} OnePerBranchHolds(root: Id, ceiling: nat, share: Option<Share>, steps: seq<Step>,
                                             width: nat, most: nat, r: RateCard)
    requires ceiling == 0 || most == 0 || width == 0
    ensures OnePerBranch(Start(root, Some(ceiling), share), steps, width, most, r)
  {
    var start := Start(root, Some(ceiling), share);
    if CheapSteps(steps, most, r) && AtMostInFlight(start, steps, width, r) {
      if width == 0 {
        NoWidthNoSpend(root, ceiling, share, steps, most, r);
      } else if ceiling == 0 {
        ZeroCeilingBound(root, share, steps, most, r);
        AtLeastOne(width, most + 1);
      } else {
        OvershootBound(root, ceiling, share, steps, width, most, r);
      }
    }
  }

  lemma AtLeastOne(n: nat, each: nat)
    requires 1 <= n
    ensures each <= n * each
  {}

  /** The exact condition. Under every rate card that prices anything, once the largest request outweighs `width + 2`
      units if it costs anything, one request per branch bounds the overshoot of every run if and only if the ceiling
      is zero, or no request costs a micro-dollar, or none is upstream. */
  lemma {:induction false} OnePerBranchIff(root: Id, p: Price, ceiling: nat, share: Option<Share>, width: nat,
                                           most: nat)
    requires 1 <= UnitPrice(p) && (most >= 1 ==> (width + 2) * UnitPrice(p) <= most * PER_MILLION)
    ensures (forall steps :: OnePerBranch(Start(root, Some(ceiling), share), steps, width, most, p.rates))
            <==> ceiling == 0 || most == 0 || width == 0
  {
    var start := Start(root, Some(ceiling), share);
    if ceiling == 0 || most == 0 || width == 0 {
      forall steps ensures OnePerBranch(start, steps, width, most, p.rates) {
        OnePerBranchHolds(root, ceiling, share, steps, width, most, p.rates);
      }
    } else {
      var steps := OnePerBranchExceeded(root, p, ceiling, share, width, most);
      assert !OnePerBranch(start, steps, width, most, p.rates);
    }
  }
}
