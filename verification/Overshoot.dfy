/** How far past its ceiling a task can spend, over every interleaving of its requests. */
module Overshoot {
  import opened Foundations
  import opened Pricing
  import opened TaskModel
  import opened ProxyRun

  ghost function Relaying(flights: map<nat, Flight>): set<nat> {
    set rid | rid in flights && flights[rid].phase == Relayed
  }

  lemma RelayingAfter(flights: map<nat, Flight>, rid: nat, f: Flight)
    ensures rid !in Relaying(flights) && f.phase == Relayed ==> |Relaying(flights[rid := f])| == |Relaying(flights)| + 1
    ensures rid !in Relaying(flights) && f.phase != Relayed ==> |Relaying(flights[rid := f])| == |Relaying(flights)|
    ensures rid in Relaying(flights) ==> |Relaying(flights - {rid})| + 1 == |Relaying(flights)|
    ensures rid !in Relaying(flights) ==> |Relaying(flights - {rid})| == |Relaying(flights)|
  {
    if f.phase == Relayed {
      assert Relaying(flights[rid := f]) == Relaying(flights) + {rid};
    } else {
      assert Relaying(flights[rid := f]) == Relaying(flights) - {rid};
    }
    assert Relaying(flights - {rid}) == Relaying(flights) - {rid};
  }

  /** Every finished request costs at most `most` micro-dollars, and none came through a WebSocket. */
  ghost predicate CheapSteps(steps: seq<Step>, most: nat, r: RateCard) {
    forall i :: 0 <= i < |steps| ==>
      !steps[i].Tunnel? && (steps[i].Complete? ==> Micros(steps[i].usage, r) <= most)
  }

  /** After the first `k` steps at most `width` requests are upstream. */
  ghost predicate WidthAt(sys: System, steps: seq<Step>, k: nat, width: nat, r: RateCard) {
    k <= |steps| && |Relaying(Exec(sys, steps[..k], Some(r)).flights)| <= width
  }

  /** At no moment of the run are more than `width` requests upstream. */
  ghost predicate AtMostInFlight(sys: System, steps: seq<Step>, width: nat, r: RateCard) {
    forall k: nat {:trigger WidthAt(sys, steps, k, width, r)} :: k <= |steps| ==> WidthAt(sys, steps, k, width, r)
  }

  lemma PrefixWidth(sys: System, steps: seq<Step>, n: nat, width: nat, r: RateCard)
    requires n <= |steps| && AtMostInFlight(sys, steps, width, r)
    ensures AtMostInFlight(sys, steps[..n], width, r)
    ensures |Relaying(Exec(sys, steps[..n], Some(r)).flights)| <= width
  {
    assert WidthAt(sys, steps, n, width, r);
    forall k: nat | k <= n ensures WidthAt(sys, steps[..n], k, width, r) {
      assert WidthAt(sys, steps, k, width, r);
      assert steps[..n][..k] == steps[..k];
    }
  }

  ghost predicate NoTunnels(sys: System) {
    forall rid :: rid in sys.flights ==> sys.flights[rid].phase != Tunneled
  }

  /** The three numbers the bound is about. */
  datatype Gauge = Gauge(spent: nat, upstream: nat, sealed: bool)

  ghost function Reading(sys: System, r: RateCard): Gauge {
    Gauge(Spent(sys.task, r), |Relaying(sys.flights)|, sys.task.sealed)
  }

  /** How a step may move the gauge: not at all; relay one more request while the spend is below the
      ceiling; relay one and seal; finish one, spending at most its price and one for rounding; lose one. */
  predicate Moves(g: Gauge, h: Gauge, ceiling: nat, most: nat) {
    || h == g
    || (!g.sealed && g.spent < ceiling && h == g.(upstream := g.upstream + 1))
    || (!g.sealed && h == g.(upstream := g.upstream + 1, sealed := true))
    || (g.upstream > 0 && h.spent <= g.spent + most + 1 && h == g.(spent := h.spent, upstream := g.upstream - 1))
  }

  lemma AskAgainstCeiling(s: TaskState, at: NodeRef, ceiling: nat, r: RateCard)
    requires s.ceiling == Some(ceiling)
    ensures var (t, answer) := Ask(s, at, Some(r));
            || (answer.Deny? && t.sealed == s.sealed)
            || (!answer.Deny? && !s.sealed && !t.sealed && Spent(s, r) < ceiling)
            || (answer.Last? && !s.sealed && t.sealed)
  {}

  lemma ArriveMoves(sys: System, rid: nat, at: NodeRef, ceiling: nat, most: nat, r: RateCard)
    requires sys.task.ceiling == Some(ceiling) && Enters(sys, rid, at)
    ensures Moves(Reading(sys, r), Reading(Next(sys, Arrive(rid, at), Some(r)), r), ceiling, most)
  {
    var s := Begin(sys.task, at, None);
    assert s.ceiling == sys.task.ceiling && s.sealed == sys.task.sealed;
    AskAgainstCeiling(s, at, ceiling, r);
    var (t, answer) := Ask(s, at, Some(r));
    var f := Flight(at, if answer.Deny? then Refused else Relayed);
    assert Spent(t, r) == Spent(sys.task, r) == Spent(s, r) by {
      BeginSpendsNothing(sys.task, at, r);
      AskSpendsNothing(s, at, Some(r), r);
    }
    RelayingAfter(sys.flights, rid, f);
    var after := Next(sys, Arrive(rid, at), Some(r));
    assert after.task == t && after.flights == sys.flights[rid := f];
  }

  lemma CloseMoves(sys: System, rid: nat, usage: Usage, complete: bool, ceiling: nat, most: nat, r: RateCard)
    requires Sound(sys) && rid in sys.flights
    requires if sys.flights[rid].phase == Relayed then Micros(usage, r) <= most else usage == ZERO_USAGE
    ensures Moves(Reading(sys, r), Reading(Close(sys, rid, usage, complete), r), ceiling, most)
  {
    FinishSpends(sys.task, sys.flights[rid].at, usage, complete, r);
    RelayingAfter(sys.flights, rid, sys.flights[rid]);
  }

  lemma StopMoves(sys: System, rid: nat, ceiling: nat, most: nat, r: RateCard)
    requires InPhase(sys, rid, {Refused})
    ensures Moves(Reading(sys, r), Reading(Next(sys, Step.Stop(rid), Some(r)), r), ceiling, most)
  {
    RelayingAfter(sys.flights, rid, sys.flights[rid].(phase := Stopped));
    SpentUnchanged(sys.task, TakeStop(sys.task).0, r);
  }

  lemma AbandonMoves(sys: System, rid: nat, ceiling: nat, most: nat, r: RateCard)
    requires InPhase(sys, rid, {Relayed, Tunneled})
    ensures Moves(Reading(sys, r), Reading(Next(sys, Abandon(rid), Some(r)), r), ceiling, most)
  {
    RelayingAfter(sys.flights, rid, sys.flights[rid]);
  }

  lemma {:induction false} NextMoves(sys: System, step: Step, ceiling: nat, most: nat, r: RateCard)
    requires Sound(sys) && NoTunnels(sys) && sys.task.ceiling == Some(ceiling)
    requires CheapSteps([step], most, r)
    ensures Moves(Reading(sys, r), Reading(Next(sys, step, Some(r)), r), ceiling, most)
  {
    assert step == [step][0];
    if Enabled(sys, step) {
      match step {
        case Arrive(rid, at) => ArriveMoves(sys, rid, at, ceiling, most, r);
        case Stop(rid) => StopMoves(sys, rid, ceiling, most, r);
        case Dismiss(rid) => CloseMoves(sys, rid, ZERO_USAGE, true, ceiling, most, r);
        case Complete(rid, usage, complete) => CloseMoves(sys, rid, usage, complete, ceiling, most, r);
        case Abandon(rid) => AbandonMoves(sys, rid, ceiling, most, r);
      }
    }
  }

  /** `n` requests at `each` apiece, as a sum. */
  function Times(n: nat, each: nat): nat {
    if n == 0 then 0 else each + Times(n - 1, each)
  }

  lemma {:induction false} TimesMonotone(a: nat, b: nat, each: nat)
    requires a <= b
    ensures Times(a, each) <= Times(b, each)
  {
    if a < b {
      TimesMonotone(a, b - 1, each);
    }
  }

  lemma {:induction false} TimesIsProduct(n: nat, each: nat)
    ensures Times(n, each) == n * each
  {
    if n > 0 {
      TimesIsProduct(n - 1, each);
      assert n * each == (n - 1) * each + each;
    }
  }

  /** What has been spent plus what the requests upstream may still spend, against a cap that grows by
      one request when the task seals. */
  predicate UnderCap(g: Gauge, ceiling: nat, width: nat, most: nat) {
    g.spent + Times(g.upstream, most + 1)
    <= Max(ceiling - 1, 0) + Times(if g.sealed then width + 1 else width, most + 1)
  }

  lemma MovesUnderCap(g: Gauge, h: Gauge, ceiling: nat, width: nat, most: nat)
    requires Moves(g, h, ceiling, most) && UnderCap(g, ceiling, width, most) && h.upstream <= width
    ensures UnderCap(h, ceiling, width, most)
  {
    TimesMonotone(h.upstream, width, most + 1);
  }

  ghost predicate Bounded(sys: System, ceiling: nat, width: nat, most: nat, r: RateCard) {
    && Sound(sys) && NoTunnels(sys) && sys.task.ceiling == Some(ceiling)
    && UnderCap(Reading(sys, r), ceiling, width, most)
  }

  lemma NextNoTunnels(sys: System, step: Step, rates: Option<RateCard>)
    requires NoTunnels(sys) && !step.Tunnel?
    ensures NoTunnels(Next(sys, step, rates))
  {}

  lemma NextBounded(sys: System, step: Step, ceiling: nat, width: nat, most: nat, r: RateCard)
    requires Bounded(sys, ceiling, width, most, r)
    requires CheapSteps([step], most, r)
    requires |Relaying(Next(sys, step, Some(r)).flights)| <= width
    ensures Bounded(Next(sys, step, Some(r)), ceiling, width, most, r)
  {
    assert step == [step][0];
    var after := Next(sys, step, Some(r));
    NextSound(sys, step, Some(r));
    NextNoTunnels(sys, step, Some(r));
    NextMoves(sys, step, ceiling, most, r);
    MovesUnderCap(Reading(sys, r), Reading(after, r), ceiling, width, most);
    assert after.task.ceiling == sys.task.ceiling by {
      NextKeeps(sys, step, Some(r));
    }
  }

  lemma {:induction false} ExecBounded(sys: System, steps: seq<Step>, ceiling: nat, width: nat, most: nat, r: RateCard)
    requires Bounded(sys, ceiling, width, most, r)
    requires CheapSteps(steps, most, r) && AtMostInFlight(sys, steps, width, r)
    ensures Bounded(Exec(sys, steps, Some(r)), ceiling, width, most, r)
  {
    if steps != [] {
      var init, step := steps[..|steps| - 1], steps[|steps| - 1];
      PrefixWidth(sys, steps, |init|, width, r);
      ExecBounded(sys, init, ceiling, width, most, r);
      PrefixWidth(sys, steps, |steps|, width, r);
      assert steps[..|steps|] == steps;
      NextBounded(Exec(sys, init, Some(r)), step, ceiling, width, most, r);
    }
  }

  /** The overshoot bound. However the requests of a task interleave, if each costs at most `most` and at
      most `width` are upstream at once, the spend stays below the ceiling plus `width + 1` requests, each
      counted with one micro-dollar for rounding. */
  lemma {:induction false} OvershootBound(root: Id, ceiling: nat, share: Option<Share>, steps: seq<Step>,
                       width: nat, most: nat, r: RateCard)
    requires CheapSteps(steps, most, r)
    requires AtMostInFlight(Start(root, Some(ceiling), share), steps, width, r)
    ensures Spent(Exec(Start(root, Some(ceiling), share), steps, Some(r)).task, r)
            <= Max(ceiling - 1, 0) + (width + 1) * (most + 1)
  {
    var start := Start(root, Some(ceiling), share);
    StartBounded(root, ceiling, share, width, most, r);
    ExecBounded(start, steps, ceiling, width, most, r);
    CapAsProduct(Reading(Exec(start, steps, Some(r)), r), ceiling, width, most);
  }

  lemma CapAsProduct(g: Gauge, ceiling: nat, width: nat, most: nat)
    requires UnderCap(g, ceiling, width, most)
    ensures g.spent <= Max(ceiling - 1, 0) + (width + 1) * (most + 1)
  {
    TimesMonotone(width, width + 1, most + 1);
    TimesIsProduct(width + 1, most + 1);
  }

  lemma StartBounded(root: Id, ceiling: nat, share: Option<Share>, width: nat, most: nat, r: RateCard)
    ensures Bounded(Start(root, Some(ceiling), share), ceiling, width, most, r)
  {
    StartSound(root, Some(ceiling), share);
    StartReading(root, ceiling, share, r);
  }

  lemma StartReading(root: Id, ceiling: nat, share: Option<Share>, r: RateCard)
    ensures Reading(Start(root, Some(ceiling), share), r) == Gauge(0, 0, false)
  {
    var s := NewTask(root, Some(ceiling), share);
    assert Relaying(Start(root, Some(ceiling), share).flights) == {};
    MicrosZero(r);
    SetSumRemove(s.nodes.Keys, Costs(s, r), root);
    assert s.nodes.Keys - {root} == {};
  }
}
