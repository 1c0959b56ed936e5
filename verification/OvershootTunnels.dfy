/** The overshoot bound when requests also come through WebSockets, which are never asked for admission. */
module OvershootTunnels {
  import opened Foundations
  import opened Pricing
  import opened TaskModel
  import opened ProxyRun
  import opened Overshoot

  /** A finished request that was asked for admission costs at most `most`. */
  ghost predicate AdmittedIsCheap(sys: System, step: Step, most: nat, r: RateCard) {
    step.Complete? && InPhase(sys, step.rid, {Relayed}) ==> Micros(step.usage, r) <= most
  }

  ghost predicate AdmittedAreCheap(sys: System, steps: seq<Step>, most: nat, r: RateCard) {
    steps != [] ==>
      && AdmittedAreCheap(sys, steps[..|steps| - 1], most, r)
      && AdmittedIsCheap(Exec(sys, steps[..|steps| - 1], Some(r)), steps[|steps| - 1], most, r)
  }

  /** What a step adds to the account of the tunnels: the price of one that finishes, and one for rounding. */
  ghost function Toll(sys: System, step: Step, r: RateCard): nat {
    if step.Complete? && InPhase(sys, step.rid, {Tunneled}) then Micros(step.usage, r) + 1 else 0
  }

  ghost function Tolls(sys: System, steps: seq<Step>, r: RateCard): nat {
    if steps == [] then 0
    else
      var init := steps[..|steps| - 1];
      Tolls(sys, init, r) + Toll(Exec(sys, init, Some(r)), steps[|steps| - 1], r)
  }

  lemma TunnelMoves(sys: System, rid: nat, at: NodeRef, r: RateCard)
    requires Enters(sys, rid, at)
    ensures Reading(Next(sys, Tunnel(rid, at), Some(r)), r) == Reading(sys, r)
  {
    var t, flights := Begin(sys.task, at, None), sys.flights[rid := Flight(at, Tunneled)];
    assert t.sealed == sys.task.sealed;
    assert Spent(t, r) == Spent(sys.task, r) by {
      BeginSpendsNothing(sys.task, at, r);
    }
    assert |Relaying(flights)| == |Relaying(sys.flights)| by {
      RelayingAfter(sys.flights, rid, Flight(at, Tunneled));
    }
    var after := Next(sys, Tunnel(rid, at), Some(r));
    assert after.task == t && after.flights == flights;
  }

  lemma TunnelCloseMoves(sys: System, rid: nat, usage: Usage, complete: bool, r: RateCard)
    requires Sound(sys) && InPhase(sys, rid, {Tunneled})
    ensures var g, h := Reading(sys, r), Reading(Close(sys, rid, usage, complete), r);
            h == g.(spent := h.spent) && h.spent <= g.spent + Micros(usage, r) + 1
  {
    FinishSpends(sys.task, sys.flights[rid].at, usage, complete, r);
    RelayingAfter(sys.flights, rid, sys.flights[rid]);
  }

  /** Either an admitted request moves the gauge as before, or a tunnel finishes and adds at most its toll. */
  predicate MovesOrPays(g: Gauge, h: Gauge, ceiling: nat, most: nat, toll: nat) {
    Moves(g, h, ceiling, most) || (h == g.(spent := h.spent) && h.spent <= g.spent + toll)
  }

  lemma {:induction false} NextMovesOrPays(sys: System, step: Step, ceiling: nat, most: nat, r: RateCard)
    requires Sound(sys) && sys.task.ceiling == Some(ceiling) && AdmittedIsCheap(sys, step, most, r)
    ensures MovesOrPays(Reading(sys, r), Reading(Next(sys, step, Some(r)), r), ceiling, most, Toll(sys, step, r))
  {
    if Enabled(sys, step) {
      match step {
        case Arrive(rid, at) => ArriveMoves(sys, rid, at, ceiling, most, r);
        case Tunnel(rid, at) => TunnelMoves(sys, rid, at, r);
        case Stop(rid) => StopMoves(sys, rid, ceiling, most, r);
        case Dismiss(rid) => CloseMoves(sys, rid, ZERO_USAGE, true, ceiling, most, r);
        case Complete(rid, usage, complete) =>
          if sys.flights[rid].phase == Tunneled {
            TunnelCloseMoves(sys, rid, usage, complete, r);
          } else {
            CloseMoves(sys, rid, usage, complete, ceiling, most, r);
          }
        case Abandon(rid) => AbandonMoves(sys, rid, ceiling, most, r);
      }
    }
  }

  /** The cap of the overshoot bound, raised by what the tunnels have paid. */
  predicate UnderRaisedCap(g: Gauge, ceiling: nat, width: nat, most: nat, paid: nat) {
    g.spent + Times(g.upstream, most + 1)
    <= Max(ceiling - 1, 0) + Times(if g.sealed then width + 1 else width, most + 1) + paid
  }

  lemma MovesUnderRaisedCap(g: Gauge, h: Gauge, ceiling: nat, width: nat, most: nat, paid: nat, toll: nat)
    requires MovesOrPays(g, h, ceiling, most, toll) && UnderRaisedCap(g, ceiling, width, most, paid)
    requires h.upstream <= width
    ensures UnderRaisedCap(h, ceiling, width, most, paid + toll)
  {
    TimesMonotone(h.upstream, width, most + 1);
  }

  ghost predicate BoundedWith(sys: System, ceiling: nat, width: nat, most: nat, r: RateCard, paid: nat) {
    && Sound(sys) && sys.task.ceiling == Some(ceiling)
    && UnderRaisedCap(Reading(sys, r), ceiling, width, most, paid)
  }

  lemma {:induction false} ExecBoundedWith(sys: System, steps: seq<Step>, ceiling: nat, width: nat, most: nat,
                                           r: RateCard)
    requires BoundedWith(sys, ceiling, width, most, r, 0)
    requires AdmittedAreCheap(sys, steps, most, r) && AtMostInFlight(sys, steps, width, r)
    ensures BoundedWith(Exec(sys, steps, Some(r)), ceiling, width, most, r, Tolls(sys, steps, r))
  {
    if steps != [] {
      var init, step := steps[..|steps| - 1], steps[|steps| - 1];
      PrefixWidth(sys, steps, |init|, width, r);
      ExecBoundedWith(sys, init, ceiling, width, most, r);
      PrefixWidth(sys, steps, |steps|, width, r);
      assert steps[..|steps|] == steps;
      NextBoundedWith(Exec(sys, init, Some(r)), step, ceiling, width, most, r, Tolls(sys, init, r));
    }
  }

  lemma NextBoundedWith(sys: System, step: Step, ceiling: nat, width: nat, most: nat, r: RateCard, paid: nat)
    requires BoundedWith(sys, ceiling, width, most, r, paid) && AdmittedIsCheap(sys, step, most, r)
    requires |Relaying(Next(sys, step, Some(r)).flights)| <= width
    ensures BoundedWith(Next(sys, step, Some(r)), ceiling, width, most, r, paid + Toll(sys, step, r))
  {
    var after, toll := Next(sys, step, Some(r)), Toll(sys, step, r);
    NextSound(sys, step, Some(r));
    NextMovesOrPays(sys, step, ceiling, most, r);
    MovesUnderRaisedCap(Reading(sys, r), Reading(after, r), ceiling, width, most, paid, toll);
    assert after.task.ceiling == sys.task.ceiling by {
      NextKeeps(sys, step, Some(r));
    }
  }

  /** The overshoot bound over every run, tunnels included: a tunnel that finishes raises it by its own price and one
      micro-dollar for rounding, and by nothing else; tunnels do not count towards the width. */
  lemma {:induction false} TunnelledOvershootBound(root: Id, ceiling: nat, share: Option<Share>, steps: seq<Step>,
                                                   width: nat, most: nat, r: RateCard)
    requires AdmittedAreCheap(Start(root, Some(ceiling), share), steps, most, r)
    requires AtMostInFlight(Start(root, Some(ceiling), share), steps, width, r)
    ensures var start := Start(root, Some(ceiling), share);
            Spent(Exec(start, steps, Some(r)).task, r)
            <= Max(ceiling - 1, 0) + (width + 1) * (most + 1) + Tolls(start, steps, r)
  {
    var start := Start(root, Some(ceiling), share);
    StartBounded(root, ceiling, share, width, most, r);
    ExecBoundedWith(start, steps, ceiling, width, most, r);
    RaisedCapAsProduct(Reading(Exec(start, steps, Some(r)), r), ceiling, width, most, Tolls(start, steps, r));
  }

  lemma RaisedCapAsProduct(g: Gauge, ceiling: nat, width: nat, most: nat, paid: nat)
    requires UnderRaisedCap(g, ceiling, width, most, paid)
    ensures g.spent <= Max(ceiling - 1, 0) + (width + 1) * (most + 1) + paid
  {
    TimesMonotone(width, width + 1, most + 1);
    TimesIsProduct(width + 1, most + 1);
  }

  /** A run without tunnels pays no tolls, so there the bound is the one without them. */
  lemma {:induction false} NoTunnelsNoTolls(sys: System, steps: seq<Step>, r: RateCard)
    requires NoTunnels(sys) && forall i :: 0 <= i < |steps| ==> !steps[i].Tunnel?
    ensures Tolls(sys, steps, r) == 0 && NoTunnels(Exec(sys, steps, Some(r)))
  {
    if steps != [] {
      var init, step := steps[..|steps| - 1], steps[|steps| - 1];
      NoTunnelsNoTolls(sys, init, r);
      NextNoTunnels(Exec(sys, init, Some(r)), step, Some(r));
    }
  }
}
