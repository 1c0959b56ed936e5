/** One task driven by the proxy: every critical section that locks the arena is one step, and the
    steps of different requests interleave in any order (crates/tailfin-proxy/src/proxy.rs). */
module ProxyRun {
  import opened Foundations
  import opened Pricing
  import opened TaskModel

  /** How far a request has got: sent upstream after admission, sent upstream over a WebSocket without
      admission, denied, or denied and told how to stop. */
  datatype Phase = Relayed | Tunneled | Refused | Stopped

  datatype Flight = Flight(at: NodeRef, phase: Phase)

  /** A ledger row (crates/tailfin-ledger/src/lib.rs). */
  datatype Record = Record(taskId: Id, node: Id, parent: Option<Id>, incomplete: bool, usage: Usage, peak: nat)

  /** What one arriving request was told. */
  datatype Answer = Answer(node: Id, admission: Admission)

  /** The task, its requests in flight, the rows written so far, and the answers given so far. */
  datatype System = System(task: TaskState, flights: map<nat, Flight>, rows: seq<Record>,
                           answers: seq<Answer>, stops: seq<StopStyle>)

  datatype Step =
    | Arrive(rid: nat, at: NodeRef)                         // begin, then ask for admission
    | Tunnel(rid: nat, at: NodeRef)                         // begin a WebSocket, which is never asked
    | Stop(rid: nat)                                        // choose how a denied request is stopped
    | Dismiss(rid: nat)                                     // finish a stopped request, which used nothing
    | Complete(rid: nat, usage: Usage, complete: bool)      // finish a request that went upstream
    | Abandon(rid: nat)                                     // an early return after begin: never finished

  ghost function Start(root: Id, ceiling: Option<nat>, share: Option<Share>): System {
    System(NewTask(root, ceiling, share), map[], [], [], [])
  }

  ghost function Ask(s: TaskState, at: NodeRef, rates: Option<RateCard>): (TaskState, Admission) {
    if rates.Some? then AdmitAt(s, at, rates.value) else (s, Allow)
  }

  /** Finish a request and append its row, under one lock. */
  ghost function Close(sys: System, rid: nat, usage: Usage, complete: bool): System
    requires rid in sys.flights
  {
    var at := sys.flights[rid].at;
    var t := Finish(sys.task, at, usage, complete);
    sys.(task := t, flights := sys.flights - {rid},
         rows := sys.rows + [Record(at.root, at.node, at.parent, !complete, usage, t.peak)])
  }

  ghost predicate InPhase(sys: System, rid: nat, phases: set<Phase>) {
    rid in sys.flights && sys.flights[rid].phase in phases
  }

  /** A request identifier is used once at a time and names a node of this task. */
  ghost predicate Enters(sys: System, rid: nat, at: NodeRef) {
    rid !in sys.flights && at.root == sys.task.root
  }

  ghost predicate Enabled(sys: System, step: Step) {
    match step
    case Arrive(rid, at) => Enters(sys, rid, at)
    case Tunnel(rid, at) => Enters(sys, rid, at)
    case Stop(rid) => InPhase(sys, rid, {Refused})
    case Dismiss(rid) => InPhase(sys, rid, {Stopped})
    case Complete(rid, _, _) => InPhase(sys, rid, {Relayed, Tunneled})
    case Abandon(rid) => InPhase(sys, rid, {Relayed, Tunneled})
  }

  /** One step. A step that is not enabled changes nothing, so every sequence of steps is a run. */
  ghost function Next(sys: System, step: Step, rates: Option<RateCard>): System {
    if !Enabled(sys, step) then sys
    else match step
      case Arrive(rid, at) =>
        var (t, answer) := Ask(Begin(sys.task, at, None), at, rates);
        sys.(task := t, answers := sys.answers + [Answer(at.node, answer)],
             flights := sys.flights[rid := Flight(at, if answer.Deny? then Refused else Relayed)])
      case Tunnel(rid, at) =>
        sys.(task := Begin(sys.task, at, None), flights := sys.flights[rid := Flight(at, Tunneled)])
      case Stop(rid) =>
        var (t, style) := TakeStop(sys.task);
        sys.(task := t, stops := sys.stops + [style],
             flights := sys.flights[rid := sys.flights[rid].(phase := Stopped)])
      case Dismiss(rid) => Close(sys, rid, ZERO_USAGE, true)
      case Complete(rid, usage, complete) => Close(sys, rid, usage, complete)
      case Abandon(rid) => sys.(flights := sys.flights - {rid})
  }

  ghost function Exec(sys: System, steps: seq<Step>, rates: Option<RateCard>): System {
    if steps == [] then sys
    else Next(Exec(sys, steps[..|steps| - 1], rates), steps[|steps| - 1], rates)
  }

  lemma {:induction false} ExecConcat(sys: System, a: seq<Step>, b: seq<Step>, rates: Option<RateCard>)
    ensures Exec(sys, a + b, rates) == Exec(Exec(sys, a, rates), b, rates)
    decreases |b|
  {
    if b == [] {
      assert a + b == a;
    } else {
      assert (a + b)[..|a + b| - 1] == a + b[..|b| - 1];
      ExecConcat(sys, a, b[..|b| - 1], rates);
    }
  }

  // ----- what every step keeps -----

  /** The flights of a system belong to its task, and each has its node. */
  ghost predicate Sound(sys: System) {
    && WellKept(sys.task)
    && forall rid :: rid in sys.flights ==>
         sys.flights[rid].at.root == sys.task.root && sys.flights[rid].at.node in sys.task.nodes
  }

  /** What a node can never lose: its parent, its depth, a minted voucher, a seal. */
  ghost predicate NodeKeeps(m: Node, n: Node) {
    && m.parent == n.parent && m.depth == n.depth
    && (m.allowance.Some? ==> n.allowance == m.allowance)
    && (m.sealed ==> n.sealed)
  }

  ghost predicate Keeps(s: TaskState, t: TaskState) {
    && t.root == s.root && t.ceiling == s.ceiling && t.share == s.share
    && (s.sealed ==> t.sealed) && (s.syntheticSent ==> t.syntheticSent) && s.peak <= t.peak
    && s.order <= t.order
    && forall x :: x in s.nodes ==> x in t.nodes && NodeKeeps(s.nodes[x], t.nodes[x])
  }

  lemma KeepsTransitive(s: TaskState, t: TaskState, u: TaskState)
    requires Keeps(s, t) && Keeps(t, u)
    ensures Keeps(s, u)
  {}

  lemma EnsureKeeps(s: TaskState, node: Id, parent: Option<Id>, tag: Option<string>)
    ensures Keeps(s, EnsureNode(s, node, parent, tag))
  {}

  lemma BeginKeeps(s: TaskState, at: NodeRef)
    ensures Keeps(s, Begin(s, at, None))
  {
    var t := EnsureNode(s, at.node, at.parent, None);
    EnsureKeeps(s, at.node, at.parent, None);
    assert Keeps(t, MintVoucher(t, at));
    KeepsTransitive(s, t, MintVoucher(t, at));
  }

  lemma AskKeeps(s: TaskState, at: NodeRef, rates: Option<RateCard>)
    ensures Keeps(s, Ask(s, at, rates).0)
  {}

  lemma FinishKeeps(s: TaskState, at: NodeRef, usage: Usage, complete: bool)
    ensures Keeps(s, Finish(s, at, usage, complete))
  {
    var t := EnsureNode(s, at.node, at.parent, None);
    EnsureKeeps(s, at.node, at.parent, None);
    assert Keeps(t, Finish(s, at, usage, complete));
    KeepsTransitive(s, t, Finish(s, at, usage, complete));
  }

  lemma NextKeeps(sys: System, step: Step, rates: Option<RateCard>)
    ensures Keeps(sys.task, Next(sys, step, rates).task)
  {
    if Enabled(sys, step) {
      match step {
        case Arrive(rid, at) =>
          var t := Begin(sys.task, at, None);
          BeginKeeps(sys.task, at);
          AskKeeps(t, at, rates);
          KeepsTransitive(sys.task, t, Ask(t, at, rates).0);
        case Tunnel(rid, at) => BeginKeeps(sys.task, at);
        case Stop(rid) =>
        case Dismiss(rid) => FinishKeeps(sys.task, sys.flights[rid].at, ZERO_USAGE, true);
        case Complete(rid, usage, complete) => FinishKeeps(sys.task, sys.flights[rid].at, usage, complete);
        case Abandon(rid) =>
      }
    }
  }

  lemma NextWellKept(sys: System, step: Step, rates: Option<RateCard>)
    requires Sound(sys) && Enabled(sys, step)
    ensures WellKept(Next(sys, step, rates).task)
  {
    match step {
      case Arrive(rid, at) =>
        BeginWellKept(sys.task, at, None);
        if rates.Some? {
          AdmitAtWellKept(Begin(sys.task, at, None), at, rates.value);
        }
      case Tunnel(rid, at) => BeginWellKept(sys.task, at, None);
      case Stop(rid) =>
      case Dismiss(rid) => FinishWellKept(sys.task, sys.flights[rid].at, ZERO_USAGE, true);
      case Complete(rid, usage, complete) => FinishWellKept(sys.task, sys.flights[rid].at, usage, complete);
      case Abandon(rid) =>
    }
  }

  lemma EnteredNode(sys: System, step: Step, rates: Option<RateCard>)
    requires Enabled(sys, step) && (step.Arrive? || step.Tunnel?)
    ensures step.at.node in Next(sys, step, rates).task.nodes
  {
    var t := Begin(sys.task, step.at, None);
    assert step.at.node in t.nodes;
    AskKeeps(t, step.at, rates);
  }

  /** A flight after a step was there before it, at the same place, or has just entered. */
  lemma FlightOrigin(sys: System, step: Step, rates: Option<RateCard>, rid: nat)
    requires rid in Next(sys, step, rates).flights
    ensures var at := Next(sys, step, rates).flights[rid].at;
            (rid in sys.flights && sys.flights[rid].at == at)
            || ((step.Arrive? || step.Tunnel?) && Enabled(sys, step) && step.at == at)
  {}

  lemma NextSound(sys: System, step: Step, rates: Option<RateCard>)
    requires Sound(sys)
    ensures Sound(Next(sys, step, rates))
  {
    if Enabled(sys, step) {
      var after := Next(sys, step, rates);
      NextWellKept(sys, step, rates);
      NextKeeps(sys, step, rates);
      forall rid | rid in after.flights
        ensures after.flights[rid].at.root == after.task.root && after.flights[rid].at.node in after.task.nodes
      {
        FlightOrigin(sys, step, rates, rid);
        if rid !in sys.flights {
          EnteredNode(sys, step, rates);
        }
      }
    }
  }

  lemma {:induction false} ExecSound(sys: System, steps: seq<Step>, rates: Option<RateCard>)
    requires Sound(sys)
    ensures Sound(Exec(sys, steps, rates))
  {
    if steps != [] {
      ExecSound(sys, steps[..|steps| - 1], rates);
      NextSound(Exec(sys, steps[..|steps| - 1], rates), steps[|steps| - 1], rates);
    }
  }

  lemma StartSound(root: Id, ceiling: Option<nat>, share: Option<Share>)
    ensures Sound(Start(root, ceiling, share))
  {
    NewTaskWellKept(root, ceiling, share);
  }

  /** Over every run, from any system: parents and depths are fixed at creation, minted vouchers never
      change, seals are never undone, and the first-seen order only grows. */
  lemma {:induction false} RunKeeps(sys: System, steps: seq<Step>, rates: Option<RateCard>)
    ensures Keeps(sys.task, Exec(sys, steps, rates).task)
  {
    if steps != [] {
      RunKeeps(sys, steps[..|steps| - 1], rates);
      NextKeeps(Exec(sys, steps[..|steps| - 1], rates), steps[|steps| - 1], rates);
    }
  }

  // ----- spending -----

  /** A change that leaves every usage alone, except that new nodes start at zero, spends nothing. */
  lemma SpentUnchanged(s: TaskState, t: TaskState, r: RateCard)
    requires s.nodes.Keys <= t.nodes.Keys
    requires forall x :: x in t.nodes ==> t.nodes[x].usage == UsageAt(Usages(s), x)
    ensures Spent(t, r) == Spent(s, r)
    ensures TotalUsage(t) == TotalUsage(s)
  {
    MicrosZero(r);
    SetSumSupport(s.nodes.Keys, t.nodes.Keys, Costs(t, r));
    SetSumAgree(s.nodes.Keys, Costs(t, r), Costs(s, r));
    UsageSumSupport(s.nodes.Keys, t.nodes.Keys, Usages(t));
    UsageSumAgree(s.nodes.Keys, Usages(t), Usages(s));
  }

  lemma BeginSpendsNothing(s: TaskState, at: NodeRef, r: RateCard)
    ensures Spent(Begin(s, at, None), r) == Spent(s, r)
  {
    SpentUnchanged(s, Begin(s, at, None), r);
  }

  lemma AskSpendsNothing(s: TaskState, at: NodeRef, rates: Option<RateCard>, r: RateCard)
    ensures Spent(Ask(s, at, rates).0, r) == Spent(s, r)
  {
    SpentUnchanged(s, Ask(s, at, rates).0, r);
  }

  /** Finishing at a known node adds the price of what was used, and at most one more micro-dollar. */
  lemma {:induction false} FinishSpends(s: TaskState, at: NodeRef, usage: Usage, complete: bool, r: RateCard)
    requires at.node in s.nodes
    ensures Spent(s, r) + Micros(usage, r) <= Spent(Finish(s, at, usage, complete), r)
    ensures Spent(Finish(s, at, usage, complete), r) <= Spent(s, r) + Micros(usage, r) + 1
    ensures usage == ZERO_USAGE ==> Spent(Finish(s, at, usage, complete), r) == Spent(s, r)
  {
    var t := Finish(s, at, usage, complete);
    var before := s.nodes[at.node].usage;
    assert t.nodes.Keys == s.nodes.Keys;
    assert Weight(Costs(s, r), at.node) == Micros(before, r);
    assert Weight(Costs(t, r), at.node) == Micros(Merge(before, usage), r);
    SetSumChange(s.nodes.Keys, Costs(s, r), Costs(t, r), at.node);
    MicrosMerge(before, usage, r);
    MergeZero(before);
  }
}
