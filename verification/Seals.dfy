/** The seal protocol: how often a request can be let through as the last one, and what follows. */
module Seals {
  import opened Foundations
  import opened Pricing
  import opened TaskModel
  import opened Ancestry
  import opened ProxyRun

  ghost function SealedNodes(s: TaskState): set<Id> {
    set x | x in s.nodes && s.nodes[x].sealed
  }

  ghost function SealCount(s: TaskState): nat {
    |SealedNodes(s)| + if s.sealed then 1 else 0
  }

  function LastCount(answers: seq<Answer>): nat {
    if answers == [] then 0
    else LastCount(answers[..|answers| - 1]) + if answers[|answers| - 1].admission.Last? then 1 else 0
  }

  /** Without a ceiling there is nothing to mint vouchers from. */
  ghost predicate VouchersFunded(s: TaskState) {
    s.ceiling.None? ==> forall x :: x in s.nodes ==> AllowanceOf(s, x) == 0
  }

  /** Only a priced task with a ceiling ever seals anything, and never its root node. */
  ghost predicate SealsExplained(s: TaskState, rates: Option<RateCard>) {
    && VouchersFunded(s)
    && s.root !in SealedNodes(s)
    && (s.sealed || SealedNodes(s) != {} ==> s.ceiling.Some? && rates.Some?)
  }

  /** At the root node the subtree check adds nothing: admission there is admission of the task. */
  lemma RootAdmission(s: TaskState, at: NodeRef, r: RateCard)
    requires WellKept(s) && at.node == s.root && !s.nodes[s.root].sealed
    ensures AdmitAt(s, at, r) == Admit(s, r)
  {
    SubtreeAtMostSpent(s, s.root, r);
  }

  lemma BeginSealsNothing(s: TaskState, at: NodeRef)
    requires WellKept(s)
    ensures SealedNodes(Begin(s, at, None)) == SealedNodes(s)
    ensures Begin(s, at, None).sealed == s.sealed && Begin(s, at, None).ceiling == s.ceiling
    ensures Begin(s, at, None).root == s.root
  {}

  lemma BeginFunded(s: TaskState, at: NodeRef)
    requires VouchersFunded(s)
    ensures VouchersFunded(Begin(s, at, None))
  {
    var t := EnsureNode(s, at.node, at.parent, None);
    assert VouchersFunded(t);
    if s.ceiling.None? {
      var parent := if at.parent.Some? then at.parent.value else s.root;
      assert AllowanceOf(t, parent) == 0;
    }
  }

  ghost function SealNode(s: TaskState, x: Id): TaskState
    requires x in s.nodes
  {
    s.(nodes := s.nodes[x := s.nodes[x].(sealed := true)])
  }

  /** The three ways an answer can go. */
  lemma AskCases(s: TaskState, at: NodeRef, rates: Option<RateCard>)
    requires WellKept(s) && SealsExplained(s, rates)
    ensures var (t, answer) := Ask(s, at, rates);
            || (t == s && !answer.Last?)
            || (t == s.(sealed := true) && answer.Last? && !s.sealed && s.ceiling.Some? && rates.Some?)
            || (at.node in s.nodes && at.node != s.root && !s.nodes[at.node].sealed && t == SealNode(s, at.node)
                && answer.Last? && s.ceiling.Some? && rates.Some?)
  {
    if rates.Some? && at.node == s.root {
      RootAdmission(s, at, rates.value);
    }
  }

  /** An answer of Last puts exactly one seal on, and no other answer changes any seal. */
  lemma AskSeals(s: TaskState, at: NodeRef, rates: Option<RateCard>)
    requires WellKept(s) && SealsExplained(s, rates)
    ensures var (t, answer) := Ask(s, at, rates);
            && SealsExplained(t, rates)
            && SealCount(t) == SealCount(s) + if answer.Last? then 1 else 0
  {
    var (t, answer) := Ask(s, at, rates);
    AskCases(s, at, rates);
    SealCounts(s, at.node);
  }

  lemma SealCounts(s: TaskState, x: Id)
    ensures SealedNodes(s.(sealed := true)) == SealedNodes(s)
    ensures x in s.nodes ==> SealedNodes(SealNode(s, x)) == SealedNodes(s) + {x}
    ensures x in s.nodes && !s.nodes[x].sealed ==> |SealedNodes(s) + {x}| == |SealedNodes(s)| + 1
  {}

  /** Sealed once, a task answers nothing but Deny. */
  lemma SealedTaskDenies(s: TaskState, at: NodeRef, rates: Option<RateCard>)
    requires SealsExplained(s, rates) && s.sealed
    ensures Ask(s, at, rates).1 == Deny(Spent(s, rates.value), s.ceiling.value)
  {}

  /** A sealed node is never answered Allow: it is denied, or it receives the task's own Last. */
  lemma SealedNodeNotAllowed(s: TaskState, at: NodeRef, rates: Option<RateCard>)
    requires SealsExplained(s, rates) && at.node in SealedNodes(s)
    ensures var (t, answer) := Ask(s, at, rates);
            answer.Deny? || (answer.Last? && !s.sealed && t.sealed)
  {}

  lemma CloseSealsNothing(s: TaskState, at: NodeRef, usage: Usage, complete: bool)
    requires WellKept(s) && at.node in s.nodes
    ensures var t := Finish(s, at, usage, complete);
            && SealedNodes(t) == SealedNodes(s) && t.sealed == s.sealed && t.root == s.root
            && t.ceiling == s.ceiling && (VouchersFunded(s) ==> VouchersFunded(t))
  {}

  ghost predicate SealsCounted(sys: System, rates: Option<RateCard>) {
    Sound(sys) && SealsExplained(sys.task, rates) && LastCount(sys.answers) == SealCount(sys.task)
  }

  lemma NextSealsCounted(sys: System, step: Step, rates: Option<RateCard>)
    requires SealsCounted(sys, rates)
    ensures SealsCounted(Next(sys, step, rates), rates)
  {
    NextSound(sys, step, rates);
    if Enabled(sys, step) {
      match step {
        case Arrive(rid, at) => ArriveSealsCounted(sys, step, rates);
        case Tunnel(rid, at) =>
          BeginSealsNothing(sys.task, at);
          BeginFunded(sys.task, at);
        case Stop(rid) => StopSealsNothing(sys.task);
        case Dismiss(rid) => CloseSealsNothing(sys.task, sys.flights[rid].at, ZERO_USAGE, true);
        case Complete(rid, usage, complete) =>
          CloseSealsNothing(sys.task, sys.flights[rid].at, usage, complete);
        case Abandon(rid) =>
      }
      assert !step.Arrive? ==> LastCount(Next(sys, step, rates).answers) == LastCount(sys.answers);
    }
  }

  lemma StopSealsNothing(s: TaskState)
    ensures var t := TakeStop(s).0;
            && SealedNodes(t) == SealedNodes(s) && t.sealed == s.sealed && t.root == s.root
            && t.ceiling == s.ceiling && (VouchersFunded(s) ==> VouchersFunded(t))
  {
    assert forall x :: AllowanceOf(TakeStop(s).0, x) == AllowanceOf(s, x);
  }

  lemma ArriveSealsCounted(sys: System, step: Step, rates: Option<RateCard>)
    requires SealsCounted(sys, rates) && step.Arrive? && Enabled(sys, step)
    ensures var after := Next(sys, step, rates);
            SealsExplained(after.task, rates) && LastCount(after.answers) == SealCount(after.task)
  {
    var s := Begin(sys.task, step.at, None);
    BeginSealsNothing(sys.task, step.at);
    BeginFunded(sys.task, step.at);
    BeginWellKept(sys.task, step.at, None);
    AskSeals(s, step.at, rates);
    var after := Next(sys, step, rates);
    assert after.answers[..|after.answers| - 1] == sys.answers;
  }

  lemma {:induction false} ExecSealsCounted(sys: System, steps: seq<Step>, rates: Option<RateCard>)
    requires SealsCounted(sys, rates)
    ensures SealsCounted(Exec(sys, steps, rates), rates)
  {
    if steps != [] {
      ExecSealsCounted(sys, steps[..|steps| - 1], rates);
      NextSealsCounted(Exec(sys, steps[..|steps| - 1], rates), steps[|steps| - 1], rates);
    }
  }

  lemma StartSealsCounted(root: Id, ceiling: Option<nat>, share: Option<Share>, rates: Option<RateCard>)
    ensures SealsCounted(Start(root, ceiling, share), rates)
  {
    StartSound(root, ceiling, share);
    assert SealedNodes(NewTask(root, ceiling, share)) == {};
  }

  /** Over every run, the answers of Last are exactly the seals put on: one for the task and one for
      each sealed node. The root node is never among them, so there is at most one Last per node. */
  lemma {:induction false} LastAnswersAreSeals(root: Id, ceiling: Option<nat>, share: Option<Share>, steps: seq<Step>,
                            rates: Option<RateCard>)
    ensures var sys := Exec(Start(root, ceiling, share), steps, rates);
            && LastCount(sys.answers) == SealCount(sys.task)
            && SealedNodes(sys.task) <= sys.task.nodes.Keys - {root}
            && LastCount(sys.answers) <= 1 + (|sys.task.nodes| - 1)
  {
    var start := Start(root, ceiling, share);
    var sys := Exec(start, steps, rates);
    StartSealsCounted(root, ceiling, share, rates);
    ExecSealsCounted(start, steps, rates);
    RunKeeps(start, steps, rates);
    var others := sys.task.nodes.Keys - {root};
    assert SealedNodes(sys.task) <= others;
    SubsetSize(SealedNodes(sys.task), others);
    assert root in sys.task.nodes.Keys;
    assert |others| == |sys.task.nodes.Keys| - 1;
  }

  lemma {:induction false} SubsetSize<T>(a: set<T>, b: set<T>)
    requires a <= b
    ensures |a| <= |b|
  {
    assert b == a + (b - a);
  }

  /** What a request may be told once `sealedNodes` (and, if `task`, the whole task) have been sealed. */
  ghost predicate Respects(answer: Answer, task: bool, sealedNodes: set<Id>) {
    && (task ==> answer.admission.Deny?)
    && (answer.node in sealedNodes ==> !answer.admission.Allow?)
  }

  lemma NextRespects(sys: System, step: Step, rates: Option<RateCard>)
    requires SealsCounted(sys, rates)
    ensures var after := Next(sys, step, rates);
            && sys.answers <= after.answers
            && forall i :: |sys.answers| <= i < |after.answers| ==>
                 Respects(after.answers[i], sys.task.sealed, SealedNodes(sys.task))
  {
    if step.Arrive? && Enabled(sys, step) {
      var s := Begin(sys.task, step.at, None);
      BeginSealsNothing(sys.task, step.at);
      if s.sealed {
        SealedTaskDenies(s, step.at, rates);
      }
      if step.at.node in SealedNodes(s) {
        SealedNodeNotAllowed(s, step.at, rates);
      }
    }
  }

  lemma KeepsSeals(s: TaskState, t: TaskState)
    requires Keeps(s, t)
    ensures s.sealed ==> t.sealed
    ensures SealedNodes(s) <= SealedNodes(t)
  {}

  /** Safety over whole runs: whatever is sealed at some moment of a run stays sealed, and from that
      moment on a sealed task is only ever answered Deny and a sealed node never Allow. */
  lemma {:induction false} SealsBindForever(sys: System, later: seq<Step>, rates: Option<RateCard>)
    requires SealsCounted(sys, rates)
    ensures var after := Exec(sys, later, rates);
            && (sys.task.sealed ==> after.task.sealed)
            && SealedNodes(sys.task) <= SealedNodes(after.task)
            && sys.answers <= after.answers
            && forall i :: |sys.answers| <= i < |after.answers| ==>
                 Respects(after.answers[i], sys.task.sealed, SealedNodes(sys.task))
  {
    if later != [] {
      var init := later[..|later| - 1];
      var mid := Exec(sys, init, rates);
      SealsBindForever(sys, init, rates);
      ExecSealsCounted(sys, init, rates);
      NextRespects(mid, later[|later| - 1], rates);
      NextKeeps(mid, later[|later| - 1], rates);
      KeepsSeals(mid.task, Exec(sys, later, rates).task);
    }
  }

  ghost predicate AllAllowed(answers: seq<Answer>) {
    forall i :: 0 <= i < |answers| ==> answers[i].admission == Allow
  }

  /** A task without a ceiling, or a proxy without rates, is never denied. */
  lemma {:induction false} UncappedNeverDenied(root: Id, share: Option<Share>, ceiling: Option<nat>,
                                               steps: seq<Step>, rates: Option<RateCard>)
    requires ceiling.None? || rates.None?
    ensures AllAllowed(Exec(Start(root, ceiling, share), steps, rates).answers)
  {
    if steps != [] {
      var start, init, step := Start(root, ceiling, share), steps[..|steps| - 1], steps[|steps| - 1];
      var sys := Exec(start, init, rates);
      UncappedNeverDenied(root, share, ceiling, init, rates);
      StartSealsCounted(root, ceiling, share, rates);
      ExecSealsCounted(start, init, rates);
      RunKeeps(start, init, rates);
      if step.Arrive? && Enabled(sys, step) {
        BeginFunded(sys.task, step.at);
        BeginSealsNothing(sys.task, step.at);
        UncappedAllowed(Begin(sys.task, step.at, None), step.at, rates);
        assert Next(sys, step, rates).answers == sys.answers + [Answer(step.at.node, Allow)];
      }
    }
  }

  lemma UncappedAllowed(s: TaskState, at: NodeRef, rates: Option<RateCard>)
    requires VouchersFunded(s) && (s.ceiling.None? || rates.None?)
    ensures Ask(s, at, rates).1 == Allow
  {
    assert s.ceiling.None? && at.node in s.nodes ==> AllowanceOf(s, at.node) == 0;
  }

  // ----- stopping -----

  /** The first stop of a task is the synthetic end of turn; every later one is the hard status. */
  ghost predicate StopsLayered(sys: System) {
    && (sys.task.syntheticSent <==> sys.stops != [])
    && forall i :: 0 <= i < |sys.stops| ==> (sys.stops[i] == SyntheticEndTurn <==> i == 0)
  }

  lemma {:induction false} RunStopsLayered(root: Id, ceiling: Option<nat>, share: Option<Share>,
                                           steps: seq<Step>, rates: Option<RateCard>)
    ensures StopsLayered(Exec(Start(root, ceiling, share), steps, rates))
  {
    if steps != [] {
      RunStopsLayered(root, ceiling, share, steps[..|steps| - 1], rates);
      NextStops(Exec(Start(root, ceiling, share), steps[..|steps| - 1], rates), steps[|steps| - 1], rates);
    }
  }

  lemma NextStops(sys: System, step: Step, rates: Option<RateCard>)
    ensures var after := Next(sys, step, rates);
            if step.Stop? && Enabled(sys, step)
            then after.task.syntheticSent && after.stops == sys.stops + [TakeStop(sys.task).1]
            else after.task.syntheticSent == sys.task.syntheticSent && after.stops == sys.stops
  {}
}
