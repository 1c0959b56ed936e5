/** Exactly when a request is allowed, let through as the last one, or denied; and that whoever has used up a budget
    is stopped. */
module Admissions {
  import opened Foundations
  import opened Pricing
  import opened TaskModel
  import opened Ancestry
  import opened ProxyRun
  import opened Seals
  import opened Denials

  /** The node holds a voucher, and the subtree below it has cost that much. */
  ghost predicate Exhausted(s: TaskState, x: Id, r: RateCard) {
    x in s.nodes && s.nodes[x].allowance.Some? && SubtreeSpent(s, x, r) >= s.nodes[x].allowance.value
  }

  ghost predicate NodeSealed(s: TaskState, x: Id) {
    x in s.nodes && s.nodes[x].sealed
  }

  /** The three answers and what they change, on every state of a priced task with a ceiling: the task's own budget is
      looked at first, and whichever budget has just been found used up is sealed. */
  lemma {:induction false} AnswerExactly(s: TaskState, at: NodeRef, ceiling: nat, r: RateCard)
    requires s.ceiling == Some(ceiling)
    ensures var (t, answer) := Ask(s, at, Some(r));
            var spent, below := Spent(s, r), SubtreeSpent(s, at.node, r);
            && (answer == Allow <==>
                !s.sealed && spent < ceiling && !NodeSealed(s, at.node) && !Exhausted(s, at.node, r))
            && (answer == Last <==>
                !s.sealed && (spent >= ceiling || (!NodeSealed(s, at.node) && Exhausted(s, at.node, r))))
            && (answer.Deny? ==>
                  answer == if s.sealed then Deny(spent, ceiling) else Deny(below, AllowanceOf(s, at.node)))
            && (t.sealed <==> s.sealed || spent >= ceiling)
            && (NodeSealed(t, at.node) <==>
                NodeSealed(s, at.node) || (!s.sealed && spent < ceiling && Exhausted(s, at.node, r)))
            && t.nodes.Keys == s.nodes.Keys
            && forall x :: x in s.nodes && x != at.node ==> t.nodes[x] == s.nodes[x]
  {}

  /** Seals aside: in every state in which all seals were earned, as they are in every run, a request is allowed if and
      only if the task is below its ceiling and the node below its voucher. */
  lemma {:induction false} AllowedIffBelow(s: TaskState, at: NodeRef, ceiling: nat, r: RateCard)
    requires s.ceiling == Some(ceiling) && SealsEarned(s, r)
    ensures Ask(s, at, Some(r)).1 == Allow <==> Spent(s, r) < ceiling && !Exhausted(s, at.node, r)
  {
    AnswerExactly(s, at, ceiling, r);
    assert UsedUpAt(s, at.node, r);
  }

  lemma BegunEarned(root: Id, ceiling: nat, share: Option<Share>, steps: seq<Step>, at: NodeRef, r: RateCard)
    requires at.root == root
    ensures var s := Begin(Exec(Start(root, Some(ceiling), share), steps, Some(r)).task, at, None);
            s.ceiling == Some(ceiling) && SealsEarned(s, r) && WellKept(s)
  {
    var start := Start(root, Some(ceiling), share);
    DenialsAreEarned(root, Some(ceiling), share, steps, r);
    StartSound(root, Some(ceiling), share);
    ExecSound(start, steps, Some(r));
    RunKeeps(start, steps, Some(r));
    BeginEarned(Exec(start, steps, Some(r)).task, at, r);
    BeginKeeps(Exec(start, steps, Some(r)).task, at);
    BeginWellKept(Exec(start, steps, Some(r)).task, at, None);
  }

  /** Over every run, on every parent map: a request that arrives is answered Allow if and only if at that moment the
      task has spent less than its ceiling, and the subtree below the node less than the node's voucher. */
  lemma {:induction false} RunAllowsIffBelow(root: Id, ceiling: nat, share: Option<Share>, steps: seq<Step>, rid: nat,
                                             at: NodeRef, r: RateCard)
    requires Enabled(Exec(Start(root, Some(ceiling), share), steps, Some(r)), Arrive(rid, at)) && at.root == root
    ensures var sys := Exec(Start(root, Some(ceiling), share), steps, Some(r));
            var s := Begin(sys.task, at, None);
            var answers := Next(sys, Arrive(rid, at), Some(r)).answers;
            && answers[..|answers| - 1] == sys.answers && answers[|answers| - 1].node == at.node
            && (answers[|answers| - 1].admission == Allow <==> Spent(s, r) < ceiling && !Exhausted(s, at.node, r))
  {
    var sys := Exec(Start(root, Some(ceiling), share), steps, Some(r));
    BegunEarned(root, ceiling, share, steps, at, r);
    AllowedIffBelow(Begin(sys.task, at, None), at, ceiling, r);
  }

  // ----- a budget once used up -----

  lemma BeginCostsGrow(s: TaskState, at: NodeRef, r: RateCard)
    ensures CostsGrow(s, Begin(s, at, None), r)
  {
    BeginUsage(s, at);
    SameUsageCostsGrow(s, Begin(s, at, None), r);
  }

  lemma BeginUsage(s: TaskState, at: NodeRef)
    ensures var t := Begin(s, at, None);
            forall x :: x in s.nodes ==> x in t.nodes && t.nodes[x].usage == s.nodes[x].usage
  {}

  lemma AskCostsGrow(s: TaskState, at: NodeRef, rates: Option<RateCard>, r: RateCard)
    ensures CostsGrow(s, Ask(s, at, rates).0, r)
  {}

  lemma CostsGrowTransitive(s: TaskState, t: TaskState, u: TaskState, r: RateCard)
    requires CostsGrow(s, t, r) && CostsGrow(t, u, r)
    ensures CostsGrow(s, u, r)
  {}

  lemma NextCostsGrow(sys: System, step: Step, rates: Option<RateCard>, r: RateCard)
    requires Sound(sys)
    ensures CostsGrow(sys.task, Next(sys, step, rates).task, r)
  {
    if Enabled(sys, step) {
      match step {
        case Arrive(rid, at) =>
          var s := Begin(sys.task, at, None);
          BeginCostsGrow(sys.task, at, r);
          AskCostsGrow(s, at, rates, r);
          CostsGrowTransitive(sys.task, s, Ask(s, at, rates).0, r);
        case Tunnel(rid, at) => BeginCostsGrow(sys.task, at, r);
        case Stop(rid) => SameUsageCostsGrow(sys.task, TakeStop(sys.task).0, r);
        case Dismiss(rid) => FinishCostsGrow(sys.task, sys.flights[rid].at, ZERO_USAGE, true, r);
        case Complete(rid, usage, complete) => FinishCostsGrow(sys.task, sys.flights[rid].at, usage, complete, r);
        case Abandon(rid) => SameUsageCostsGrow(sys.task, sys.task, r);
      }
    }
  }

  lemma ExhaustedKept(s: TaskState, t: TaskState, x: Id, r: RateCard)
    requires Keeps(s, t) && CostsGrow(s, t, r) && Exhausted(s, x, r)
    ensures Exhausted(t, x, r)
  {
    assert NodeKeeps(s.nodes[x], t.nodes[x]);
    SpendGrows(s, t, x, r);
  }

  /** From the answers of `sys` on, no request at `x` is allowed. */
  ghost predicate NeverAllowedSince(answers: seq<Answer>, from: nat, x: Id) {
    forall i :: from <= i < |answers| && answers[i].node == x ==> !answers[i].admission.Allow?
  }

  lemma NextRefuses(sys: System, step: Step, x: Id, from: nat, r: RateCard)
    requires Sound(sys) && Exhausted(sys.task, x, r) && sys.task.ceiling.Some?
    requires from <= |sys.answers| && NeverAllowedSince(sys.answers, from, x)
    ensures sys.answers <= Next(sys, step, Some(r)).answers
    ensures NeverAllowedSince(Next(sys, step, Some(r)).answers, from, x)
  {
    if step.Arrive? && Enabled(sys, step) && step.at.node == x {
      var s := Begin(sys.task, step.at, None);
      BeginKeeps(sys.task, step.at);
      BeginCostsGrow(sys.task, step.at, r);
      ExhaustedKept(sys.task, s, x, r);
      AnswerExactly(s, step.at, s.ceiling.value, r);
    }
  }

  /** Whoever has used up a voucher is stopped: from the moment the subtree below a node has cost the node's voucher, no
      request at that node is allowed for the rest of any run. */
  lemma {:induction false} SpentVoucherStops(sys: System, later: seq<Step>, x: Id, r: RateCard)
    requires Sound(sys) && sys.task.ceiling.Some? && Exhausted(sys.task, x, r)
    ensures var after := Exec(sys, later, Some(r));
            && Exhausted(after.task, x, r)
            && sys.answers <= after.answers && NeverAllowedSince(after.answers, |sys.answers|, x)
  {
    if later != [] {
      var init, step := later[..|later| - 1], later[|later| - 1];
      var mid := Exec(sys, init, Some(r));
      SpentVoucherStops(sys, init, x, r);
      ExecSound(sys, init, Some(r));
      RunKeeps(sys, init, Some(r));
      NextRefuses(mid, step, x, |sys.answers|, r);
      NextKeeps(mid, step, Some(r));
      NextCostsGrow(mid, step, Some(r), r);
      ExhaustedKept(mid.task, Next(mid, step, Some(r)).task, x, r);
    }
  }

  /** And there are no two chances: a request at a node that has used up its voucher, in a task below its ceiling, seals
      the node if it is not sealed yet, and is denied if it is. */
  lemma {:induction false} LastThenDenied(s: TaskState, at: NodeRef, ceiling: nat, r: RateCard)
    requires s.ceiling == Some(ceiling) && !s.sealed && Spent(s, r) < ceiling && Exhausted(s, at.node, r)
    ensures var (t, first) := Ask(s, at, Some(r));
            var (u, second) := Ask(t, at, Some(r));
            && (NodeSealed(s, at.node) || first == Last)
            && u == t && second == Deny(SubtreeSpent(s, at.node, r), s.nodes[at.node].allowance.value)
  {
    var t := Ask(s, at, Some(r)).0;
    AnswerExactly(s, at, ceiling, r);
    assert t == s || t == SealNode(s, at.node);
    assert Usages(t) == Usages(s);
    SameFamily(s, t, at.node);
    SpentUnchanged(s, t, r);
  }
}
