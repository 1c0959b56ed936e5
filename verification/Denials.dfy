/** A request is only ever denied against a budget that has really been used up. */
module Denials {
  import opened Foundations
  import opened Pricing
  import opened TaskModel
  import opened ProxyRun
  import opened Seals

  lemma {:induction false} SetSumMonotone(S: set<Id>, w: map<Id, nat>, v: map<Id, nat>)
    requires forall k :: k in S ==> Weight(w, k) <= Weight(v, k)
    ensures SetSum(S, w) <= SetSum(S, v)
    decreases |S|
  {
    if S != {} {
      var k :| k in S;
      SetSumRemove(S, w, k);
      SetSumRemove(S, v, k);
      SetSumMonotone(S - {k}, w, v);
    }
  }

  /** No node has become cheaper. */
  ghost predicate CostsGrow(s: TaskState, t: TaskState, r: RateCard) {
    forall x :: x in s.nodes ==> x in t.nodes && Micros(s.nodes[x].usage, r) <= Micros(t.nodes[x].usage, r)
  }

  lemma {:induction false} UpKept(s: TaskState, t: TaskState, x: Id, k: nat)
    requires Keeps(s, t) && Up(s, x, k).Some?
    ensures Up(t, x, k) == Up(s, x, k)
    decreases k
  {
    if k > 0 {
      assert NodeKeeps(s.nodes[x], t.nodes[x]);
      UpKept(s, t, s.nodes[x].parent.value, k - 1);
    }
  }

  lemma FamilyGrows(s: TaskState, t: TaskState, top: Id)
    requires Keeps(s, t)
    ensures Family(s, top) <= Family(t, top)
  {
    forall x | x in Family(s, top) ensures x in Family(t, top) {
      var k: nat :| Up(s, x, k) == Some(top);
      UpKept(s, t, x, k);
    }
  }

  /** Neither the spend of a task nor that of a subtree ever goes down. */
  lemma SpendGrows(s: TaskState, t: TaskState, top: Id, r: RateCard)
    requires Keeps(s, t) && CostsGrow(s, t, r)
    ensures Spent(s, r) <= Spent(t, r) && SubtreeSpent(s, top, r) <= SubtreeSpent(t, top, r)
  {
    var w, v := Costs(s, r), Costs(t, r);
    FamilyGrows(s, t, top);
    SetSumMonotone(s.nodes.Keys, w, v);
    SetSumSubset(s.nodes.Keys, t.nodes.Keys, v);
    SetSumMonotone(Family(s, top), w, v);
    SetSumSubset(Family(s, top), Family(t, top), v);
  }

  lemma FinishCostsGrow(s: TaskState, at: NodeRef, usage: Usage, complete: bool, r: RateCard)
    requires at.node in s.nodes
    ensures CostsGrow(s, Finish(s, at, usage, complete), r)
  {
    MicrosMerge(s.nodes[at.node].usage, usage, r);
  }

  lemma SameUsageCostsGrow(s: TaskState, t: TaskState, r: RateCard)
    requires forall x :: x in s.nodes ==> x in t.nodes && t.nodes[x].usage == s.nodes[x].usage
    ensures CostsGrow(s, t, r)
  {}

  /** The budget at a node, if sealed, has been used up by the subtree below it. */
  ghost predicate UsedUpAt(s: TaskState, x: Id, r: RateCard) {
    x in s.nodes && s.nodes[x].sealed ==> s.nodes[x].allowance.Some? && SubtreeSpent(s, x, r) >= AllowanceOf(s, x)
  }

  /** Every seal in place was earned. */
  ghost predicate SealsEarned(s: TaskState, r: RateCard) {
    && (s.sealed ==> s.ceiling.Some? && Spent(s, r) >= s.ceiling.value)
    && forall x {:trigger UsedUpAt(s, x, r)} :: UsedUpAt(s, x, r)
  }

  /** Steps that put no seal on keep all seals earned. */
  lemma EarnedKept(s: TaskState, t: TaskState, r: RateCard)
    requires SealsEarned(s, r) && Keeps(s, t) && CostsGrow(s, t, r)
    requires t.sealed == s.sealed && forall x :: x in t.nodes && t.nodes[x].sealed ==> x in s.nodes && s.nodes[x].sealed
    ensures SealsEarned(t, r)
  {
    SpendGrows(s, t, s.root, r);
    forall x ensures UsedUpAt(t, x, r) {
      if x in t.nodes && t.nodes[x].sealed {
        assert UsedUpAt(s, x, r);
        assert NodeKeeps(s.nodes[x], t.nodes[x]);
        SpendGrows(s, t, x, r);
      }
    }
  }

  lemma BeginEarned(s: TaskState, at: NodeRef, r: RateCard)
    requires WellKept(s) && SealsEarned(s, r)
    ensures SealsEarned(Begin(s, at, None), r)
  {
    var t := Begin(s, at, None);
    BeginKeeps(s, at);
    BeginSealsNothing(s, at);
    assert forall x :: x in t.nodes && t.nodes[x].sealed ==> x in SealedNodes(t);
    SameUsageCostsGrow(s, t, r);
    EarnedKept(s, t, r);
  }

  lemma FinishEarned(s: TaskState, at: NodeRef, usage: Usage, complete: bool, r: RateCard)
    requires WellKept(s) && SealsEarned(s, r) && at.node in s.nodes
    ensures SealsEarned(Finish(s, at, usage, complete), r)
  {
    var t := Finish(s, at, usage, complete);
    FinishKeeps(s, at, usage, complete);
    FinishCostsGrow(s, at, usage, complete, r);
    EarnedKept(s, t, r);
  }

  lemma {:induction false} UpSame(s: TaskState, t: TaskState, x: Id, k: nat)
    requires t.nodes.Keys == s.nodes.Keys && forall y :: y in s.nodes ==> t.nodes[y].parent == s.nodes[y].parent
    ensures Up(t, x, k) == Up(s, x, k)
    decreases k
  {
    if k > 0 && x in s.nodes && s.nodes[x].parent.Some? {
      UpSame(s, t, s.nodes[x].parent.value, k - 1);
    }
  }

  /** An answer: what it seals is used up, and a denial names a spend that has reached its cap. */
  lemma AskEarned(s: TaskState, at: NodeRef, r: RateCard)
    requires WellKept(s) && SealsEarned(s, r) && SealsExplained(s, Some(r))
    ensures var (t, answer) := Ask(s, at, Some(r));
            SealsEarned(t, r) && (answer.Deny? ==> answer.spent >= answer.ceiling)
  {
    var (t, answer) := Ask(s, at, Some(r));
    assert UsedUpAt(s, at.node, r);
    AskCases(s, at, Some(r));
    if t != s {
      SealEarned(s, t, at, r);
    }
  }

  lemma SealEarned(s: TaskState, t: TaskState, at: NodeRef, r: RateCard)
    requires WellKept(s) && SealsEarned(s, r) && t != s && t == Ask(s, at, Some(r)).0
    requires t == s.(sealed := true) || (at.node in s.nodes && !s.nodes[at.node].sealed && t == SealNode(s, at.node))
    ensures SealsEarned(t, r)
  {
    assert Usages(t) == Usages(s);
    forall x ensures UsedUpAt(t, x, r) {
      assert UsedUpAt(s, x, r);
      SameFamily(s, t, x);
    }
  }

  lemma SameFamily(s: TaskState, t: TaskState, top: Id)
    requires t.nodes.Keys == s.nodes.Keys && forall y :: y in s.nodes ==> t.nodes[y].parent == s.nodes[y].parent
    ensures Family(t, top) == Family(s, top)
  {
    forall x ensures x in Family(t, top) <==> x in Family(s, top) {
      if x in Family(s, top) {
        var k: nat :| Up(s, x, k) == Some(top);
        UpSame(s, t, x, k);
      }
      if x in Family(t, top) {
        var k: nat :| Up(t, x, k) == Some(top);
        UpSame(s, t, x, k);
      }
    }
  }

  ghost predicate DenialsEarned(answers: seq<Answer>) {
    forall i :: 0 <= i < |answers| && answers[i].admission.Deny? ==>
      answers[i].admission.spent >= answers[i].admission.ceiling
  }

  lemma NextEarned(sys: System, step: Step, r: RateCard)
    requires SealsCounted(sys, Some(r)) && SealsEarned(sys.task, r) && DenialsEarned(sys.answers)
    ensures SealsEarned(Next(sys, step, Some(r)).task, r) && DenialsEarned(Next(sys, step, Some(r)).answers)
  {
    if Enabled(sys, step) {
      match step {
        case Arrive(rid, at) =>
          var s := Begin(sys.task, at, None);
          BeginEarned(sys.task, at, r);
          BeginWellKept(sys.task, at, None);
          BeginSealsNothing(sys.task, at);
          BeginFunded(sys.task, at);
          AskEarned(s, at, r);
        case Tunnel(rid, at) => BeginEarned(sys.task, at, r);
        case Stop(rid) =>
          SameUsageCostsGrow(sys.task, TakeStop(sys.task).0, r);
          EarnedKept(sys.task, TakeStop(sys.task).0, r);
        case Dismiss(rid) => FinishEarned(sys.task, sys.flights[rid].at, ZERO_USAGE, true, r);
        case Complete(rid, usage, complete) => FinishEarned(sys.task, sys.flights[rid].at, usage, complete, r);
        case Abandon(rid) =>
      }
    }
  }

  /** Over every run, on every parent map: a sealed task has spent its ceiling, the subtree below a sealed node
      has spent the node's voucher, and every denial names a spend that has reached the cap it names. */
  lemma {:induction false} DenialsAreEarned(root: Id, ceiling: Option<nat>, share: Option<Share>, steps: seq<Step>,
                                            r: RateCard)
    ensures var sys := Exec(Start(root, ceiling, share), steps, Some(r));
            SealsEarned(sys.task, r) && DenialsEarned(sys.answers)
  {
    if steps != [] {
      var start, init := Start(root, ceiling, share), steps[..|steps| - 1];
      DenialsAreEarned(root, ceiling, share, init, r);
      StartSealsCounted(root, ceiling, share, Some(r));
      ExecSealsCounted(start, init, Some(r));
      NextEarned(Exec(start, init, Some(r)), steps[|steps| - 1], r);
    }
  }
}
