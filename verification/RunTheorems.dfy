/** The results about single tasks, put together for whole runs of the proxy's arena. */
module RunTheorems {
  import opened Foundations
  import opened Pricing
  import opened TaskModel
  import opened Ancestry
  import opened ProxyRun
  import opened Seals
  import opened Overshoot
  import opened VoucherConservation
  import opened WalkModel
  import opened LedgerModel

  /** Budget enforcement in the shared arena: the overshoot of each task is bounded by its own requests alone,
      whatever the other tasks do in between. */
  lemma {:induction false} ArenaOvershoot(steps: seq<ArenaStep>, d: Defaults, root: Id, width: nat, most: nat)
    requires d.ceiling.Some? && d.rates.Some?
    requires CheapSteps(StepsOf(steps, root), most, d.rates.value)
    requires AtMostInFlight(Start(root, d.ceiling, d.share), StepsOf(steps, root), width, d.rates.value)
    ensures Spent(SystemOf(ArenaExec(steps, d), root, d).task, d.rates.value)
            <= Max(d.ceiling.value - 1, 0) + (width + 1) * (most + 1)
  {
    TasksAreIndependent(steps, d, root);
    OvershootBound(root, d.ceiling.value, d.share, StepsOf(steps, root), width, most, d.rates.value);
  }

  /** After every parent-first run the preorder lists each node of the task exactly once, and the depth it is
      listed with is its distance from the root, capped at 255. */
  lemma {:induction false} WalkAfterRun(root: Id, ceiling: Option<nat>, share: Option<Share>, steps: seq<Step>,
                                        rates: Option<RateCard>, x: Id)
    requires ParentFirstRun(Start(root, ceiling, share), steps, rates)
    ensures var s := Exec(Start(root, ceiling, share), steps, rates).task;
            && Shaped(s) && s.root == root && NoDuplicates(Preorder(s, root))
            && (x in Preorder(s, root) <==> x in s.nodes)
            && (x in s.nodes ==> s.nodes[x].depth == Min(Distance(s, x), 255))
  {
    var start := Start(root, ceiling, share);
    var s := Exec(start, steps, rates).task;
    ShapedAfterRun(root, ceiling, share, steps, rates);
    PreorderListsTask(s);
    if x in s.nodes {
      DepthIsDistance(s, x);
    }
  }

  lemma ShapedAfterRun(root: Id, ceiling: Option<nat>, share: Option<Share>, steps: seq<Step>, rates: Option<RateCard>)
    requires ParentFirstRun(Start(root, ceiling, share), steps, rates)
    ensures var s := Exec(Start(root, ceiling, share), steps, rates).task;
            Shaped(s) && s.root == root && root in s.nodes
  {
    var start := Start(root, ceiling, share);
    StartSound(root, ceiling, share);
    StartShaped(root, ceiling, share);
    ExecShaped(start, steps, rates);
    RunKeeps(start, steps, rates);
    assert root in start.task.nodes;
  }

  /** After every parent-first run the spend of a subtree is that of its top plus that of its children's
      subtrees, and at the root it is the spend of the task. */
  lemma {:induction false} SubtreeAfterRun(root: Id, ceiling: Option<nat>, share: Option<Share>, steps: seq<Step>,
                                           rates: Option<RateCard>, v: Id, r: RateCard)
    requires ParentFirstRun(Start(root, ceiling, share), steps, rates)
    ensures var s := Exec(Start(root, ceiling, share), steps, rates).task;
            && SubtreeSpent(s, root, r) == Spent(s, r)
            && (v in s.nodes ==> SubtreeSpent(s, v, r)
                                 == Micros(s.nodes[v].usage, r) + SetSum(ChildSet(s, v), SubtreeCosts(s, r)))
  {
    var s := Exec(Start(root, ceiling, share), steps, rates).task;
    ShapedAfterRun(root, ceiling, share, steps, rates);
    RootSubtreeIsTask(s, r);
    if v in s.nodes {
      SubtreeRecurrence(s, v, r);
    }
  }

  /** Over every run, parent-first or not, asking for admission at the root node is asking for the task. */
  lemma {:induction false} RootAdmissionAfterRun(root: Id, ceiling: Option<nat>, share: Option<Share>, steps: seq<Step>,
                              rates: Option<RateCard>, at: NodeRef, r: RateCard)
    requires at.node == root
    ensures var s := Exec(Start(root, ceiling, share), steps, rates).task;
            AdmitAt(s, at, r) == Admit(s, r)
  {
    var start := Start(root, ceiling, share);
    StartSealsCounted(root, ceiling, share, rates);
    ExecSealsCounted(start, steps, rates);
    RunKeeps(start, steps, rates);
    RootAdmission(Exec(start, steps, rates).task, at, r);
  }
}
