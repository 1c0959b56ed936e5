/** Parent-first runs: the shape of the tree they build, and what their vouchers add up to. */
module VoucherConservation {
  import opened Foundations
  import opened Pricing
  import opened TaskModel
  import opened Ancestry
  import opened ProxyRun

  /** A request's parent, if the request's node is new, is already in the task. */
  ghost predicate ParentKnown(s: TaskState, at: NodeRef) {
    at.node in s.nodes || (at.parent.Some? && at.parent.value in s.nodes)
  }

  ghost predicate StepParentKnown(sys: System, step: Step) {
    (step.Arrive? || step.Tunnel?) && Enabled(sys, step) ==> ParentKnown(sys.task, step.at)
  }

  /** Every request of the run names a parent that exists by the time it begins. */
  ghost predicate ParentFirstRun(sys: System, steps: seq<Step>, rates: Option<RateCard>) {
    steps != [] ==>
      && ParentFirstRun(sys, steps[..|steps| - 1], rates)
      && StepParentKnown(Exec(sys, steps[..|steps| - 1], rates), steps[|steps| - 1])
  }

  // ----- the shape -----

  /** The depth of a node is its parent's plus one, saturating. */
  ghost predicate DepthsTracked(s: TaskState) {
    forall x :: x in s.nodes ==> s.nodes[x].depth == if x == s.root then 0 else DepthUnder(s.nodes, s.nodes[x].parent)
  }

  ghost predicate Shaped(s: TaskState) {
    WellKept(s) && ParentFirst(s) && DepthsTracked(s)
  }

  /** Steps that add no node and keep parents and depths keep the shape. */
  lemma SameShape(s: TaskState, t: TaskState)
    requires Shaped(s) && WellKept(t) && Keeps(s, t) && t.nodes.Keys == s.nodes.Keys && t.order == s.order
    ensures Shaped(t)
  {
    forall i: nat | 0 < i < |t.order| ensures ParentBefore(t, i) {
      assert ParentBefore(s, i);
    }
    forall x | x in t.nodes && x != t.root
      ensures t.nodes[x].depth == DepthUnder(t.nodes, t.nodes[x].parent)
    {
      assert NodeKeeps(s.nodes[x], t.nodes[x]);
      ParentRank(s, x);
      assert NodeKeeps(s.nodes[s.nodes[x].parent.value], t.nodes[s.nodes[x].parent.value]);
    }
    assert NodeKeeps(s.nodes[s.root], t.nodes[s.root]);
  }

  lemma EnsureShaped(s: TaskState, at: NodeRef)
    requires Shaped(s) && at.node !in s.nodes && at.parent.Some? && at.parent.value in s.nodes
    ensures Shaped(EnsureNode(s, at.node, at.parent, None))
  {
    var t := EnsureNode(s, at.node, at.parent, None);
    EnsureWellKept(s, at.node, at.parent, None);
    forall i: nat | 0 < i < |t.order| ensures ParentBefore(t, i) {
      if i < |s.order| {
        assert ParentBefore(s, i);
        assert t.order[..i] == s.order[..i];
      } else {
        assert t.order[..i] == s.order;
      }
    }
    forall x | x in t.nodes && x != t.root
      ensures t.nodes[x].depth == DepthUnder(t.nodes, t.nodes[x].parent)
    {
      if x != at.node {
        ParentRank(s, x);
      }
    }
  }

  /** Minting and counting come after the node is there, and add no node. */
  lemma BeginAfterEnsure(s: TaskState, at: NodeRef)
    ensures var t := EnsureNode(s, at.node, at.parent, None);
            var u := Begin(s, at, None);
            Keeps(t, u) && u.nodes.Keys == t.nodes.Keys && u.order == t.order
  {
    var t := EnsureNode(s, at.node, at.parent, None);
    assert Keeps(t, MintVoucher(t, at)) && at.node in t.nodes;
  }

  lemma BeginShaped(s: TaskState, at: NodeRef)
    requires Shaped(s) && at.root == s.root && ParentKnown(s, at)
    ensures Shaped(Begin(s, at, None))
  {
    var t, u := EnsureNode(s, at.node, at.parent, None), Begin(s, at, None);
    assert Shaped(t) by {
      if at.node !in s.nodes {
        EnsureShaped(s, at);
      }
    }
    BeginWellKept(s, at, None);
    BeginAfterEnsure(s, at);
    SameShape(t, u);
  }

  lemma AskShaped(s: TaskState, at: NodeRef, rates: Option<RateCard>)
    requires Shaped(s)
    ensures Shaped(Ask(s, at, rates).0)
  {
    if rates.Some? {
      AdmitAtWellKept(s, at, rates.value);
    }
    AskKeeps(s, at, rates);
    SameShape(s, Ask(s, at, rates).0);
  }

  lemma FinishShaped(s: TaskState, at: NodeRef, usage: Usage, complete: bool)
    requires Shaped(s) && at.node in s.nodes
    ensures Shaped(Finish(s, at, usage, complete))
  {
    FinishWellKept(s, at, usage, complete);
    FinishKeeps(s, at, usage, complete);
    SameShape(s, Finish(s, at, usage, complete));
  }

  lemma NextShaped(sys: System, step: Step, rates: Option<RateCard>)
    requires Sound(sys) && Shaped(sys.task) && StepParentKnown(sys, step)
    ensures Shaped(Next(sys, step, rates).task)
  {
    if Enabled(sys, step) {
      match step {
        case Arrive(rid, at) =>
          BeginShaped(sys.task, at);
          AskShaped(Begin(sys.task, at, None), at, rates);
        case Tunnel(rid, at) => BeginShaped(sys.task, at);
        case Stop(rid) => SameShape(sys.task, TakeStop(sys.task).0);
        case Dismiss(rid) => FinishShaped(sys.task, sys.flights[rid].at, ZERO_USAGE, true);
        case Complete(rid, usage, complete) => FinishShaped(sys.task, sys.flights[rid].at, usage, complete);
        case Abandon(rid) =>
      }
    }
  }

  lemma StartShaped(root: Id, ceiling: Option<nat>, share: Option<Share>)
    ensures Shaped(NewTask(root, ceiling, share))
  {
    NewTaskWellKept(root, ceiling, share);
  }

  lemma {:induction false} ExecShaped(sys: System, steps: seq<Step>, rates: Option<RateCard>)
    requires Sound(sys) && Shaped(sys.task) && ParentFirstRun(sys, steps, rates)
    ensures Shaped(Exec(sys, steps, rates).task)
  {
    if steps != [] {
      var init := steps[..|steps| - 1];
      ExecShaped(sys, init, rates);
      ExecSound(sys, init, rates);
      NextShaped(Exec(sys, init, rates), steps[|steps| - 1], rates);
    }
  }

  /** The number of parent links from a node up to the root. */
  ghost function Distance(s: TaskState, x: Id): nat
    requires WellKept(s) && ParentFirst(s) && x in s.nodes
    decreases Rank(s.order, x)
  {
    if x == s.root then 0
    else
      ParentRank(s, x);
      1 + Distance(s, s.nodes[x].parent.value)
  }

  /** The stored depth is the distance from the root, capped at 255. */
  lemma {:induction false} DepthIsDistance(s: TaskState, x: Id)
    requires Shaped(s) && x in s.nodes
    ensures s.nodes[x].depth == Min(Distance(s, x), 255)
    decreases Rank(s.order, x)
  {
    if x != s.root {
      ParentRank(s, x);
      DepthIsDistance(s, s.nodes[x].parent.value);
    }
  }

  // ----- the vouchers -----

  /** The vouchers of a node's children fit in its own. */
  ghost predicate Fits(s: TaskState, v: Id) {
    SetSum(ChildSet(s, v), Vouchers(s)) <= AllowanceOf(s, v)
  }

  /** Every node but the root holds a voucher, and the vouchers of a node's children fit in its own. */
  ghost predicate Conserved(s: TaskState) {
    && (forall x :: x in s.nodes && x != s.root ==> s.nodes[x].allowance.Some?)
    && forall v {:trigger Fits(s, v)} :: v in s.nodes ==> Fits(s, v)
  }

  lemma StartConserved(root: Id, ceiling: Option<nat>, share: Option<Share>)
    ensures Conserved(NewTask(root, ceiling, share))
  {
    assert ChildSet(NewTask(root, ceiling, share), root) == {};
  }

  /** Steps that add no node and mint nothing keep what is conserved. */
  lemma SameVouchers(s: TaskState, t: TaskState)
    requires Conserved(s) && Keeps(s, t) && t.nodes.Keys == s.nodes.Keys
    requires forall x :: x in s.nodes ==> t.nodes[x].allowance == s.nodes[x].allowance
    ensures Conserved(t)
  {
    assert Vouchers(t) == Vouchers(s);
    forall v | v in t.nodes ensures Fits(t, v) {
      assert Fits(s, v);
      ChildSetKept(s, t, v);
    }
  }

  lemma ChildSetKept(s: TaskState, t: TaskState, v: Id)
    requires Keeps(s, t) && t.nodes.Keys == s.nodes.Keys
    ensures ChildSet(t, v) == ChildSet(s, v)
  {
    forall x | x in s.nodes ensures s.nodes[x].parent == t.nodes[x].parent {
      assert NodeKeeps(s.nodes[x], t.nodes[x]);
    }
  }

  /** A share is rounded down to a whole micro-dollar, and by less than one. */
  lemma {:induction false} AllotIsFloor(remaining: nat, share: Share)
    ensures share.den * Allot(remaining, share) <= share.num * remaining < share.den * (Allot(remaining, share) + 1)
  {
    FloorAround(remaining * share.num, share.den);
  }

  lemma FloorAround(x: nat, d: nat)
    requires 0 < d
    ensures d * (x / d) <= x < d * (x / d + 1)
  {}

  /** What a new node away from the root is minted, on every state: its share of what the node it names as its parent,
      or else the root, holds beyond the vouchers of that node's other children. */
  lemma {:induction false} MintedShare(s: TaskState, at: NodeRef, share: Share) returns (minted: nat)
    requires s.share == Some(share) && at.node != at.root && at.node !in s.nodes
    requires at.parent != Some(at.node) && (at.parent.None? ==> s.root != at.node)
    ensures Begin(s, at, None).nodes[at.node].allowance == Some(minted)
    ensures var giver := if at.parent.Some? then at.parent.value else s.root;
            var left := Max(0, AllowanceOf(s, giver) - SetSum(ChildSet(s, giver), Vouchers(s)));
            share.den * minted <= share.num * left < share.den * (minted + 1)
  {
    var giver := if at.parent.Some? then at.parent.value else s.root;
    var t := EnsureNode(s, at.node, at.parent, None);
    assert ChildSet(t, giver) - {at.node} == ChildSet(s, giver);
    assert Vouchers(t) == Vouchers(s);
    assert AllowanceOf(t, giver) == AllowanceOf(s, giver);
    var left := Max(0, AllowanceOf(s, giver) - SetSum(ChildSet(s, giver), Vouchers(s)));
    minted := Allot(left, share);
    AllotIsFloor(left, share);
  }

  /** A new child of `p` is minted no more than `p` has left. */
  lemma MintFits(s: TaskState, at: NodeRef) returns (allot: nat)
    requires Conserved(s) && s.share.Some? && at.node != at.root
    requires at.node !in s.nodes && at.parent.Some? && at.parent.value in s.nodes
    ensures allot + SetSum(ChildSet(s, at.parent.value), Vouchers(s)) <= AllowanceOf(s, at.parent.value)
    ensures var u := Begin(s, at, None);
            && u.ceiling == s.ceiling && u.root == s.root && u.nodes.Keys == s.nodes.Keys + {at.node}
            && u.nodes[at.node].allowance == Some(allot) && u.nodes[at.node].parent == at.parent
            && (forall y :: y in s.nodes ==> u.nodes[y] == s.nodes[y])
  {
    var x, p := at.node, at.parent.value;
    assert Fits(s, p);
    var t := EnsureNode(s, x, at.parent, None);
    assert ChildSet(t, p) - {x} == ChildSet(s, p) - {x} == ChildSet(s, p);
    assert Vouchers(t) == Vouchers(s);
    assert AllowanceOf(t, p) == AllowanceOf(s, p);
    allot := Allot(AllowanceOf(s, p) - SetSum(ChildSet(s, p), Vouchers(s)), s.share.value);
  }

  /** Adding a node whose voucher fits in what its parent has left conserves vouchers. */
  lemma AddConserves(s: TaskState, u: TaskState, x: Id, p: Id, allot: nat)
    requires Shaped(s) && Conserved(s) && x !in s.nodes && p in s.nodes
    requires u.ceiling == s.ceiling && u.root == s.root && u.nodes.Keys == s.nodes.Keys + {x}
    requires u.nodes[x].allowance == Some(allot) && u.nodes[x].parent == Some(p)
    requires forall y :: y in s.nodes ==> u.nodes[y] == s.nodes[y]
    requires allot + SetSum(ChildSet(s, p), Vouchers(s)) <= AllowanceOf(s, p)
    ensures Conserved(u)
  {
    forall v | v in u.nodes ensures Fits(u, v) {
      AddFits(s, u, x, p, allot, v);
    }
  }

  lemma AddFits(s: TaskState, u: TaskState, x: Id, p: Id, allot: nat, v: Id)
    requires Shaped(s) && Conserved(s) && x !in s.nodes && p in s.nodes && v in u.nodes
    requires u.ceiling == s.ceiling && u.root == s.root && u.nodes.Keys == s.nodes.Keys + {x}
    requires u.nodes[x].allowance == Some(allot) && u.nodes[x].parent == Some(p)
    requires forall y :: y in s.nodes ==> u.nodes[y] == s.nodes[y]
    requires allot + SetSum(ChildSet(s, p), Vouchers(s)) <= AllowanceOf(s, p)
    ensures Fits(u, v)
  {
    MintedChildren(s, u, x, p, v);
    if v != x {
      assert Fits(s, v);
      assert AllowanceOf(u, v) == AllowanceOf(s, v);
      SetSumAgree(ChildSet(s, v), Vouchers(u), Vouchers(s));
      if v == p {
        SetSumAdd(ChildSet(s, p), Vouchers(u), x);
      }
    }
  }

  lemma MintedChildren(s: TaskState, u: TaskState, x: Id, p: Id, v: Id)
    requires Shaped(s) && x !in s.nodes && p in s.nodes
    requires u.nodes.Keys == s.nodes.Keys + {x} && u.nodes[x].parent == Some(p)
    requires forall y :: y in s.nodes ==> u.nodes[y] == s.nodes[y]
    ensures ChildSet(u, v) == if v == x then {} else if v == p then ChildSet(s, p) + {x} else ChildSet(s, v)
  {
    forall y | y in s.nodes ensures s.nodes[y].parent != Some(x) {
      if y != s.root {
        ParentRank(s, y);
      }
    }
  }

  lemma BeginConserved(s: TaskState, at: NodeRef)
    requires Shaped(s) && Conserved(s) && s.share.Some? && at.root == s.root && ParentKnown(s, at)
    ensures Conserved(Begin(s, at, None))
  {
    if at.node !in s.nodes {
      var allot := MintFits(s, at);
      AddConserves(s, Begin(s, at, None), at.node, at.parent.value, allot);
    } else {
      BeginKeeps(s, at);
      SameVouchers(s, Begin(s, at, None));
    }
  }

  lemma AskConserved(s: TaskState, at: NodeRef, rates: Option<RateCard>)
    requires Conserved(s)
    ensures Conserved(Ask(s, at, rates).0)
  {
    AskKeeps(s, at, rates);
    SameVouchers(s, Ask(s, at, rates).0);
  }

  lemma FinishConserved(s: TaskState, at: NodeRef, usage: Usage, complete: bool)
    requires Conserved(s) && at.node in s.nodes
    ensures Conserved(Finish(s, at, usage, complete))
  {
    FinishKeeps(s, at, usage, complete);
    SameVouchers(s, Finish(s, at, usage, complete));
  }

  lemma NextConserved(sys: System, step: Step, rates: Option<RateCard>)
    requires Sound(sys) && Shaped(sys.task) && Conserved(sys.task) && sys.task.share.Some?
    requires StepParentKnown(sys, step)
    ensures Conserved(Next(sys, step, rates).task)
  {
    if Enabled(sys, step) {
      match step {
        case Arrive(rid, at) =>
          BeginConserved(sys.task, at);
          AskConserved(Begin(sys.task, at, None), at, rates);
        case Tunnel(rid, at) => BeginConserved(sys.task, at);
        case Stop(rid) => SameVouchers(sys.task, TakeStop(sys.task).0);
        case Dismiss(rid) => FinishConserved(sys.task, sys.flights[rid].at, ZERO_USAGE, true);
        case Complete(rid, usage, complete) => FinishConserved(sys.task, sys.flights[rid].at, usage, complete);
        case Abandon(rid) =>
      }
    }
  }

  lemma {:induction false} ExecConserved(sys: System, steps: seq<Step>, rates: Option<RateCard>)
    requires Sound(sys) && Shaped(sys.task) && Conserved(sys.task) && sys.task.share.Some?
    requires ParentFirstRun(sys, steps, rates)
    ensures Conserved(Exec(sys, steps, rates).task)
  {
    if steps != [] {
      var init := steps[..|steps| - 1];
      ExecConserved(sys, init, rates);
      ExecShaped(sys, init, rates);
      ExecSound(sys, init, rates);
      RunKeeps(sys, init, rates);
      NextConserved(Exec(sys, init, rates), steps[|steps| - 1], rates);
    }
  }

  // ----- antichains -----

  lemma {:induction false} ApartSum(s: TaskState, v: Id, A: set<Id>)
    requires Shaped(s) && Conserved(s) && v in s.nodes
    requires A <= Family(s, v) && AllApart(s, A)
    ensures SetSum(A, Vouchers(s)) <= AllowanceOf(s, v)
    decreases |s.order| - Rank(s.order, v), 1, 0
  {
    if v in A {
      forall x | x in A ensures x == v {
        assert x in Family(s, v);
      }
      assert A == {v};
      SetSumRemove(A, Vouchers(s), v);
      assert A - {v} == {};
    } else {
      FamilySplits(s, v);
      assert Fits(s, v);
      ApartSumChildren(s, v, ChildSet(s, v), A);
    }
  }

  lemma {:induction false} ApartSumChildren(s: TaskState, v: Id, kids: set<Id>, A: set<Id>)
    requires Shaped(s) && Conserved(s) && v in s.nodes
    requires kids <= ChildSet(s, v) && A <= Families(s, kids) && AllApart(s, A)
    ensures SetSum(A, Vouchers(s)) <= SetSum(kids, Vouchers(s))
    decreases |s.order| - Rank(s.order, v), 0, |kids|
  {
    if kids == {} {
      assert A == {};
    } else {
      var c :| c in kids;
      var here := A * Family(s, c);
      assert SetSum(here, Vouchers(s)) <= Weight(Vouchers(s), c) by {
        ChildBelow(s, v, c);
        ApartSum(s, c, here);
        ChildHolds(s, v, c);
      }
      assert SetSum(A - here, Vouchers(s)) <= SetSum(kids - {c}, Vouchers(s)) by {
        RestOfFamilies(s, kids, c, A);
        ApartSumChildren(s, v, kids - {c}, A - here);
      }
      assert here + (A - here) == A;
      SetSumUnion(here, A - here, Vouchers(s));
      SetSumRemove(kids, Vouchers(s), c);
    }
  }

  lemma RestOfFamilies(s: TaskState, tops: set<Id>, c: Id, A: set<Id>)
    requires A <= Families(s, tops)
    ensures A - (A * Family(s, c)) <= Families(s, tops - {c})
  {
    forall x | x in A && x !in Family(s, c) ensures x in Families(s, tops - {c}) {
      var d :| d in tops && Under(s, d, x);
      assert d in tops - {c};
    }
  }

  lemma ChildHolds(s: TaskState, v: Id, c: Id)
    requires Shaped(s) && Conserved(s) && c in ChildSet(s, v)
    ensures Weight(Vouchers(s), c) == AllowanceOf(s, c)
  {
    assert c != s.root;
  }

  /** Voucher conservation. In every parent-first run of a task with a voucher share, each node's children
      together hold no more than the node itself, and any nodes of which none is above another together
      hold no more than the ceiling. */
  lemma {:induction false} VouchersConserved(root: Id, ceiling: Option<nat>, share: Share, steps: seq<Step>,
                                             rates: Option<RateCard>, A: set<Id>)
    requires ParentFirstRun(Start(root, ceiling, Some(share)), steps, rates)
    ensures var s := Exec(Start(root, ceiling, Some(share)), steps, rates).task;
            && (forall v :: v in s.nodes ==> Fits(s, v))
            && (A <= s.nodes.Keys && AllApart(s, A) ==>
                  SetSum(A, Vouchers(s)) <= if ceiling.Some? then ceiling.value else 0)
  {
    var start := Start(root, ceiling, Some(share));
    var s := Exec(start, steps, rates).task;
    StartSound(root, ceiling, Some(share));
    StartShaped(root, ceiling, Some(share));
    StartConserved(root, ceiling, Some(share));
    ExecConserved(start, steps, rates);
    ExecShaped(start, steps, rates);
    RunKeeps(start, steps, rates);
    if A <= s.nodes.Keys && AllApart(s, A) {
      RootSubtreeIsTask(s, RateCard(0, 0, 0, 0, 0));
      ApartSum(s, root, A);
    }
  }
}
