/** Exactly when vouchers are conserved. A request may name a parent that is not in the task; nothing refuses it,
    and the new node is then minted from the ceiling as if it were the first. */
module VoucherExact {
  import opened Foundations
  import opened Pricing
  import opened TaskModel
  import opened Ancestry
  import opened ProxyRun
  import opened VoucherConservation

  /** No nodes of which none is above another hold more than the ceiling together. */
  ghost predicate WithinCeiling(s: TaskState, ceiling: nat) {
    forall A: set<Id> :: A <= s.nodes.Keys && AllApart(s, A) ==> SetSum(A, Vouchers(s)) <= ceiling
  }

  ghost predicate WithinAt(sys: System, steps: seq<Step>, k: nat, ceiling: nat, rates: Option<RateCard>) {
    k <= |steps| && WithinCeiling(Exec(sys, steps[..k], rates).task, ceiling)
  }

  /** Vouchers stay within the ceiling at every moment of the run. */
  ghost predicate WithinThroughout(sys: System, steps: seq<Step>, ceiling: nat, rates: Option<RateCard>) {
    forall k: nat {:trigger WithinAt(sys, steps, k, ceiling, rates)} ::
      k <= |steps| ==> WithinAt(sys, steps, k, ceiling, rates)
  }

  /** A request away from the root names a parent, as resolving a declared identity sees to. */
  ghost predicate NamesParent(step: Step) {
    step.Arrive? || step.Tunnel? ==> step.at.node == step.at.root || step.at.parent.Some?
  }

  lemma WithinPrefix(sys: System, steps: seq<Step>, n: nat, ceiling: nat, rates: Option<RateCard>)
    requires WithinThroughout(sys, steps, ceiling, rates) && n <= |steps|
    ensures WithinThroughout(sys, steps[..n], ceiling, rates)
    ensures WithinCeiling(Exec(sys, steps[..n], rates).task, ceiling)
  {
    assert WithinAt(sys, steps, n, ceiling, rates);
    forall k: nat | k <= n ensures WithinAt(sys, steps[..n], k, ceiling, rates) {
      assert WithinAt(sys, steps, k, ceiling, rates);
      assert steps[..n][..k] == steps[..k];
    }
  }

  // ----- an unknown parent -----

  /** A new node whose parent is unknown, and not yet anyone's parent, is minted a full share of the ceiling. */
  lemma OrphanMinted(s: TaskState, at: NodeRef, ceiling: nat, share: Share) returns (u: TaskState)
    requires s.ceiling == Some(ceiling) && s.share == Some(share) && at.node != at.root
    requires at.node !in s.nodes && at.parent.Some? && at.parent.value !in s.nodes
    requires forall x :: x in s.nodes ==> s.nodes[x].parent != at.parent
    ensures u == Begin(s, at, None)
    ensures u.ceiling == s.ceiling && u.share == s.share && u.root == s.root
    ensures u.nodes.Keys == s.nodes.Keys + {at.node}
    ensures forall x :: x in s.nodes ==> u.nodes[x] == s.nodes[x]
    ensures u.nodes[at.node].parent == at.parent && u.nodes[at.node].allowance == Some(Allot(ceiling, share))
    ensures u.nodes[at.node].depth == 1
  {
    u := Begin(s, at, None);
    var t := EnsureNode(s, at.node, at.parent, None);
    var kids := ChildSet(t, at.parent.value) - {at.node};
    assert kids == {};
    assert Max(0, AllowanceOf(t, at.parent.value) - SetSum(kids, Vouchers(t))) == ceiling;
  }

  /** The chain of a node that is its own parent never leaves it. */
  lemma {:induction false} UpLoop(s: TaskState, x: Id, k: nat)
    requires x in s.nodes && s.nodes[x].parent == Some(x)
    ensures Up(s, x, k) == Some(x)
  {
    if k > 0 {
      UpLoop(s, x, k - 1);
    }
  }

  /** A node whose parent is outside the task, or is the node itself, is below no other node. */
  lemma StrayBelowNothing(s: TaskState, top: Id, x: Id)
    requires x in s.nodes && s.nodes[x].parent.Some? && top in s.nodes && top != x
    requires s.nodes[x].parent.value !in s.nodes || s.nodes[x].parent.value == x
    ensures !Under(s, top, x)
  {
    UnderStep(s, top, x);
    if s.nodes[x].parent.value == x {
      forall k: nat ensures Up(s, x, k) != Some(top) {
        UpLoop(s, x, k);
      }
    } else {
      UnderStep(s, top, s.nodes[x].parent.value);
    }
  }

  lemma PairSum(s: TaskState, a: Id, b: Id)
    requires a in s.nodes && b in s.nodes && a != b
    requires s.nodes[a].allowance.Some? && s.nodes[b].allowance.Some?
    ensures SetSum({a, b}, Vouchers(s)) == s.nodes[a].allowance.value + s.nodes[b].allowance.value
  {
    SetSumRemove({a, b}, Vouchers(s), a);
    assert {a, b} - {a} == {b};
    SetSumRemove({b}, Vouchers(s), b);
    assert {b} - {b} == {};
  }

  /** A root and a stray node that holds a voucher overdraw the ceiling. */
  lemma StrayOverdraws(s: TaskState, x: Id, ceiling: nat)
    requires WellKept(s) && s.ceiling == Some(ceiling) && x in s.nodes && x != s.root
    requires s.nodes[x].parent.Some? && (s.nodes[x].parent.value !in s.nodes || s.nodes[x].parent.value == x)
    requires s.nodes[x].allowance.Some? && s.nodes[x].allowance.value > 0
    ensures !WithinCeiling(s, ceiling)
  {
    var A := {s.root, x};
    assert s.root in s.order;
    assert AllApart(s, A) by {
      StrayBelowNothing(s, s.root, x);
      UnderStep(s, x, s.root);
    }
    PairSum(s, s.root, x);
    assert A <= s.nodes.Keys;
  }

  /** The first request of a run with an unknown parent overdraws the ceiling there and then. */
  lemma StrayArrives(sys: System, step: Step, ceiling: nat, share: Share, rates: Option<RateCard>)
    requires Sound(sys) && Shaped(sys.task) && sys.task.ceiling == Some(ceiling) && sys.task.share == Some(share)
    requires Allot(ceiling, share) > 0 && NamesParent(step) && !StepParentKnown(sys, step)
    ensures !WithinCeiling(Next(sys, step, rates).task, ceiling)
  {
    var s, at := sys.task, step.at;
    assert s.root in s.order;
    forall x | x in s.nodes ensures s.nodes[x].parent != at.parent {
      if x != s.root {
        ParentRank(s, x);
      }
    }
    var u := OrphanMinted(s, at, ceiling, share);
    var after := Next(sys, step, rates);
    NextSound(sys, step, rates);
    StrayKept(u, at, rates);
    assert after.task == if step.Arrive? then Ask(u, at, rates).0 else u;
    StrayOverdraws(after.task, at.node, ceiling);
  }

  lemma StrayKept(u: TaskState, at: NodeRef, rates: Option<RateCard>)
    requires at.node in u.nodes
    ensures var t := Ask(u, at, rates).0;
            && t.nodes.Keys == u.nodes.Keys && t.ceiling == u.ceiling && t.root == u.root
            && t.nodes[at.node].parent == u.nodes[at.node].parent
            && t.nodes[at.node].allowance == u.nodes[at.node].allowance
  {}

  lemma {:induction false} WithinNeedsParents(sys: System, steps: seq<Step>, ceiling: nat, share: Share,
                                              rates: Option<RateCard>)
    requires Sound(sys) && Shaped(sys.task) && sys.task.ceiling == Some(ceiling) && sys.task.share == Some(share)
    requires Allot(ceiling, share) > 0 && (forall i :: 0 <= i < |steps| ==> NamesParent(steps[i]))
    requires WithinThroughout(sys, steps, ceiling, rates)
    ensures ParentFirstRun(sys, steps, rates)
  {
    if steps != [] {
      var init, step := steps[..|steps| - 1], steps[|steps| - 1];
      WithinPrefix(sys, steps, |init|, ceiling, rates);
      WithinPrefix(sys, steps, |steps|, ceiling, rates);
      assert steps[..|steps|] == steps;
      WithinNeedsParents(sys, init, ceiling, share, rates);
      var before := Exec(sys, init, rates);
      ExecSound(sys, init, rates);
      ExecShaped(sys, init, rates);
      RunKeeps(sys, init, rates);
      if !StepParentKnown(before, step) {
        StrayArrives(before, step, ceiling, share, rates);
      }
    }
  }

  // ----- a share of nothing -----

  lemma AllotNothing(a: nat, b: nat, share: Share)
    requires a <= b && Allot(b, share) == 0
    ensures Allot(a, share) == 0
  {
    ScaleMonotone(a, b, share.num);
    QuotientZero(b * share.num, share.den);
    QuotientZero(a * share.num, share.den);
  }

  lemma ScaleMonotone(a: nat, b: nat, n: nat)
    requires a <= b
    ensures a * n <= b * n
  {}

  lemma QuotientZero(x: nat, d: nat)
    requires 0 < d
    ensures x / d == 0 <==> x < d
  {}

  /** Nothing but the root holds anything. */
  ghost predicate Penniless(s: TaskState) {
    forall x :: x in s.nodes && x != s.root && s.nodes[x].allowance.Some? ==> s.nodes[x].allowance == Some(0)
  }

  lemma PennilessWithin(s: TaskState, ceiling: nat)
    requires WellKept(s) && Penniless(s) && s.ceiling == Some(ceiling)
    ensures WithinCeiling(s, ceiling)
  {
    assert s.root in s.order;
    forall A: set<Id> | A <= s.nodes.Keys && AllApart(s, A) ensures SetSum(A, Vouchers(s)) <= ceiling {
      SetSumSubset(A, A + {s.root}, Vouchers(s));
      SetSumSupport({s.root}, A + {s.root}, Vouchers(s));
      SetSumRemove({s.root}, Vouchers(s), s.root);
      assert {s.root} - {s.root} == {};
    }
  }

  lemma MintPenniless(t: TaskState, at: NodeRef, ceiling: nat, share: Share)
    requires Penniless(t) && t.root in t.nodes && t.nodes[t.root].allowance == Some(ceiling)
    requires t.ceiling == Some(ceiling) && t.share == Some(share) && Allot(ceiling, share) == 0
    ensures Penniless(MintVoucher(t, at)) && MintVoucher(t, at).root == t.root
  {
    var parent := if at.parent.Some? then at.parent.value else t.root;
    var minted := SetSum(ChildSet(t, parent) - {at.node}, Vouchers(t));
    var remaining := Max(0, AllowanceOf(t, parent) - minted);
    assert AllowanceOf(t, parent) <= ceiling;
    AllotNothing(remaining, ceiling, share);
  }

  lemma BeginPenniless(s: TaskState, at: NodeRef, ceiling: nat, share: Share)
    requires WellKept(s) && Penniless(s)
    requires s.ceiling == Some(ceiling) && s.share == Some(share) && Allot(ceiling, share) == 0
    ensures Penniless(Begin(s, at, None))
  {
    var t := EnsureNode(s, at.node, at.parent, None);
    assert s.root in s.order;
    assert Penniless(t);
    MintPenniless(t, at, ceiling, share);
  }

  lemma SamePenniless(s: TaskState, t: TaskState)
    requires Penniless(s) && t.root == s.root && t.nodes.Keys == s.nodes.Keys
    requires forall x :: x in s.nodes ==> t.nodes[x].allowance == s.nodes[x].allowance
    ensures Penniless(t)
  {}

  lemma FinishPenniless(s: TaskState, at: NodeRef, usage: Usage, complete: bool)
    requires Penniless(s) && at.node in s.nodes
    ensures Penniless(Finish(s, at, usage, complete))
  {
    SamePenniless(s, Finish(s, at, usage, complete));
  }

  lemma AskPenniless(s: TaskState, at: NodeRef, rates: Option<RateCard>)
    requires Penniless(s)
    ensures Penniless(Ask(s, at, rates).0)
  {
    SamePenniless(s, Ask(s, at, rates).0);
  }

  lemma NextPenniless(sys: System, step: Step, ceiling: nat, share: Share, rates: Option<RateCard>)
    requires Sound(sys) && Penniless(sys.task)
    requires sys.task.ceiling == Some(ceiling) && sys.task.share == Some(share) && Allot(ceiling, share) == 0
    ensures Penniless(Next(sys, step, rates).task)
  {
    if Enabled(sys, step) {
      match step {
        case Arrive(rid, at) =>
          BeginPenniless(sys.task, at, ceiling, share);
          AskPenniless(Begin(sys.task, at, None), at, rates);
        case Tunnel(rid, at) => BeginPenniless(sys.task, at, ceiling, share);
        case Stop(rid) => SamePenniless(sys.task, TakeStop(sys.task).0);
        case Dismiss(rid) => FinishPenniless(sys.task, sys.flights[rid].at, ZERO_USAGE, true);
        case Complete(rid, usage, complete) => FinishPenniless(sys.task, sys.flights[rid].at, usage, complete);
        case Abandon(rid) =>
      }
    }
  }

  lemma {:induction false} ExecPenniless(sys: System, steps: seq<Step>, ceiling: nat, share: Share,
                                         rates: Option<RateCard>)
    requires Sound(sys) && Penniless(sys.task)
    requires sys.task.ceiling == Some(ceiling) && sys.task.share == Some(share) && Allot(ceiling, share) == 0
    ensures Penniless(Exec(sys, steps, rates).task)
  {
    if steps != [] {
      var init := steps[..|steps| - 1];
      ExecPenniless(sys, init, ceiling, share, rates);
      ExecSound(sys, init, rates);
      RunKeeps(sys, init, rates);
      NextPenniless(Exec(sys, init, rates), steps[|steps| - 1], ceiling, share, rates);
    }
  }

  /** When the share of the whole ceiling rounds down to nothing, every voucher minted in any run is worth nothing,
      whatever parents the requests name. */
  lemma {:induction false} NothingMinted(root: Id, ceiling: nat, share: Share, steps: seq<Step>,
                                         rates: Option<RateCard>)
    requires Allot(ceiling, share) == 0
    ensures Penniless(Exec(Start(root, Some(ceiling), Some(share)), steps, rates).task)
    ensures WithinCeiling(Exec(Start(root, Some(ceiling), Some(share)), steps, rates).task, ceiling)
  {
    var start := Start(root, Some(ceiling), Some(share));
    StartSound(root, Some(ceiling), Some(share));
    ExecPenniless(start, steps, ceiling, share, rates);
    ExecSound(start, steps, rates);
    RunKeeps(start, steps, rates);
    PennilessWithin(Exec(start, steps, rates).task, ceiling);
  }

  // ----- the exact condition -----

  lemma {:induction false} ParentFirstPrefix(sys: System, steps: seq<Step>, k: nat, rates: Option<RateCard>)
    requires ParentFirstRun(sys, steps, rates) && k <= |steps|
    ensures ParentFirstRun(sys, steps[..k], rates)
  {
    if k == |steps| {
      assert steps[..k] == steps;
    } else {
      ParentFirstPrefix(sys, steps[..|steps| - 1], k, rates);
      assert steps[..|steps| - 1][..k] == steps[..k];
    }
  }

  /** Conservation, exactly. Over a run whose requests away from the root name a parent, the vouchers stay within
      the ceiling at every moment if and only if every parent named for a new node was already in the task, or the
      share of the ceiling is nothing to begin with. */
  lemma {:induction false} ConservedIffParentFirst(root: Id, ceiling: nat, share: Share, steps: seq<Step>,
                                                   rates: Option<RateCard>)
    requires forall i :: 0 <= i < |steps| ==> NamesParent(steps[i])
    ensures var start := Start(root, Some(ceiling), Some(share));
            WithinThroughout(start, steps, ceiling, rates) <==>
            Allot(ceiling, share) == 0 || ParentFirstRun(start, steps, rates)
  {
    var start := Start(root, Some(ceiling), Some(share));
    if Allot(ceiling, share) == 0 {
      forall k: nat | k <= |steps| ensures WithinAt(start, steps, k, ceiling, rates) {
        NothingMinted(root, ceiling, share, steps[..k], rates);
      }
    } else if ParentFirstRun(start, steps, rates) {
      forall k: nat | k <= |steps| ensures WithinAt(start, steps, k, ceiling, rates) {
        ParentFirstPrefix(start, steps, k, rates);
        ParentFirstWithin(root, ceiling, share, steps[..k], rates);
      }
    } else if WithinThroughout(start, steps, ceiling, rates) {
      StartSound(root, Some(ceiling), Some(share));
      StartShaped(root, Some(ceiling), Some(share));
      WithinNeedsParents(start, steps, ceiling, share, rates);
      assert false;
    }
  }

  lemma ParentFirstWithin(root: Id, ceiling: nat, share: Share, steps: seq<Step>, rates: Option<RateCard>)
    requires ParentFirstRun(Start(root, Some(ceiling), Some(share)), steps, rates)
    ensures WithinCeiling(Exec(Start(root, Some(ceiling), Some(share)), steps, rates).task, ceiling)
  {
    var s := Exec(Start(root, Some(ceiling), Some(share)), steps, rates).task;
    forall A: set<Id> | A <= s.nodes.Keys && AllApart(s, A) ensures SetSum(A, Vouchers(s)) <= ceiling {
      VouchersConserved(root, Some(ceiling), share, steps, rates, A);
    }
  }

  /** For instance: two requests that name different unknown parents each hold a full share of the ceiling. */
  lemma {:induction false} OrphansOverdraw(root: Id, a: Id, b: Id, p: Id, q: Id, ceiling: nat, share: Share)
    requires a != root && b != root && a != b && p != q && {p, q} !! {root, a, b}
    ensures var steps := [Arrive(0, NodeRef(root, a, Some(p))), Arrive(1, NodeRef(root, b, Some(q)))];
            var s := Exec(Start(root, Some(ceiling), Some(share)), steps, None).task;
            && {root, a, b} <= s.nodes.Keys && AllApart(s, {root, a, b})
            && SetSum({root, a, b}, Vouchers(s)) == ceiling + 2 * Allot(ceiling, share)
  {
    var first, second := Arrive(0, NodeRef(root, a, Some(p))), Arrive(1, NodeRef(root, b, Some(q)));
    var start := Start(root, Some(ceiling), Some(share));
    TwoArrivals(start, first, second);
    var s := OrphanMinted(start.task, first.at, ceiling, share);
    var t := OrphanMinted(s, second.at, ceiling, share);
    OrphansApart(t, a, b);
    OrphansSum(t, a, b);
  }

  lemma OrphansSum(s: TaskState, a: Id, b: Id)
    requires {s.root, a, b} <= s.nodes.Keys && a != s.root && b != s.root && a != b
    requires s.nodes[s.root].allowance.Some? && s.nodes[a].allowance.Some? && s.nodes[b].allowance.Some?
    ensures SetSum({s.root, a, b}, Vouchers(s))
            == s.nodes[s.root].allowance.value + s.nodes[a].allowance.value + s.nodes[b].allowance.value
  {
    SetSumRemove({s.root, a, b}, Vouchers(s), s.root);
    assert {s.root, a, b} - {s.root} == {a, b};
    PairSum(s, a, b);
  }

  lemma TwoArrivals(start: System, first: Step, second: Step)
    requires first.Arrive? && second.Arrive? && first.rid != second.rid && start.flights == map[]
    requires first.at.root == second.at.root == start.task.root
    ensures Exec(start, [first, second], None).task == Begin(Begin(start.task, first.at, None), second.at, None)
  {
    assert [first, second][..1] == [first] && [first][..0] == [];
    assert Exec(start, [first], None) == Next(start, first, None);
    BeginKeeps(start.task, first.at);
  }

  lemma OrphansApart(s: TaskState, a: Id, b: Id)
    requires s.root in s.nodes && s.nodes[s.root].parent == None && {a, b} <= s.nodes.Keys
    requires a != s.root && b != s.root && a != b
    requires s.nodes[a].parent.Some? && s.nodes[a].parent.value !in s.nodes
    requires s.nodes[b].parent.Some? && s.nodes[b].parent.value !in s.nodes
    ensures AllApart(s, {s.root, a, b})
  {
    forall x, y | x in {s.root, a, b} && y in {s.root, a, b} && x != y ensures !Under(s, x, y) {
      if y == s.root {
        UnderStep(s, x, y);
      } else {
        StrayBelowNothing(s, x, y);
      }
    }
  }
}
