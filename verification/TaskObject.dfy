/** One root task as an object whose methods update its fields (crates/tailfin-tree/src/lib.rs).
    Every method is proved against the function of the same name in TaskModel. */
module TaskObject {
  import opened Foundations
  import opened Pricing
  import opened TaskModel
  import opened Ancestry
  import opened WalkModel
  import opened DepthFirst

  class Task {
    const root: Id
    const ceiling: Option<nat>
    const share: Option<Share>
    var nodes: map<Id, Node>
    var order: seq<Id>
    var sealed: bool
    var peak: nat
    var live: nat
    var syntheticSent: bool

    ghost function State(): TaskState
      reads this
    {
      TaskState(root, nodes, order, ceiling, sealed, peak, live, share, syntheticSent)
    }

    ghost predicate Valid()
      reads this
    {
      WellKept(State())
    }

    constructor (root: Id, ceiling: Option<nat>, share: Option<Share>)
      ensures Valid() && State() == NewTask(root, ceiling, share)
    {
      this.root, this.ceiling, this.share := root, ceiling, share;
      nodes := map[root := FreshNode(root, None, None, 0, ceiling)];
      order := [root];
      sealed, peak, live, syntheticSent := false, 0, 0, false;
    }

    method Ensure(node: Id, parent: Option<Id>, tag: Option<string>)
      requires Valid()
      modifies this`nodes, this`order
      ensures Valid() && State() == EnsureNode(old(State()), node, parent, tag)
    {
      EnsureWellKept(State(), node, parent, tag);
      if node in nodes {
        if tag.Some? && nodes[node].tag.None? {
          nodes := nodes[node := nodes[node].(tag := tag)];
        }
        return;
      }
      var depth := if parent.Some? && parent.value in nodes then Min(nodes[parent.value].depth + 1, MAX_DEPTH) else 1;
      nodes := nodes[node := FreshNode(node, parent, tag, depth, None)];
      order := order + [node];
    }

    function Allowance(id: Id): (micros: nat)
      reads this
      ensures micros == AllowanceOf(State(), id)
    {
      if id in nodes && nodes[id].allowance.Some? then nodes[id].allowance.value
      else if ceiling.Some? then ceiling.value
      else 0
    }

    /** The vouchers of a node's children, leaving one child out. */
    method MintedBelow(parent: Id, except: Id) returns (minted: nat)
      requires Valid()
      ensures minted == SetSum(ChildSet(State(), parent) - {except}, Vouchers(State()))
    {
      var kids := Kids(nodes, order, parent);
      ChildrenListed(State(), parent);
      ghost var w := Vouchers(State());
      minted := 0;
      for i := 0 to |kids|
        invariant minted == SetSum(Elements(kids[..i]) - {except}, w)
      {
        var c := kids[i];
        assert kids[..i + 1] == kids[..i] + [c];
        assert c !in kids[..i] && c in ChildSet(State(), parent);
        if c != except {
          if nodes[c].allowance.Some? {
            minted := minted + nodes[c].allowance.value;
          }
          SetSumAdd(Elements(kids[..i]) - {except}, w, c);
          assert Elements(kids[..i + 1]) - {except} == Elements(kids[..i]) - {except} + {c};
        } else {
          assert Elements(kids[..i + 1]) - {except} == Elements(kids[..i]) - {except};
        }
      }
      assert Elements(kids[..|kids|]) == ChildSet(State(), parent);
    }

    method Mint(at: NodeRef)
      requires Valid()
      modifies this`nodes
      ensures State() == MintVoucher(old(State()), at)
      ensures SparesRoot(old(State()), at) ==> Valid()
    {
      if share.None? || at.node == at.root {
        return;
      }
      if at.node in nodes && nodes[at.node].allowance.Some? {
        return;
      }
      var parent := if at.parent.Some? then at.parent.value else root;
      var minted := MintedBelow(parent, at.node);
      var remaining := Max(0, Allowance(parent) - minted);
      var allot := Allot(remaining, share.value);
      if at.node in nodes {
        nodes := nodes[at.node := nodes[at.node].(allowance := Some(allot))];
      }
    }

    method Begin(at: NodeRef, tag: Option<string>)
      requires Valid()
      modifies this
      ensures State() == TaskModel.Begin(old(State()), at, tag)
      ensures SparesRoot(old(State()), at) ==> Valid()
    {
      Ensure(at.node, at.parent, tag);
      Mint(at);
      live := live + 1;
      peak := Max(peak, live);
    }

    /** Sums the subtree with a stack and a visited set, whatever the parent map looks like. */
    method SubtreeSpentMicros(id: Id, rates: RateCard) returns (total: nat)
      requires Valid()
      ensures total == SubtreeSpent(State(), id, rates)
    {
      ghost var s := State();
      total := 0;
      var stack := [id];
      var seen := {};
      FrontierStart(s, id);
      assert {} * nodes.Keys == {};
      while stack != []
        invariant Frontier(s, id, seen, stack) && total == SetSum(seen * nodes.Keys, Costs(s, rates))
        decreases (nodes.Keys + {id}) - seen, |stack|
      {
        var cur, rest := stack[|stack| - 1], stack[..|stack| - 1];
        assert stack == rest + [cur];
        if cur in seen {
          FrontierSkip(s, id, seen, rest, cur);
          stack := rest;
        } else {
          SumVisit(s, id, seen, rest, cur, rates);
          if cur in nodes {
            total := total + Micros(nodes[cur].usage, rates);
          }
          seen := seen + {cur};
          stack := rest + Kids(nodes, order, cur);
        }
      }
      FrontierDone(s, id, seen);
    }

    /** Sums over the nodes in whatever order the map yields them. */
    method SpentMicros(rates: RateCard) returns (total: nat)
      ensures total == Spent(State(), rates)
    {
      ghost var w := Costs(State(), rates);
      total := 0;
      var left := nodes.Keys;
      while left != {}
        invariant left <= nodes.Keys
        invariant total + SetSum(left, w) == SetSum(nodes.Keys, w)
        decreases left
      {
        var k :| k in left;
        SetSumRemove(left, w, k);
        total := total + Micros(nodes[k].usage, rates);
        left := left - {k};
      }
    }

    method TotalUsed() returns (u: Usage)
      ensures u == TotalUsage(State())
    {
      ghost var w := Usages(State());
      u := ZERO_USAGE;
      var left := nodes.Keys;
      assert nodes.Keys - left == {};
      while left != {}
        invariant left <= nodes.Keys
        invariant u == UsageSum(nodes.Keys - left, w)
        decreases left
      {
        var k :| k in left;
        UsageSumAdd(nodes.Keys - left, w, k);
        u := Merge(u, nodes[k].usage);
        assert nodes.Keys - (left - {k}) == nodes.Keys - left + {k};
        left := left - {k};
      }
      assert nodes.Keys - left == nodes.Keys;
    }

    method Admit(rates: RateCard) returns (answer: Admission)
      requires Valid()
      modifies this`sealed
      ensures Valid() && (State(), answer) == TaskModel.Admit(old(State()), rates)
    {
      if ceiling.None? {
        return Allow;
      }
      var spent := SpentMicros(rates);
      if sealed {
        return Deny(spent, ceiling.value);
      }
      if spent >= ceiling.value {
        sealed := true;
        return Last;
      }
      return Allow;
    }

    method AdmitAt(at: NodeRef, rates: RateCard) returns (answer: Admission)
      requires Valid()
      modifies this`sealed, this`nodes
      ensures Valid() && (State(), answer) == TaskModel.AdmitAt(old(State()), at, rates)
    {
      AdmitAtWellKept(State(), at, rates);
      answer := Admit(rates);
      if !answer.Allow? {
        return;
      }
      var cap := Allowance(at.node);
      if cap == 0 && ceiling.None? {
        return Allow;
      }
      var spent := SubtreeSpentMicros(at.node, rates);
      if at.node in nodes && nodes[at.node].sealed {
        return Deny(spent, cap);
      }
      if spent >= cap && at.node in nodes && nodes[at.node].allowance.Some? {
        nodes := nodes[at.node := nodes[at.node].(sealed := true)];
        return Last;
      }
      return Allow;
    }

    method TakeStop() returns (style: StopStyle)
      requires Valid()
      modifies this`syntheticSent
      ensures Valid() && (State(), style) == TaskModel.TakeStop(old(State()))
    {
      if !syntheticSent {
        syntheticSent := true;
        return SyntheticEndTurn;
      }
      return RetryableFalse429;
    }

    method Finish(at: NodeRef, usage: Usage, complete: bool)
      requires Valid()
      modifies this`nodes, this`order, this`live
      ensures Valid() && State() == TaskModel.Finish(old(State()), at, usage, complete)
    {
      FinishWellKept(State(), at, usage, complete);
      Ensure(at.node, at.parent, None);
      var n := nodes[at.node];
      n := n.(usage := Merge(n.usage, usage), requests := n.requests + 1);
      if !complete {
        n := n.(incomplete := n.incomplete + 1);
      }
      nodes := nodes[at.node := n];
      live := Max(0, live - 1);
    }

    /** Walks from the root with a stack. On every parent map it ends, repeats nothing and visits exactly
        the nodes below the root; on a parent-first task it is the recursive preorder, which lists ancestors first
        and siblings as they were first seen. */
    method Walk() returns (out: seq<(Id, nat)>)
      requires Valid()
      ensures forall i :: 0 <= i < |out| ==> out[i].0 in nodes && out[i].1 == nodes[out[i].0].depth
      ensures NoDuplicates(Ids(out))
      ensures Elements(Ids(out)) == Family(State(), root)
      ensures ParentFirst(State()) ==> Ids(out) == Preorder(State(), root)
      ensures ParentFirst(State()) ==> InDepthFirstOrder(State(), Ids(out))
    {
      ghost var s := State();
      out := [];
      var stack := [root];
      var seen := {};
      ghost var todo := [root];
      WalkStart(s);
      while stack != []
        invariant stack == Reversed(todo) && Walking(s, out, seen, todo)
        decreases (nodes.Keys + {root}) - seen, |stack|
      {
        assert todo != [];
        var id := stack[|stack| - 1];
        stack := stack[..|stack| - 1];
        assert id == todo[0] && stack == Reversed(todo[1..]);
        if id in seen {
          WalkSkip(s, out, seen, todo);
          todo := todo[1..];
        } else {
          WalkVisit(s, out, seen, todo);
          if id in nodes {
            out := out + [(id, nodes[id].depth)];
          }
          seen := seen + {id};
          var kids := Kids(nodes, order, id);
          ReversedConcat(kids, todo[1..]);
          todo := kids + todo[1..];
          stack := stack + Reversed(kids);
        }
      }
      ReversedElements(todo);
      assert todo == [];
      FrontierDone(s, root, seen);
      if ParentFirst(s) {
        PreorderIsDepthFirst(s);
      }
    }
  }

  lemma SumVisit(s: TaskState, top: Id, seen: set<Id>, rest: seq<Id>, cur: Id, rates: RateCard)
    requires WellKept(s) && Frontier(s, top, seen, rest + [cur]) && cur !in seen
    ensures cur in s.nodes || cur == top
    ensures Frontier(s, top, seen + {cur}, rest + ChildrenOf(s, cur))
    ensures SetSum((seen + {cur}) * s.nodes.Keys, Costs(s, rates))
            == SetSum(seen * s.nodes.Keys, Costs(s, rates))
               + if cur in s.nodes then Micros(s.nodes[cur].usage, rates) else 0
  {
    assert cur in rest + [cur];
    assert Frontier(s, top, seen + {cur}, rest + ChildrenOf(s, cur)) by {
      ChildrenListed(s, cur);
      FrontierVisit(s, top, seen, rest, cur, ChildrenOf(s, cur));
    }
    if cur in s.nodes {
      SetSumAdd(seen * s.nodes.Keys, Costs(s, rates), cur);
      assert (seen + {cur}) * s.nodes.Keys == seen * s.nodes.Keys + {cur};
    } else {
      assert (seen + {cur}) * s.nodes.Keys == seen * s.nodes.Keys;
    }
  }

  ghost function Ids(out: seq<(Id, nat)>): seq<Id> {
    seq(|out|, i requires 0 <= i < |out| => out[i].0)
  }

  lemma IdsAppend(out: seq<(Id, nat)>, id: Id, depth: nat)
    requires NoDuplicates(Ids(out)) && id !in Elements(Ids(out))
    ensures Ids(out + [(id, depth)]) == Ids(out) + [id]
    ensures NoDuplicates(Ids(out) + [id])
    ensures Elements(Ids(out) + [id]) == Elements(Ids(out)) + {id}
  {
    assert id !in Ids(out);
    AppendKeepsDistinct(Ids(out), id);
  }

  /** What has been listed, followed by the preorder of what waits, is the preorder of the task. */
  ghost predicate OnCourse(s: TaskState, listed: seq<Id>, todo: seq<Id>)
    requires WellKept(s) && ParentFirst(s)
  {
    (forall x :: x in todo ==> x in s.nodes) && listed + Forest(s, todo) == Forest(s, [s.root])
  }

  lemma OnCourseFresh(s: TaskState, listed: seq<Id>, todo: seq<Id>)
    requires WellKept(s) && ParentFirst(s) && OnCourse(s, listed, todo) && todo != []
    ensures todo[0] in s.nodes && todo[0] !in Elements(listed)
  {
    PreorderListsTask(s);
    var all := listed + Forest(s, todo);
    assert all[|listed|] == todo[0];
    forall i | 0 <= i < |listed| ensures listed[i] != todo[0] {
      assert all[i] == listed[i];
    }
  }

  lemma OnCourseStep(s: TaskState, listed: seq<Id>, todo: seq<Id>)
    requires WellKept(s) && ParentFirst(s) && OnCourse(s, listed, todo) && todo != []
    ensures OnCourse(s, listed + [todo[0]], ChildrenOf(s, todo[0]) + todo[1..])
  {
    var v, kids, rest := todo[0], ChildrenOf(s, todo[0]), todo[1..];
    KidsRankHigher(s, v);
    ForestAppend(s, kids, rest);
    Regroup(listed, v, Forest(s, kids), Forest(s, rest));
    assert forall x :: x in rest ==> x in todo;
  }

  lemma Regroup(a: seq<Id>, v: Id, b: seq<Id>, c: seq<Id>)
    ensures a + ([v] + b + c) == (a + [v]) + (b + c)
  {}

  // ----- the walk's loop invariant -----

  /** The visited nodes of the task are listed with their depths, each once. */
  ghost predicate Listed(s: TaskState, out: seq<(Id, nat)>, seen: set<Id>) {
    && (forall i :: 0 <= i < |out| ==> out[i].0 in s.nodes && out[i].1 == s.nodes[out[i].0].depth)
    && NoDuplicates(Ids(out)) && Elements(Ids(out)) == seen * s.nodes.Keys
  }

  lemma ListNext(s: TaskState, out: seq<(Id, nat)>, seen: set<Id>, v: Id)
    requires Listed(s, out, seen) && v !in seen
    ensures v in s.nodes ==> Listed(s, out + [(v, s.nodes[v].depth)], seen + {v})
    ensures v !in s.nodes ==> Listed(s, out, seen + {v})
  {
    if v in s.nodes {
      IdsAppend(out, v, s.nodes[v].depth);
      assert (seen + {v}) * s.nodes.Keys == seen * s.nodes.Keys + {v};
    } else {
      assert (seen + {v}) * s.nodes.Keys == seen * s.nodes.Keys;
    }
  }

  lemma FrontierNext(s: TaskState, seen: set<Id>, todo: seq<Id>)
    requires WellKept(s) && todo != [] && Frontier(s, s.root, seen, Reversed(todo))
    ensures Frontier(s, s.root, seen + {todo[0]}, Reversed(ChildrenOf(s, todo[0]) + todo[1..]))
  {
    var v, kids := todo[0], ChildrenOf(s, todo[0]);
    ChildrenListed(s, v);
    ReversedElements(kids);
    FrontierVisit(s, s.root, seen, Reversed(todo[1..]), v, Reversed(kids));
    ReversedConcat(kids, todo[1..]);
  }

  /** The stack, seen from its top, is `todo`. */
  ghost predicate Walking(s: TaskState, out: seq<(Id, nat)>, seen: set<Id>, todo: seq<Id>)
    requires WellKept(s)
  {
    && Frontier(s, s.root, seen, Reversed(todo))
    && Listed(s, out, seen)
    && (ParentFirst(s) ==> OnCourse(s, Ids(out), todo))
  }

  lemma WalkStart(s: TaskState)
    requires WellKept(s)
    ensures Walking(s, [], {}, [s.root])
  {
    FrontierStart(s, s.root);
    assert Reversed([s.root]) == [s.root];
    assert s.root in s.order;
  }

  lemma WalkSkip(s: TaskState, out: seq<(Id, nat)>, seen: set<Id>, todo: seq<Id>)
    requires WellKept(s) && Walking(s, out, seen, todo) && todo != [] && todo[0] in seen
    ensures Walking(s, out, seen, todo[1..])
  {
    FrontierSkip(s, s.root, seen, Reversed(todo[1..]), todo[0]);
    if ParentFirst(s) {
      OnCourseFresh(s, Ids(out), todo);
    }
  }

  lemma WalkVisit(s: TaskState, out: seq<(Id, nat)>, seen: set<Id>, todo: seq<Id>)
    requires WellKept(s) && Walking(s, out, seen, todo) && todo != [] && todo[0] !in seen
    ensures var v := todo[0];
            Walking(s, if v in s.nodes then out + [(v, s.nodes[v].depth)] else out,
                    seen + {v}, ChildrenOf(s, v) + todo[1..])
  {
    var v := todo[0];
    var next := ChildrenOf(s, v) + todo[1..];
    var out' := if v in s.nodes then out + [(v, s.nodes[v].depth)] else out;
    assert Frontier(s, s.root, seen + {v}, Reversed(next)) by {
      FrontierNext(s, seen, todo);
    }
    assert Listed(s, out', seen + {v}) by {
      ListNext(s, out, seen, v);
    }
    if ParentFirst(s) {
      OnCourseStep(s, Ids(out), todo);
      assert Ids(out') == Ids(out) + [v];
    }
  }
}
