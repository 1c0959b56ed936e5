/** Who is below whom: facts about parent chains, first on any parent map, then on parent-first tasks,
    where every node's parent was known before the node itself. */
module Ancestry {
  import opened Foundations
  import opened Pricing
  import opened TaskModel

  // ----- any parent map -----

  lemma UnderSelf(s: TaskState, x: Id)
    ensures Under(s, x, x)
  {
    assert Up(s, x, 0) == Some(x);
  }

  lemma UnderStep(s: TaskState, top: Id, x: Id)
    ensures Under(s, top, x) <==>
            x == top || (x in s.nodes && s.nodes[x].parent.Some? && Under(s, top, s.nodes[x].parent.value))
  {
    if x == top {
      UnderSelf(s, x);
    } else if x in s.nodes && s.nodes[x].parent.Some? {
      var p := s.nodes[x].parent.value;
      if Under(s, top, x) {
        var k: nat :| Up(s, x, k) == Some(top);
        assert Up(s, p, k - 1) == Some(top);
      }
      if Under(s, top, p) {
        var k: nat :| Up(s, p, k) == Some(top);
        assert Up(s, x, k + 1) == Some(top);
      }
    }
  }

  lemma {:induction false} UpUp(s: TaskState, x: Id, i: nat, j: nat)
    requires Up(s, x, i).Some?
    ensures Up(s, x, i + j) == Up(s, Up(s, x, i).value, j)
    decreases i
  {
    if i > 0 {
      UpUp(s, s.nodes[x].parent.value, i - 1, j);
    }
  }

  lemma UnderTransitive(s: TaskState, a: Id, b: Id, x: Id)
    requires Under(s, a, b) && Under(s, b, x)
    ensures Under(s, a, x)
  {
    var i: nat :| Up(s, x, i) == Some(b);
    var j: nat :| Up(s, b, j) == Some(a);
    UpUp(s, x, i, j);
    assert Up(s, x, i + j) == Some(a);
  }

  /** A chain of parents is a line: of two identifiers above the same node, one is above the other. */
  lemma AncestorsAreComparable(s: TaskState, a: Id, b: Id, x: Id)
    requires Under(s, a, x) && Under(s, b, x)
    ensures Under(s, a, b) || Under(s, b, a)
  {
    var i: nat :| Up(s, x, i) == Some(a);
    var j: nat :| Up(s, x, j) == Some(b);
    if i <= j {
      UpUp(s, x, i, j - i);
      assert Up(s, a, j - i) == Some(b);
    } else {
      UpUp(s, x, j, i - j);
      assert Up(s, b, i - j) == Some(a);
    }
  }

  /** On every parent map, a subtree costs at most what the whole task has spent. */
  lemma {:induction false} SubtreeAtMostSpent(s: TaskState, top: Id, r: RateCard)
    ensures SubtreeSpent(s, top, r) <= Spent(s, r)
  {
    SetSumSubset(Family(s, top), s.nodes.Keys, Costs(s, r));
  }

  /** A set that holds `top` and, with each member, the member's children, holds everything below `top`. */
  lemma {:induction false} ClosedHoldsFamily(s: TaskState, top: Id, closed: set<Id>, x: Id, k: nat)
    requires top in closed
    requires forall y :: y in closed ==> ChildSet(s, y) <= closed
    requires Up(s, x, k) == Some(top)
    ensures x in closed
    decreases k
  {
    if k > 0 {
      var p := s.nodes[x].parent.value;
      ClosedHoldsFamily(s, top, closed, p, k - 1);
      assert x in ChildSet(s, p);
    }
  }

  lemma {:induction false} KidsAreChildren(nodes: map<Id, Node>, order: seq<Id>, id: Id)
    requires NoDuplicates(order)
    requires forall x :: x in order ==> x in nodes && nodes[x].id == x
    ensures NoDuplicates(Kids(nodes, order, id))
    ensures forall x :: x in Kids(nodes, order, id) <==> x in order && nodes[x].parent == Some(id)
  {
    if order != [] {
      var init, k := order[..|order| - 1], order[|order| - 1];
      assert order == init + [k];
      assert k !in init;
      KidsAreChildren(nodes, init, id);
      if nodes[k].parent == Some(id) {
        AppendKeepsDistinct(Kids(nodes, init, id), k);
      }
    }
  }

  /** The first-seen listing of children is the set of children, each once. */
  lemma ChildrenListed(s: TaskState, id: Id)
    requires WellKept(s)
    ensures NoDuplicates(ChildrenOf(s, id))
    ensures forall x :: x in ChildrenOf(s, id) <==> x in ChildSet(s, id)
  {
    KidsAreChildren(s.nodes, s.order, id);
  }

  /** Children are listed in first-seen order. */
  lemma {:induction false} KidsInOrder(nodes: map<Id, Node>, order: seq<Id>, id: Id, i: nat, j: nat)
    requires NoDuplicates(order)
    requires forall x :: x in order ==> x in nodes && nodes[x].id == x
    requires i < j < |Kids(nodes, order, id)|
    ensures SeenBefore(order, Kids(nodes, order, id)[i], Kids(nodes, order, id)[j])
  {
    var init, k := order[..|order| - 1], order[|order| - 1];
    assert order == init + [k];
    var kids := Kids(nodes, init, id);
    KidsAreChildren(nodes, init, id);
    if j < |kids| {
      KidsInOrder(nodes, init, id, i, j);
      SeenBeforeLonger(init, k, kids[i], kids[j]);
    } else {
      assert kids[i] in kids;
      var m :| 0 <= m < |init| && init[m] == kids[i];
      assert order[m] == kids[i] && order[|init|] == k;
    }
  }

  /** `x` comes before `y`. */
  ghost predicate SeenBefore(xs: seq<Id>, x: Id, y: Id) {
    exists i, j :: 0 <= i < j < |xs| && xs[i] == x && xs[j] == y
  }

  lemma SeenBeforeLonger(xs: seq<Id>, k: Id, x: Id, y: Id)
    requires SeenBefore(xs, x, y)
    ensures SeenBefore(xs + [k], x, y)
  {
    var i, j :| 0 <= i < j < |xs| && xs[i] == x && xs[j] == y;
    assert (xs + [k])[i] == x && (xs + [k])[j] == y;
  }

  /** Of two children, the one first seen earlier is listed earlier. */
  lemma {:induction false} ChildrenInOrder(s: TaskState, id: Id)
    requires WellKept(s)
    ensures forall i, j :: 0 <= i < j < |ChildrenOf(s, id)| ==>
              SeenBefore(s.order, ChildrenOf(s, id)[i], ChildrenOf(s, id)[j])
  {
    forall i, j | 0 <= i < j < |ChildrenOf(s, id)|
      ensures SeenBefore(s.order, ChildrenOf(s, id)[i], ChildrenOf(s, id)[j])
    {
      KidsInOrder(s.nodes, s.order, id, i, j);
    }
  }

  // ----- parent-first tasks -----

  function Rank(order: seq<Id>, x: Id): (i: nat)
    requires x in order
    ensures i < |order| && order[i] == x
  {
    if order[0] == x then 0 else 1 + Rank(order[1..], x)
  }

  ghost predicate ParentBefore(s: TaskState, i: nat) {
    && i < |s.order| && s.order[i] in s.nodes
    && s.nodes[s.order[i]].parent.Some? && s.nodes[s.order[i]].parent.value in s.order[..i]
  }

  /** Every node but the root names a parent that was first seen before it. */
  ghost predicate ParentFirst(s: TaskState) {
    forall i: nat {:trigger ParentBefore(s, i)} :: 0 < i < |s.order| ==> ParentBefore(s, i)
  }

  lemma ParentRank(s: TaskState, x: Id)
    requires WellKept(s) && ParentFirst(s) && x in s.nodes && x != s.root
    ensures s.nodes[x].parent.Some? && s.nodes[x].parent.value in s.nodes
    ensures Rank(s.order, s.nodes[x].parent.value) < Rank(s.order, x)
  {
    var i := Rank(s.order, x);
    assert ParentBefore(s, i);
    var p := s.nodes[x].parent.value;
    assert p in s.order;
  }

  lemma {:induction false} RanksGrowDownwards(s: TaskState, top: Id, x: Id)
    requires WellKept(s) && ParentFirst(s) && x in s.nodes && Under(s, top, x)
    ensures top in s.nodes && (top == x || Rank(s.order, top) < Rank(s.order, x))
    decreases Rank(s.order, x)
  {
    UnderStep(s, top, x);
    if x != top {
      ParentRank(s, x);
      RanksGrowDownwards(s, top, s.nodes[x].parent.value);
    }
  }

  lemma {:induction false} EverythingUnderRoot(s: TaskState, x: Id)
    requires WellKept(s) && ParentFirst(s) && x in s.nodes
    ensures Under(s, s.root, x)
    decreases Rank(s.order, x)
  {
    UnderStep(s, s.root, x);
    if x != s.root {
      ParentRank(s, x);
      EverythingUnderRoot(s, s.nodes[x].parent.value);
    }
  }

  /** At the root of a parent-first task the subtree is the whole task. */
  lemma {:induction false} RootSubtreeIsTask(s: TaskState, r: RateCard)
    requires WellKept(s) && ParentFirst(s)
    ensures Family(s, s.root) == s.nodes.Keys
    ensures SubtreeSpent(s, s.root, r) == Spent(s, r)
  {
    forall x | x in s.nodes ensures x in Family(s, s.root) {
      EverythingUnderRoot(s, x);
    }
    assert Family(s, s.root) == s.nodes.Keys;
  }

  /** Neither of two identifiers is below the other. */
  ghost predicate Apart(s: TaskState, a: Id, b: Id) {
    !Under(s, a, b) && !Under(s, b, a)
  }

  lemma ChildBelow(s: TaskState, v: Id, c: Id)
    requires WellKept(s) && ParentFirst(s) && c in ChildSet(s, v)
    ensures v in s.nodes && Rank(s.order, v) < Rank(s.order, c)
    ensures Under(s, v, c) && !Under(s, c, v)
  {
    ParentRank(s, c);
    UnderSelf(s, v);
    UnderStep(s, v, c);
    if Under(s, c, v) {
      RanksGrowDownwards(s, c, v);
    }
  }

  lemma SiblingsApart(s: TaskState, v: Id, c: Id, d: Id)
    requires WellKept(s) && ParentFirst(s) && c in ChildSet(s, v) && d in ChildSet(s, v) && c != d
    ensures Apart(s, c, d)
  {
    ChildBelow(s, v, c);
    ChildBelow(s, v, d);
    UnderStep(s, c, d);
    UnderStep(s, d, c);
  }

  /** Everything at or below some member of `tops`. */
  ghost function Families(s: TaskState, tops: set<Id>): set<Id> {
    set x | x in s.nodes && UnderSome(s, tops, x)
  }

  ghost predicate UnderSome(s: TaskState, tops: set<Id>, x: Id) {
    exists t :: t in tops && Under(s, t, x)
  }

  lemma FamilyMember(s: TaskState, v: Id, x: Id)
    requires WellKept(s) && ParentFirst(s) && v in s.nodes && x in s.nodes
    ensures UnderSome(s, ChildSet(s, v), x) <==> x != v && Under(s, v, x)
  {
    if x != v && Under(s, v, x) {
      var c := ChildAbove(s, v, x);
    }
    if UnderSome(s, ChildSet(s, v), x) {
      var c :| c in ChildSet(s, v) && Under(s, c, x);
      ChildBelow(s, v, c);
      UnderTransitive(s, v, c, x);
    }
  }

  lemma FamilySplits(s: TaskState, v: Id)
    requires WellKept(s) && ParentFirst(s) && v in s.nodes
    ensures v !in Families(s, ChildSet(s, v))
    ensures Family(s, v) == {v} + Families(s, ChildSet(s, v))
  {
    var kids := ChildSet(s, v);
    UnderSelf(s, v);
    FamilyMember(s, v, v);
    forall x ensures x in Family(s, v) <==> x in {v} + Families(s, kids) {
      if x in s.nodes {
        FamilyMember(s, v, x);
      }
    }
  }

  /** The child of `v` through which a node strictly below `v` hangs. */
  lemma {:induction false} ChildAbove(s: TaskState, v: Id, x: Id) returns (c: Id)
    requires WellKept(s) && ParentFirst(s) && x in s.nodes && x != v && Under(s, v, x)
    ensures c in ChildSet(s, v) && Under(s, c, x)
    decreases Rank(s.order, x)
  {
    UnderStep(s, v, x);
    UnderSelf(s, x);
    var p := s.nodes[x].parent.value;
    if p == v {
      c := x;
    } else {
      ParentRank(s, x);
      c := ChildAbove(s, v, p);
      UnderStep(s, c, x);
    }
  }

  ghost function SubtreeCosts(s: TaskState, r: RateCard): map<Id, nat> {
    map x | x in s.nodes :: SubtreeSpent(s, x, r)
  }

  ghost predicate AllApart(s: TaskState, tops: set<Id>) {
    forall a, b :: a in tops && b in tops && a != b ==> Apart(s, a, b)
  }

  lemma FamiliesTakeOut(s: TaskState, tops: set<Id>, c: Id)
    requires c in tops && AllApart(s, tops)
    ensures Families(s, tops) == Family(s, c) + Families(s, tops - {c})
    ensures Family(s, c) !! Families(s, tops - {c})
  {
    forall x | x in Family(s, c) && x in Families(s, tops - {c}) ensures false {
      var d :| d in tops - {c} && Under(s, d, x);
      assert Apart(s, c, d);
      AncestorsAreComparable(s, c, d, x);
    }
  }

  lemma {:induction false} FamiliesCost(s: TaskState, tops: set<Id>, r: RateCard)
    requires tops <= s.nodes.Keys && AllApart(s, tops)
    ensures SetSum(Families(s, tops), Costs(s, r)) == SetSum(tops, SubtreeCosts(s, r))
    decreases |tops|
  {
    if tops == {} {
      assert Families(s, tops) == {};
    } else {
      var c :| c in tops;
      var w, v := Costs(s, r), SubtreeCosts(s, r);
      FamiliesTakeOut(s, tops, c);
      SetSumUnion(Family(s, c), Families(s, tops - {c}), w);
      SetSumRemove(tops, v, c);
      assert Weight(v, c) == SetSum(Family(s, c), w);
      FamiliesCost(s, tops - {c}, r);
    }
  }

  /** On parent-first tasks a subtree costs its top node's own usage plus its children's subtrees. */
  lemma {:induction false} SubtreeRecurrence(s: TaskState, v: Id, r: RateCard)
    requires WellKept(s) && ParentFirst(s) && v in s.nodes
    ensures SubtreeSpent(s, v, r) == Micros(s.nodes[v].usage, r) + SetSum(ChildSet(s, v), SubtreeCosts(s, r))
  {
    var kids := ChildSet(s, v);
    FamilySplits(s, v);
    forall a, b | a in kids && b in kids && a != b ensures Apart(s, a, b) {
      SiblingsApart(s, v, a, b);
    }
    assert AllApart(s, kids);
    FamiliesCost(s, kids, r);
    assert {v} + Families(s, kids) == Families(s, kids) + {v};
    SetSumAdd(Families(s, kids), Costs(s, r), v);
  }
}
