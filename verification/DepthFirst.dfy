/** The preorder of a task, told apart from every other listing: ancestors come first, and siblings keep the order in
    which they were first seen, each with everything below it. */
module DepthFirst {
  import opened Foundations
  import opened TaskModel
  import opened Ancestry
  import opened WalkModel

  lemma SeenBeforeInside(a: seq<Id>, xs: seq<Id>, b: seq<Id>, x: Id, y: Id)
    requires SeenBefore(xs, x, y)
    ensures SeenBefore(a + xs + b, x, y)
  {
    var i, j :| 0 <= i < j < |xs| && xs[i] == x && xs[j] == y;
    var all := a + xs + b;
    assert all[|a| + i] == x && all[|a| + j] == y;
  }

  lemma SeenBeforeAcross(xs: seq<Id>, ys: seq<Id>, x: Id, y: Id)
    requires x in xs && y in ys
    ensures SeenBefore(xs + ys, x, y)
  {
    var i :| 0 <= i < |xs| && xs[i] == x;
    var j :| 0 <= j < |ys| && ys[j] == y;
    assert (xs + ys)[i] == x && (xs + ys)[|xs| + j] == y;
  }

  /** Listed is what lies below the tops. */
  lemma ForestHolds(s: TaskState, todo: seq<Id>, top: Id, x: Id)
    requires WellKept(s) && ParentFirst(s) && (forall t :: t in todo ==> t in s.nodes) && TopsApart(s, todo)
    requires top in todo && x in s.nodes && Under(s, top, x)
    ensures x in Forest(s, todo)
  {
    ForestListsFamilies(s, todo);
    assert top in Elements(todo);
    assert x in Elements(Forest(s, todo));
  }

  lemma ApartPart(s: TaskState, todo: seq<Id>, lo: nat, hi: nat)
    requires lo <= hi <= |todo| && TopsApart(s, todo)
    ensures TopsApart(s, todo[lo..hi])
  {
    forall t | t in todo[lo..hi] ensures t in Elements(todo) {
      assert t in todo;
    }
  }

  /** Everything below an earlier top is listed before everything below a later one. */
  lemma {:induction false} TopsInOrder(s: TaskState, todo: seq<Id>, i: nat, j: nat, x: Id, y: Id)
    requires WellKept(s) && ParentFirst(s) && (forall t :: t in todo ==> t in s.nodes) && TopsApart(s, todo)
    requires i < j < |todo| && x in s.nodes && y in s.nodes && Under(s, todo[i], x) && Under(s, todo[j], y)
    ensures SeenBefore(Forest(s, todo), x, y)
  {
    var a, b := todo[0..j], todo[j..|todo|];
    assert todo == a + b && a[i] == todo[i] && b[0] == todo[j];
    ApartPart(s, todo, 0, j);
    ApartPart(s, todo, j, |todo|);
    ForestAppend(s, a, b);
    ForestHolds(s, a, todo[i], x);
    ForestHolds(s, b, todo[j], y);
    SeenBeforeAcross(Forest(s, a), Forest(s, b), x, y);
  }

  /** A node and, right after it, the forest of its children. */
  ghost function Group(s: TaskState, v: Id): seq<Id>
    requires WellKept(s) && ParentFirst(s) && v in s.nodes
  {
    KidsRankHigher(s, v);
    [v] + Forest(s, ChildrenOf(s, v))
  }

  lemma RegroupInside(t: Id, a: seq<Id>, m: seq<Id>, b: seq<Id>, rest: seq<Id>)
    ensures [t] + (a + m + b) + rest == ([t] + a) + m + (b + rest)
  {}

  lemma RegroupAfter(group: seq<Id>, a: seq<Id>, m: seq<Id>, b: seq<Id>)
    ensures group + (a + m + b) == (group + a) + m + b
  {}

  lemma ForestGroups(s: TaskState, todo: seq<Id>)
    requires WellKept(s) && ParentFirst(s) && todo != [] && forall t :: t in todo ==> t in s.nodes
    ensures Forest(s, todo) == Group(s, todo[0]) + Forest(s, todo[1..])
  {}

  /** Wherever a node is listed, its group is. */
  lemma {:induction false} Segment(s: TaskState, todo: seq<Id>, v: Id) returns (a: seq<Id>, b: seq<Id>)
    requires WellKept(s) && ParentFirst(s) && (forall t :: t in todo ==> t in s.nodes)
    requires v in s.nodes && v in Forest(s, todo)
    ensures Forest(s, todo) == a + Group(s, v) + b
    decreases |s.order| - MinRank(s.order, todo), |todo|
  {
    var top, rest := todo[0], todo[1..];
    KidsRankHigher(s, top);
    ForestGroups(s, todo);
    if v == top {
      a, b := [], Forest(s, rest);
      assert [] + Group(s, v) == Group(s, v);
    } else if v in Forest(s, ChildrenOf(s, top)) {
      a, b := Segment(s, ChildrenOf(s, top), v);
      RegroupInside(top, a, Group(s, v), b, Forest(s, rest));
      a, b := [top] + a, b + Forest(s, rest);
    } else {
      assert v in Forest(s, rest);
      a, b := Segment(s, rest, v);
      RegroupAfter(Group(s, top), a, Group(s, v), b);
      a := Group(s, top) + a;
    }
  }

  /** `x` and `y` lie at or below different children of one node, `x` below the one first seen earlier. */
  ghost predicate OnEarlierBranch(s: TaskState, x: Id, y: Id) {
    exists c, d :: EarlierSibling(s, c, d) && Under(s, c, x) && Under(s, d, y)
  }

  ghost predicate EarlierSibling(s: TaskState, c: Id, d: Id) {
    && c in s.nodes && d in s.nodes && s.nodes[c].parent.Some? && s.nodes[c].parent == s.nodes[d].parent
    && SeenBefore(s.order, c, d)
  }

  ghost predicate IsAbove(s: TaskState, v: Id, x: Id) {
    v != x && Under(s, v, x)
  }

  /** Ancestors are listed before what is below them, and earlier branches before later ones. */
  ghost predicate InDepthFirstOrder(s: TaskState, listed: seq<Id>) {
    forall x, y :: x in s.nodes && y in s.nodes && (IsAbove(s, x, y) || OnEarlierBranch(s, x, y)) ==>
      SeenBefore(listed, x, y)
  }

  lemma TopOfGroup(s: TaskState, v: Id, x: Id)
    requires WellKept(s) && ParentFirst(s) && v in s.nodes && x in s.nodes && IsAbove(s, v, x)
    ensures SeenBefore(Group(s, v), v, x)
  {
    var c := ChildAbove(s, v, x);
    KidsApart(s, v);
    KidsRankHigher(s, v);
    assert c in Elements(ChildrenOf(s, v));
    ForestHolds(s, ChildrenOf(s, v), c, x);
    SeenBeforeAcross([v], Forest(s, ChildrenOf(s, v)), v, x);
  }

  lemma AboveIsBefore(s: TaskState, v: Id, x: Id)
    requires WellKept(s) && ParentFirst(s) && v in s.nodes && x in s.nodes && IsAbove(s, v, x)
    ensures s.root in s.nodes && SeenBefore(Preorder(s, s.root), v, x)
  {
    PreorderListsTask(s);
    assert s.root in s.order;
    var a, b := Segment(s, [s.root], v);
    TopOfGroup(s, v, x);
    SeenBeforeInside(a, Group(s, v), b, v, x);
  }

  lemma ListedAt(s: TaskState, v: Id, c: Id) returns (i: nat)
    requires WellKept(s) && c in ChildSet(s, v)
    ensures i < |ChildrenOf(s, v)| && ChildrenOf(s, v)[i] == c
  {
    ChildrenListed(s, v);
    assert c in ChildrenOf(s, v);
    i :| i < |ChildrenOf(s, v)| && ChildrenOf(s, v)[i] == c;
  }

  lemma NotBothWays(xs: seq<Id>, x: Id, y: Id)
    requires NoDuplicates(xs) && SeenBefore(xs, x, y)
    ensures !SeenBefore(xs, y, x) && x != y
  {}

  lemma BranchesInOrder(s: TaskState, c: Id, d: Id, x: Id, y: Id)
    requires WellKept(s) && ParentFirst(s) && x in s.nodes && y in s.nodes
    requires EarlierSibling(s, c, d) && Under(s, c, x) && Under(s, d, y)
    ensures s.root in s.nodes && SeenBefore(Preorder(s, s.root), x, y)
  {
    var v := s.nodes[c].parent.value;
    ChildBelow(s, v, c);
    assert s.root in s.order;
    PreorderListsTask(s);
    var a, b := Segment(s, [s.root], v);
    var kids := ChildrenOf(s, v);
    var i := ListedAt(s, v, c);
    var j := ListedAt(s, v, d);
    NotBothWays(s.order, c, d);
    ChildrenInOrder(s, v);
    assert i < j;
    KidsApart(s, v);
    TopsInOrder(s, kids, i, j, x, y);
    SeenBeforeInside([v], Forest(s, kids), [], x, y);
    assert [v] + Forest(s, kids) + [] == [v] + Forest(s, kids);
    SeenBeforeInside(a, Group(s, v), b, x, y);
  }

  /** The preorder of a parent-first task is its depth-first listing in first-seen order. */
  lemma {:induction false} PreorderIsDepthFirst(s: TaskState)
    requires WellKept(s) && ParentFirst(s)
    ensures s.root in s.nodes && InDepthFirstOrder(s, Preorder(s, s.root))
  {
    assert s.root in s.order;
    forall x, y | x in s.nodes && y in s.nodes && (IsAbove(s, x, y) || OnEarlierBranch(s, x, y))
      ensures SeenBefore(Preorder(s, s.root), x, y)
    {
      if IsAbove(s, x, y) {
        AboveIsBefore(s, x, y);
      } else {
        var c, d :| EarlierSibling(s, c, d) && Under(s, c, x) && Under(s, d, y);
        BranchesInOrder(s, c, d, x, y);
      }
    }
  }
}
