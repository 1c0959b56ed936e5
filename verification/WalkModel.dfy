/** Depth-first walks with an explicit stack: what they visit on any parent map, and the recursive
    preorder they produce on parent-first tasks. */
module WalkModel {
  import opened Foundations
  import opened TaskModel
  import opened Ancestry

  // ----- any parent map -----

  /** Children of visited identifiers are visited or waiting, and only identifiers below `top` are. */
  ghost predicate Frontier(s: TaskState, top: Id, seen: set<Id>, stack: seq<Id>) {
    && (top in seen || top in stack)
    && (forall y :: y in seen || y in stack ==> (y in s.nodes || y == top) && Under(s, top, y))
    && (forall y, c :: y in seen && c in ChildSet(s, y) ==> c in seen || c in stack)
  }

  lemma FrontierStart(s: TaskState, top: Id)
    ensures Frontier(s, top, {}, [top])
  {
    UnderSelf(s, top);
  }

  lemma FrontierSkip(s: TaskState, top: Id, seen: set<Id>, rest: seq<Id>, x: Id)
    requires Frontier(s, top, seen, rest + [x]) && x in seen
    ensures Frontier(s, top, seen, rest)
  {
    assert forall y :: y in rest + [x] <==> y in rest || y == x;
  }

  lemma FrontierVisit(s: TaskState, top: Id, seen: set<Id>, rest: seq<Id>, x: Id, kids: seq<Id>)
    requires Frontier(s, top, seen, rest + [x])
    requires forall c :: c in kids <==> c in ChildSet(s, x)
    ensures Frontier(s, top, seen + {x}, rest + kids)
  {
    assert forall y :: y in rest + [x] <==> y in rest || y == x;
    assert forall y :: y in rest + kids <==> y in rest || y in kids;
    assert x in rest + [x];
    forall c | c in kids ensures c in s.nodes && Under(s, top, c) {
      UnderStep(s, top, c);
    }
  }

  /** When nothing waits, exactly the nodes below `top` have been visited, cyclic parents or not. */
  lemma {:induction false} FrontierDone(s: TaskState, top: Id, seen: set<Id>)
    requires Frontier(s, top, seen, [])
    ensures seen * s.nodes.Keys == Family(s, top)
  {
    forall x | x in Family(s, top) ensures x in seen {
      var k: nat :| Up(s, x, k) == Some(top);
      ClosedHoldsFamily(s, top, seen, x, k);
    }
  }

  // ----- the recursive preorder -----

  function MinRank(order: seq<Id>, xs: seq<Id>): nat
    requires forall x :: x in xs ==> x in order
  {
    if xs == [] then |order| else Min(Rank(order, xs[0]), MinRank(order, xs[1..]))
  }

  lemma {:induction false} MinRankBound(order: seq<Id>, xs: seq<Id>, lo: nat)
    requires forall x :: x in xs ==> x in order && lo <= Rank(order, x)
    requires lo <= |order|
    ensures lo <= MinRank(order, xs)
  {
    if xs != [] {
      MinRankBound(order, xs[1..], lo);
    }
  }

  lemma KidsRankHigher(s: TaskState, v: Id)
    requires WellKept(s) && ParentFirst(s) && v in s.nodes
    ensures forall x :: x in ChildrenOf(s, v) ==> x in s.nodes
    ensures Rank(s.order, v) < MinRank(s.order, ChildrenOf(s, v))
  {
    ChildrenListed(s, v);
    forall x | x in ChildrenOf(s, v) ensures x in s.order && Rank(s.order, v) + 1 <= Rank(s.order, x) {
      ChildBelow(s, v, x);
    }
    MinRankBound(s.order, ChildrenOf(s, v), Rank(s.order, v) + 1);
  }

  /** The subtrees of `todo`, one after the other, each node before its children and children in
      first-seen order. */
  ghost function Forest(s: TaskState, todo: seq<Id>): seq<Id>
    requires WellKept(s) && ParentFirst(s)
    requires forall x :: x in todo ==> x in s.nodes
    decreases |s.order| - MinRank(s.order, todo), |todo|
  {
    if todo == [] then []
    else
      KidsRankHigher(s, todo[0]);
      [todo[0]] + Forest(s, ChildrenOf(s, todo[0])) + Forest(s, todo[1..])
  }

  ghost function Preorder(s: TaskState, v: Id): seq<Id>
    requires WellKept(s) && ParentFirst(s) && v in s.nodes
  {
    Forest(s, [v])
  }

  lemma {:induction false} ForestAppend(s: TaskState, a: seq<Id>, b: seq<Id>)
    requires WellKept(s) && ParentFirst(s)
    requires forall x :: x in a || x in b ==> x in s.nodes
    ensures Forest(s, a + b) == Forest(s, a) + Forest(s, b)
    decreases |a|
  {
    if a == [] {
      assert a + b == b;
    } else {
      assert (a + b)[1..] == a[1..] + b;
      ForestAppend(s, a[1..], b);
      KidsRankHigher(s, a[0]);
      var kids := Forest(s, ChildrenOf(s, a[0]));
      assert [a[0]] + kids + (Forest(s, a[1..]) + Forest(s, b)) == [a[0]] + kids + Forest(s, a[1..]) + Forest(s, b);
    }
  }

  ghost function Elements(xs: seq<Id>): set<Id> { set x | x in xs }

  ghost predicate TopsApart(s: TaskState, todo: seq<Id>) {
    NoDuplicates(todo) && AllApart(s, Elements(todo))
  }

  lemma KidsApart(s: TaskState, v: Id)
    requires WellKept(s) && ParentFirst(s) && v in s.nodes
    ensures TopsApart(s, ChildrenOf(s, v)) && Elements(ChildrenOf(s, v)) == ChildSet(s, v)
  {
    ChildrenListed(s, v);
    forall a, b | a in ChildSet(s, v) && b in ChildSet(s, v) && a != b ensures Apart(s, a, b) {
      SiblingsApart(s, v, a, b);
    }
  }

  lemma ConcatDistinct<T>(xs: seq<T>, ys: seq<T>)
    requires NoDuplicates(xs) && NoDuplicates(ys) && forall x :: x in xs ==> x !in ys
    ensures NoDuplicates(xs + ys)
  {
    forall i, j | 0 <= i < j < |xs + ys| ensures (xs + ys)[i] != (xs + ys)[j] {
      if i < |xs| <= j {
        assert xs[i] in xs && ys[j - |xs|] in ys;
      }
    }
  }

  /** The preorder of unrelated tops lists exactly what is below them, nothing twice. */
  lemma {:induction false} ForestListsFamilies(s: TaskState, todo: seq<Id>)
    requires WellKept(s) && ParentFirst(s)
    requires forall x :: x in todo ==> x in s.nodes
    requires TopsApart(s, todo)
    ensures NoDuplicates(Forest(s, todo))
    ensures Elements(Forest(s, todo)) == Families(s, Elements(todo))
    decreases |s.order| - MinRank(s.order, todo), |todo|
  {
    if todo == [] {
      assert Families(s, Elements(todo)) == {};
    } else {
      var v, rest := todo[0], todo[1..];
      KidsRankHigher(s, v);
      KidsApart(s, v);
      FamilySplits(s, v);
      assert Elements(todo) - {v} == Elements(rest);
      ForestListsFamilies(s, ChildrenOf(s, v));
      ForestListsFamilies(s, rest);
      FamiliesTakeOut(s, Elements(todo), v);
      ForestPieces(v, Forest(s, ChildrenOf(s, v)), Forest(s, rest));
    }
  }

  lemma ForestPieces(v: Id, kids: seq<Id>, rest: seq<Id>)
    requires NoDuplicates(kids) && NoDuplicates(rest) && v !in Elements(kids)
    requires {v} + Elements(kids) !! Elements(rest)
    ensures NoDuplicates([v] + kids + rest)
    ensures Elements([v] + kids + rest) == {v} + Elements(kids) + Elements(rest)
  {
    assert v !in kids;
    ConcatDistinct([v], kids);
    forall x | x in [v] + kids ensures x !in rest {
      assert x in {v} + Elements(kids);
      assert x in rest ==> x in Elements(rest);
    }
    ConcatDistinct([v] + kids, rest);
  }

  /** The preorder of a parent-first task lists every node of the task exactly once. */
  lemma {:induction false} PreorderListsTask(s: TaskState)
    requires WellKept(s) && ParentFirst(s)
    ensures NoDuplicates(Preorder(s, s.root))
    ensures forall x :: x in Preorder(s, s.root) <==> x in s.nodes
  {
    assert s.root in s.order;
    assert Elements([s.root]) == {s.root};
    ForestListsFamilies(s, [s.root]);
    forall x ensures x in Preorder(s, s.root) <==> x in s.nodes {
      assert x in Preorder(s, s.root) <==> x in Elements(Preorder(s, s.root));
      if x in s.nodes {
        EverythingUnderRoot(s, x);
        assert UnderSome(s, {s.root}, x);
      }
    }
  }

  // ----- stacks, seen from the top -----

  function Reversed<T>(xs: seq<T>): seq<T> {
    if xs == [] then [] else Reversed(xs[1..]) + [xs[0]]
  }

  lemma {:induction false} ReversedConcat<T>(xs: seq<T>, ys: seq<T>)
    ensures Reversed(xs + ys) == Reversed(ys) + Reversed(xs)
  {
    if xs == [] {
      assert xs + ys == ys;
    } else {
      assert (xs + ys)[1..] == xs[1..] + ys;
      ReversedConcat(xs[1..], ys);
    }
  }

  lemma {:induction false} ReversedElements<T>(xs: seq<T>)
    ensures |Reversed(xs)| == |xs|
    ensures forall x :: x in Reversed(xs) <==> x in xs
  {
    if xs != [] {
      ReversedElements(xs[1..]);
      assert xs == [xs[0]] + xs[1..];
    }
  }
}
