/** How much of a conversation an attribution claims to share, and how a session follows the conversation as it grows
    (crates/tailfin-ident/src/lib.rs). */
module SessionDepths {
  import opened Foundations
  import opened Fnv
  import opened Digest
  import opened Sessions

  // ----- one request -----

  /** A declared request is taken at its word and leaves the index alone: its root is the session, its node the agent if
      one is named, and its parent the parent named, else the session if an agent is named. */
  lemma DeclaredIsTaken(s: Index, session: string, node: Option<string>, parent: Option<string>, m: Level)
    ensures var (after, at) := ResolveRequest(s, Declared(session, node, parent), m);
            && after == s && at.root == Named(session) && at.source == DeclaredSource
            && (node.None? ==> at.node == at.root)
            && (forall x :: node == Some(x) ==> at.node == Named(x))
            && (forall p :: parent == Some(p) ==> at.parent == Some(Named(p)))
            && (parent.None? ==> at.parent == if node.Some? then Some(at.root) else None)
  {}

  /** A request with nothing to go by gets a root of its own. */
  lemma AnonymousIsAlone(s: Index, m: Level)
    ensures var (after, at) := ResolveRequest(s, Undeclared(None), m);
            && after == Index(s.live, s.next + 1) && at == RootPosition(Anonymous(s.next + 1), AnonymousSource)
  {}

  /** What an attribution claims: the depth that the session's digest and the request's really agree on, never less than
      the minimum; and no live session agrees with the request on more. */
  lemma {:induction false} ClaimIsDeepest(s: Index, d: PrefixDigest, m: Level)
    ensures var at := ResolveRequest(s, Undeclared(Some(d)), m).1;
            && at.node == at.root && at.parent == None && at.source.InferredSource?
            && (if exists i :: 0 <= i < |s.live| && Joins(s.live[i].digest, d, m)
                then && (exists i :: 0 <= i < |s.live| && s.live[i].root == at.root
                                     && SharedDepth(s.live[i].digest, d) == at.source.sharedDepth)
                     && at.source.sharedDepth >= LEVELS[m]
                     && forall i :: 0 <= i < |s.live| ==> SharedDepth(s.live[i].digest, d) <= at.source.sharedDepth
                else at.source.sharedDepth == 0 && at.root == Inferred(s.next + 1))
  {
    var best := BestMatch(s.live, d, m);
    if best.Some? {
      var (i, lv) := best.value;
      DepthsGrow(m + 1, lv + 1);
      forall j | 0 <= j < |s.live| ensures SharedDepth(s.live[j].digest, d) <= LEVELS[lv] {
        DepthsGrow(Agreement(s.live[j].digest, d), lv + 1);
      }
      assert SharedDepth(s.live[i].digest, d) == LEVELS[lv];
    }
  }

  // ----- the same conversation again -----

  lemma OnlyMatch(live: seq<Live>, d: PrefixDigest, m: Level, i: nat)
    requires Separated(live, m) && i < |live| && Joins(live[i].digest, d, m)
    ensures BestMatch(live, d, m) == Some((i, Agreement(live[i].digest, d) - 1))
  {
    var best := BestMatch(live, d, m);
    assert best.Some?;
    AtMostOneMatch(live, d, m, i, best.value.0);
  }

  lemma SelfJoins(d: PrefixDigest, m: Level)
    requires HasLevels(d, m)
    ensures Joins(d, d, m)
  {
    AgreementIsMost(d, d, m + 1);
  }

  /** A session follows its conversation. Asked twice about the same conversation, the index gives the same root; and if
      the first answer opened the session or reached deeper than the session had ever been seen, the second claims all
      that the conversation has, otherwise it repeats the first and changes nothing. */
  lemma {:induction false} AskedAgain(s: Index, d: PrefixDigest, m: Level)
    requires Separated(s.live, m) && HasLevels(d, m)
    ensures var best := BestMatch(s.live, d, m);
            var (s1, first) := ResolveRequest(s, Undeclared(Some(d)), m);
            var (s2, second) := ResolveRequest(s1, Undeclared(Some(d)), m);
            && second.root == first.root
            && (best.None? || first.source.sharedDepth > s.live[best.value.0].depthSeen ==>
                  second.source == InferredSource(SharedDepth(d, d)))
            && (best.Some? && first.source.sharedDepth <= s.live[best.value.0].depthSeen ==>
                  s1 == s && second == first && s2 == s)
  {
    var best := BestMatch(s.live, d, m);
    var s1 := ResolveRequest(s, Undeclared(Some(d)), m).0;
    ResolveSeparated(s, Undeclared(Some(d)), m);
    SelfJoins(d, m);
    if best.None? {
      assert s1.live[|s.live|].digest == d;
      OnlyMatch(s1.live, d, m, |s.live|);
    } else if LEVELS[best.value.1] > s.live[best.value.0].depthSeen {
      assert s1.live[best.value.0].digest == d;
      OnlyMatch(s1.live, d, m, best.value.0);
    }
  }

  // ----- whole runs -----

  /** The deepest share that any request of the run was told for a root. */
  ghost function DeepestClaim(ops: seq<Op>, m: Level, root: Root): nat {
    if ops == [] then 0
    else
      var init, op := ops[..|ops| - 1], ops[|ops| - 1];
      if op.Ask? && op.request.Undeclared? && op.request.digest.Some? then
        var at := ResolveRequest(IndexAfter(init, m), op.request, m).1;
        if at.root == root && at.source.InferredSource?
        then Max(DeepestClaim(init, m, root), at.source.sharedDepth)
        else DeepestClaim(init, m, root)
      else DeepestClaim(init, m, root)
  }

  /** Live roots are numbered, distinct, and not ahead of the counter. */
  ghost predicate DistinctRoots(live: seq<Live>, next: nat) {
    && (forall i :: 0 <= i < |live| ==> live[i].root.Inferred? && live[i].root.n <= next)
    && forall i, j :: 0 <= i < j < |live| ==> live[i].root != live[j].root
  }

  lemma KeptAt(live: seq<Live>, keep: Root -> bool, l: Live) returns (i: nat)
    requires l in Kept(live, keep)
    ensures i < |live| && live[i] == l
  {
    KeptHolds(live, keep);
    i :| i < |live| && live[i] == l;
  }

  lemma {:induction false} KeptDistinct(live: seq<Live>, next: nat, keep: Root -> bool)
    requires DistinctRoots(live, next)
    ensures DistinctRoots(Kept(live, keep), next)
  {
    if live != [] {
      var init, last := live[..|live| - 1], live[|live| - 1];
      KeptDistinct(init, next, keep);
      forall j | 0 <= j < |Kept(init, keep)| ensures Kept(init, keep)[j].root != last.root {
        var i := KeptAt(init, keep, Kept(init, keep)[j]);
        assert live[i] == init[i];
      }
    }
  }

  /** What is true of the depths after every run: nothing has been claimed for roots that were never given out, and each
      live session remembers the deepest claim made for its root. */
  ghost predicate DepthsKnown(ops: seq<Op>, m: Level) {
    var s := IndexAfter(ops, m);
    && DistinctRoots(s.live, s.next)
    && (forall n :: n > s.next ==> DeepestClaim(ops, m, Inferred(n)) == 0)
    && forall l :: l in s.live ==> l.depthSeen == DeepestClaim(ops, m, l.root)
  }

  lemma AskNew(s: Index, d: PrefixDigest, m: Level)
    requires BestMatch(s.live, d, m).None?
    ensures ResolveDigest(s, d, m) ==
              (Index(s.live + [Live(Inferred(s.next + 1), d, 0)], s.next + 1),
               RootPosition(Inferred(s.next + 1), InferredSource(0)))
  {}

  lemma AskFound(s: Index, d: PrefixDigest, m: Level) returns (i: nat, shared: nat)
    requires BestMatch(s.live, d, m).Some?
    ensures i < |s.live| && BestMatch(s.live, d, m).value.0 == i
    ensures ResolveDigest(s, d, m).1 == RootPosition(s.live[i].root, InferredSource(shared))
    ensures var after := ResolveDigest(s, d, m).0;
            && after.next == s.next && |after.live| == |s.live|
            && (forall j :: 0 <= j < |s.live| && j != i ==> after.live[j] == s.live[j])
            && after.live[i].root == s.live[i].root && after.live[i].depthSeen == Max(s.live[i].depthSeen, shared)
  {
    var best := BestMatch(s.live, d, m).value;
    i, shared := best.0, LEVELS[best.1];
  }

  lemma DepthsAfterAsk(init: seq<Op>, d: PrefixDigest, m: Level)
    requires DepthsKnown(init, m)
    ensures DepthsKnown(init + [Ask(Undeclared(Some(d)))], m)
  {
    var ops := init + [Ask(Undeclared(Some(d)))];
    assert ops[..|ops| - 1] == init;
    var s, s' := IndexAfter(init, m), IndexAfter(ops, m);
    assert s' == ResolveDigest(s, d, m).0;
    if BestMatch(s.live, d, m).None? {
      AskNew(s, d, m);
      assert forall root :: DeepestClaim(ops, m, root) == DeepestClaim(init, m, root);
    } else {
      var i, shared := AskFound(s, d, m);
      assert s.live[i] in s.live;
      forall j | 0 <= j < |s.live| ensures s'.live[j].depthSeen == DeepestClaim(ops, m, s'.live[j].root) {
        assert s.live[j] in s.live;
      }
    }
  }

  /** Over every run, a live session has seen exactly as deep as the deepest claim any request was told for its root. */
  lemma {:induction false} DepthSeenIsDeepestClaim(ops: seq<Op>, m: Level)
    ensures DepthsKnown(ops, m)
  {
    if ops != [] {
      var init, op := ops[..|ops| - 1], ops[|ops| - 1];
      assert ops == init + [op];
      DepthSeenIsDeepestClaim(init, m);
      var s := IndexAfter(init, m);
      match op {
        case Ask(Undeclared(Some(d))) => DepthsAfterAsk(init, d, m);
        case Ask(_) =>
        case Forget(keep) =>
          KeptDistinct(s.live, s.next, keep);
          KeptHolds(s.live, keep);
      }
    }
  }

  // ----- clean-up -----

  /** Cleaning up keeps the sessions whose root is kept, in order: it works on each part of the list by itself. */
  lemma {:induction false} KeptInOrder(a: seq<Live>, b: seq<Live>, l: Live, keep: Root -> bool)
    ensures Kept(a + b, keep) == Kept(a, keep) + Kept(b, keep)
    ensures Kept([l], keep) == if keep(l.root) then [l] else []
    decreases |b|
  {
    if b == [] {
      assert a + b == a;
    } else {
      assert (a + b)[..|a + b| - 1] == a + b[..|b| - 1];
      KeptInOrder(a, b[..|b| - 1], l, keep);
    }
    assert [l][..0] == [];
  }
}
