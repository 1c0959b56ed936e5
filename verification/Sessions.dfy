/** Attaching undeclared requests to live sessions by shared prefix (crates/tailfin-ident/src/lib.rs),
    and why that search is a dictionary look-up. */
module Sessions {
  import opened Foundations
  import opened Digest

  /** A task root: named by the agent, or numbered by the index. */
  datatype Root = Named(name: string) | Inferred(n: nat) | Anonymous(n: nat)

  datatype Source = DeclaredSource | InferredSource(sharedDepth: nat) | AnonymousSource

  datatype Position = Position(root: Root, node: Root, parent: Option<Root>, source: Source)

  /** What the index is given: identity declared in headers, or else a digest, or nothing to go by. */
  datatype Request =
    | Declared(session: string, node: Option<string>, parent: Option<string>)
    | Undeclared(digest: Option<PrefixDigest>)

  datatype Live = Live(root: Root, digest: PrefixDigest, depthSeen: nat)

  datatype Index = Index(live: seq<Live>, next: nat)

  type Level = m: nat | m < LEVEL_COUNT

  function DeclaredPosition(session: string, node: Option<string>, parent: Option<string>): Position {
    Position(Named(session),
             Named(if node.Some? then node.value else session),
             if parent.Some? then Some(Named(parent.value)) else if node.Some? then Some(Named(session)) else None,
             DeclaredSource)
  }

  function RootPosition(root: Root, source: Source): Position {
    Position(root, root, None, source)
  }

  /** The two digests agree at level `m` and at every level below it. */
  predicate Joins(a: PrefixDigest, b: PrefixDigest, m: Level) {
    Agreement(a, b) > m
  }

  // ----- resolving -----

  /** The first of the sessions that match deepest, with its level index. */
  function BestMatch(live: seq<Live>, d: PrefixDigest, m: Level): (best: Option<(nat, nat)>)
    ensures best.Some? ==> best.value.0 < |live| && m <= best.value.1 < LEVEL_COUNT
                           && Agreement(live[best.value.0].digest, d) == best.value.1 + 1
    ensures best.None? ==> forall i :: 0 <= i < |live| ==> !Joins(live[i].digest, d, m)
    ensures best.Some? ==> forall i :: 0 <= i < |live| ==> Agreement(live[i].digest, d) <= best.value.1 + 1
    ensures best.Some? ==> forall i :: 0 <= i < best.value.0 ==> Agreement(live[i].digest, d) <= best.value.1
  {
    if live == [] then None
    else
      var i := |live| - 1;
      var best := BestMatch(live[..i], d, m);
      var n := Agreement(live[i].digest, d);
      if n > m && (best.None? || n - 1 > best.value.1) then Some((i, n - 1)) else best
  }

  function ResolveDigest(s: Index, d: PrefixDigest, m: Level): (Index, Position) {
    var best := BestMatch(s.live, d, m);
    if best.Some? then
      var (i, lv) := best.value;
      var shared := LEVELS[lv];
      var entry := s.live[i];
      (if shared > entry.depthSeen then s.(live := s.live[i := Live(entry.root, d, shared)]) else s,
       RootPosition(entry.root, InferredSource(shared)))
    else
      var root := Inferred(s.next + 1);
      (Index(s.live + [Live(root, d, 0)], s.next + 1), RootPosition(root, InferredSource(0)))
  }

  /** Every position away from its root names a parent. */
  function ResolveRequest(s: Index, r: Request, m: Level): (resolved: (Index, Position))
    ensures resolved.1.node != resolved.1.root ==> resolved.1.parent.Some?
  {
    match r
    case Declared(session, node, parent) => (s, DeclaredPosition(session, node, parent))
    case Undeclared(None) => (s.(next := s.next + 1), RootPosition(Anonymous(s.next + 1), AnonymousSource))
    case Undeclared(Some(d)) => ResolveDigest(s, d, m)
  }

  /** The sessions whose root is kept, in order. */
  function Kept(live: seq<Live>, keep: Root -> bool): seq<Live> {
    if live == [] then []
    else Kept(live[..|live| - 1], keep) + if keep(live[|live| - 1].root) then [live[|live| - 1]] else []
  }

  /** The index as an object that requests update. */
  class SessionIndex {
    var live: seq<Live>
    var next: nat
    const minLevel: Level

    ghost function State(): Index
      reads this
    {
      Index(live, next)
    }

    constructor (minLevel: nat)
      ensures State() == Index([], 0) && this.minLevel == Min(minLevel, LEVEL_COUNT - 1)
    {
      live, next, this.minLevel := [], 0, Min(minLevel, LEVEL_COUNT - 1);
    }

    method FindBest(d: PrefixDigest) returns (best: Option<(nat, nat)>)
      ensures best == BestMatch(live, d, minLevel)
    {
      best := None;
      for i := 0 to |live|
        invariant best == BestMatch(live[..i], d, minLevel)
      {
        assert live[..i + 1][..i] == live[..i];
        var level := MatchLevel(live[i].digest, d);
        if level.Some? && level.value >= minLevel && (best.None? || level.value > best.value.1) {
          best := Some((i, level.value));
        }
      }
      assert live[..|live|] == live;
    }

    method Resolve(r: Request) returns (at: Position)
      modifies this`live, this`next
      ensures (State(), at) == ResolveRequest(old(State()), r, minLevel)
    {
      match r {
        case Declared(session, node, parent) =>
          at := DeclaredPosition(session, node, parent);
        case Undeclared(None) =>
          next := next + 1;
          at := RootPosition(Anonymous(next), AnonymousSource);
        case Undeclared(Some(d)) =>
          var best := FindBest(d);
          if best.Some? {
            var (i, lv) := best.value;
            var shared := LEVELS[lv];
            if shared > live[i].depthSeen {
              live := live[i := Live(live[i].root, d, shared)];
            }
            at := RootPosition(live[i].root, InferredSource(shared));
          } else {
            next := next + 1;
            var root := Inferred(next);
            live := live + [Live(root, d, 0)];
            at := RootPosition(root, InferredSource(0));
          }
      }
    }

    method Retain(keep: Root -> bool)
      modifies this`live
      ensures State() == Index(Kept(old(live), keep), next)
    {
      var kept := [];
      for i := 0 to |live|
        invariant kept == Kept(live[..i], keep)
      {
        assert live[..i + 1][..i] == live[..i];
        if keep(live[i].root) {
          kept := kept + [live[i]];
        }
      }
      assert live[..|live|] == live;
      live := kept;
    }
  }

  // ----- keys -----

  /** The first `m + 1` level hashes, when the conversation is long enough to have them. */
  function Key(d: PrefixDigest, m: Level): Option<seq<Option<bv64>>> {
    if HasLevels(d, m) then Some(d[..m + 1]) else None
  }

  predicate HasLevels(d: PrefixDigest, m: Level) {
    forall i :: 0 <= i <= m ==> d[i].Some?
  }

  /** Digests join exactly when they have the same key. */
  lemma JoinsIsSameKey(a: PrefixDigest, b: PrefixDigest, m: Level)
    ensures Joins(a, b, m) <==> Key(a, m).Some? && Key(a, m) == Key(b, m)
  {
    AgreementIsMost(a, b, m + 1);
    if AgreeThrough(a, b, m + 1) {
      forall i | 0 <= i <= m ensures a[i].Some? && b[i].Some? && a[i] == b[i] {
        assert AgreeAt(a, b, i);
      }
      assert a[..m + 1] == b[..m + 1];
    }
    if Key(a, m).Some? && Key(a, m) == Key(b, m) {
      forall i | 0 <= i < m + 1 ensures AgreeAt(a, b, i) {
        assert a[..m + 1][i] == b[..m + 1][i];
      }
    }
  }

  // ----- separation -----

  /** No two live sessions match at the minimum level or deeper. */
  ghost predicate Separated(live: seq<Live>, m: Level) {
    forall i, j :: 0 <= i < j < |live| ==> !Joins(live[i].digest, live[j].digest, m)
  }

  /** At most one live session can match a digest, so the order of the scan cannot matter. */
  lemma {:induction false} AtMostOneMatch(live: seq<Live>, d: PrefixDigest, m: Level, i: nat, j: nat)
    requires Separated(live, m) && i < |live| && j < |live|
    requires Joins(live[i].digest, d, m) && Joins(live[j].digest, d, m)
    ensures i == j
  {}

  /** Replacing a session's digest by one that matched it keeps all sessions apart. */
  lemma {:induction false} ReplaceSeparated(live: seq<Live>, m: Level, i: nat, entry: Live)
    requires Separated(live, m) && i < |live| && Joins(live[i].digest, entry.digest, m)
    ensures Separated(live[i := entry], m)
  {}

  lemma ResolveSeparated(s: Index, r: Request, m: Level)
    requires Separated(s.live, m)
    ensures Separated(ResolveRequest(s, r, m).0.live, m)
  {
    if r.Undeclared? && r.digest.Some? {
      var best := BestMatch(s.live, r.digest.value, m);
      if best.Some? {
        var (i, lv) := best.value;
        ReplaceSeparated(s.live, m, i, Live(s.live[i].root, r.digest.value, LEVELS[lv]));
      }
    }
  }

  lemma {:induction false} KeptHolds(live: seq<Live>, keep: Root -> bool)
    ensures forall l :: l in Kept(live, keep) <==> l in live && keep(l.root)
    ensures |Kept(live, keep)| <= |live|
  {
    if live != [] {
      KeptHolds(live[..|live| - 1], keep);
      assert live == live[..|live| - 1] + [live[|live| - 1]];
    }
  }

  lemma {:induction false} KeptSeparated(live: seq<Live>, keep: Root -> bool, m: Level)
    requires Separated(live, m)
    ensures Separated(Kept(live, keep), m)
  {
    if live != [] {
      var init, last := live[..|live| - 1], live[|live| - 1];
      KeptSeparated(init, keep, m);
      KeptHolds(init, keep);
      forall l | l in Kept(init, keep) ensures !Joins(l.digest, last.digest, m) {
        var i :| 0 <= i < |init| && init[i] == l;
        assert live[i] == l;
      }
    }
  }

  // ----- the dictionary -----

  datatype Dictionary = Dictionary(roots: map<seq<Option<bv64>>, Root>, next: nat)

  /** Look the key up; open a new root if it is not there, or if there is no key. */
  function LookUp(dict: Dictionary, r: Request, m: Level): (Dictionary, Root) {
    match r
    case Declared(session, _, _) => (dict, Named(session))
    case Undeclared(None) => (dict.(next := dict.next + 1), Anonymous(dict.next + 1))
    case Undeclared(Some(d)) =>
      var key := Key(d, m);
      if key.Some? && key.value in dict.roots then (dict, dict.roots[key.value])
      else
        var root := Inferred(dict.next + 1);
        (Dictionary(if key.Some? then dict.roots[key.value := root] else dict.roots, dict.next + 1), root)
  }

  function Prune(dict: Dictionary, keep: Root -> bool): Dictionary {
    dict.(roots := map k | k in dict.roots && keep(dict.roots[k]) :: dict.roots[k])
  }

  /** The session is in the dictionary under its key, if it has one. */
  ghost predicate Entered(l: Live, dict: Dictionary, m: Level) {
    var key := Key(l.digest, m);
    key.Some? ==> key.value in dict.roots && dict.roots[key.value] == l.root
  }

  /** The index holds what the dictionary holds. */
  ghost predicate Represents(s: Index, dict: Dictionary, m: Level) {
    && s.next == dict.next && Separated(s.live, m)
    && (forall i :: 0 <= i < |s.live| ==> Entered(s.live[i], dict, m))
    && (forall k :: k in dict.roots ==> Holder(s.live, k, m))
  }

  ghost predicate Holder(live: seq<Live>, k: seq<Option<bv64>>, m: Level) {
    exists i :: 0 <= i < |live| && Key(live[i].digest, m) == Some(k)
  }

  lemma ResolveFound(s: Index, dict: Dictionary, d: PrefixDigest, m: Level)
    requires Represents(s, dict, m) && BestMatch(s.live, d, m).Some?
    ensures var (s', at) := ResolveDigest(s, d, m);
            var (dict', root) := LookUp(dict, Undeclared(Some(d)), m);
            at.root == root && Represents(s', dict', m)
  {
    var (i, lv) := BestMatch(s.live, d, m).value;
    JoinsIsSameKey(s.live[i].digest, d, m);
    ResolveSeparated(s, Undeclared(Some(d)), m);
    var (s', at) := ResolveDigest(s, d, m);
    assert |s'.live| == |s.live|;
    forall j | 0 <= j < |s.live| ensures Key(s'.live[j].digest, m) == Key(s.live[j].digest, m)
      ensures s'.live[j].root == s.live[j].root {}
    forall k | k in dict.roots ensures Holder(s'.live, k, m) {
      var j :| 0 <= j < |s.live| && Key(s.live[j].digest, m) == Some(k);
      assert Key(s'.live[j].digest, m) == Some(k);
    }
  }

  lemma ResolveNew(s: Index, dict: Dictionary, d: PrefixDigest, m: Level)
    requires Represents(s, dict, m) && BestMatch(s.live, d, m).None?
    ensures var (s', at) := ResolveDigest(s, d, m);
            var (dict', root) := LookUp(dict, Undeclared(Some(d)), m);
            at.root == root && Represents(s', dict', m)
  {
    var key := Key(d, m);
    forall i | 0 <= i < |s.live| ensures key.Some? ==> Key(s.live[i].digest, m) != key {
      JoinsIsSameKey(s.live[i].digest, d, m);
    }
    assert key.Some? ==> !Holder(s.live, key.value, m);
    ResolveSeparated(s, Undeclared(Some(d)), m);
    var (s', at) := ResolveDigest(s, d, m);
    var dict' := LookUp(dict, Undeclared(Some(d)), m).0;
    assert s'.live[|s.live|].digest == d;
    forall k | k in dict'.roots ensures Holder(s'.live, k, m) {
      if k in dict.roots {
        var j :| 0 <= j < |s.live| && Key(s.live[j].digest, m) == Some(k);
        assert s'.live[j] == s.live[j];
      } else {
        assert Key(s'.live[|s.live|].digest, m) == Some(k);
      }
    }
  }

  lemma ResolveRefines(s: Index, dict: Dictionary, r: Request, m: Level)
    requires Represents(s, dict, m)
    ensures ResolveRequest(s, r, m).1.root == LookUp(dict, r, m).1
    ensures Represents(ResolveRequest(s, r, m).0, LookUp(dict, r, m).0, m)
  {
    if r.Undeclared? && r.digest.Some? {
      if BestMatch(s.live, r.digest.value, m).Some? {
        ResolveFound(s, dict, r.digest.value, m);
      } else {
        ResolveNew(s, dict, r.digest.value, m);
      }
    }
  }

  lemma RetainRefines(s: Index, dict: Dictionary, keep: Root -> bool, m: Level)
    requires Represents(s, dict, m)
    ensures Represents(s.(live := Kept(s.live, keep)), Prune(dict, keep), m)
  {
    var kept := Kept(s.live, keep);
    KeptSeparated(s.live, keep, m);
    KeptHolds(s.live, keep);
    forall i | 0 <= i < |kept| ensures Entered(kept[i], Prune(dict, keep), m) {
      assert kept[i] in s.live && keep(kept[i].root);
      assert Entered(kept[i], dict, m);
    }
    forall k | k in Prune(dict, keep).roots ensures Holder(kept, k, m) {
      KeptHolder(s, dict, keep, m, k);
    }
  }

  lemma KeptHolder(s: Index, dict: Dictionary, keep: Root -> bool, m: Level, k: seq<Option<bv64>>)
    requires Represents(s, dict, m) && k in dict.roots && keep(dict.roots[k])
    ensures Holder(Kept(s.live, keep), k, m)
  {
    assert Holder(s.live, k, m);
    var j :| 0 <= j < |s.live| && Key(s.live[j].digest, m) == Some(k);
    assert Entered(s.live[j], dict, m);
    KeptHolds(s.live, keep);
    assert s.live[j] in Kept(s.live, keep);
  }

  // ----- whole runs -----

  datatype Op = Ask(request: Request) | Forget(keep: Root -> bool)

  ghost function IndexAfter(ops: seq<Op>, m: Level): Index {
    if ops == [] then Index([], 0)
    else
      var s, op := IndexAfter(ops[..|ops| - 1], m), ops[|ops| - 1];
      if op.Ask? then ResolveRequest(s, op.request, m).0 else s.(live := Kept(s.live, op.keep))
  }

  ghost function DictionaryAfter(ops: seq<Op>, m: Level): Dictionary {
    if ops == [] then Dictionary(map[], 0)
    else
      var dict, op := DictionaryAfter(ops[..|ops| - 1], m), ops[|ops| - 1];
      if op.Ask? then LookUp(dict, op.request, m).0 else Prune(dict, op.keep)
  }

  /** Session refinement and separation: after any run of requests and clean-ups, live sessions are pairwise
      apart, and the next request, whatever it is, gets the root that a dictionary keyed by the first
      `m + 1` level hashes would give it. */
  lemma {:induction false} IndexIsDictionary(ops: seq<Op>, m: Level, r: Request)
    ensures Represents(IndexAfter(ops, m), DictionaryAfter(ops, m), m)
    ensures Separated(IndexAfter(ops, m).live, m)
    ensures ResolveRequest(IndexAfter(ops, m), r, m).1.root == LookUp(DictionaryAfter(ops, m), r, m).1
  {
    if ops != [] {
      var init, op := ops[..|ops| - 1], ops[|ops| - 1];
      IndexIsDictionary(init, m, r);
      if op.Ask? {
        ResolveRefines(IndexAfter(init, m), DictionaryAfter(init, m), op.request, m);
      } else {
        RetainRefines(IndexAfter(init, m), DictionaryAfter(init, m), op.keep, m);
      }
    }
    ResolveRefines(IndexAfter(ops, m), DictionaryAfter(ops, m), r, m);
  }

  /** A conversation too short to have level `m` always opens a new root. */
  lemma {:induction false} ShortOpensNew(ops: seq<Op>, m: Level, d: PrefixDigest)
    requires !HasLevels(d, m)
    ensures var s := IndexAfter(ops, m);
            ResolveRequest(s, Undeclared(Some(d)), m).1.root == Inferred(s.next + 1)
  {}

  // ----- who shares a root -----

  /** Every root in the dictionary was numbered, and no two keys have the same one. */
  ghost predicate Numbered(dict: Dictionary) {
    && (forall k :: k in dict.roots ==> dict.roots[k].Inferred? && dict.roots[k].n <= dict.next)
    && (forall k, l :: k in dict.roots && l in dict.roots && dict.roots[k] == dict.roots[l] ==> k == l)
  }

  lemma {:induction false} DictionaryNumbered(ops: seq<Op>, m: Level)
    ensures Numbered(DictionaryAfter(ops, m))
  {
    if ops != [] {
      DictionaryNumbered(ops[..|ops| - 1], m);
    }
  }

  /** `root` was given out under `key` and, while `alive`, is what the dictionary has for that key and for
      no other; once forgotten it never comes back. */
  ghost predicate Owns(dict: Dictionary, root: Root, key: Option<seq<Option<bv64>>>, alive: bool) {
    && root.Inferred? && root.n <= dict.next
    && (alive && key.Some? ==> key.value in dict.roots)
    && forall k :: k in dict.roots ==> (dict.roots[k] == root <==> alive && key == Some(k))
  }

  lemma OwnsFromStart(dict: Dictionary, d: PrefixDigest, m: Level)
    requires Numbered(dict)
    ensures var (after, root) := LookUp(dict, Undeclared(Some(d)), m); Owns(after, root, Key(d, m), true)
  {}

  lemma OwnsNext(dict: Dictionary, op: Op, m: Level, root: Root, key: Option<seq<Option<bv64>>>, alive: bool)
    requires Owns(dict, root, key, alive)
    ensures op.Ask? ==> Owns(LookUp(dict, op.request, m).0, root, key, alive)
    ensures op.Forget? ==> Owns(Prune(dict, op.keep), root, key, alive && op.keep(root))
  {}

  /** No clean-up strictly between two moments of the run dropped the root. */
  ghost predicate Survives(ops: seq<Op>, i: nat, j: nat, root: Root) {
    forall u :: i < u < j && u < |ops| && ops[u].Forget? ==> ops[u].keep(root)
  }

  lemma {:induction false} OwnsLater(ops: seq<Op>, m: Level, i: nat, j: nat, d: PrefixDigest)
    requires i < j <= |ops| && ops[i] == Ask(Undeclared(Some(d)))
    ensures var root := LookUp(DictionaryAfter(ops[..i], m), Undeclared(Some(d)), m).1;
            Owns(DictionaryAfter(ops[..j], m), root, Key(d, m), Survives(ops, i, j, root))
    decreases j
  {
    var root := LookUp(DictionaryAfter(ops[..i], m), Undeclared(Some(d)), m).1;
    assert ops[..j][..j - 1] == ops[..j - 1] && ops[..j][j - 1] == ops[j - 1];
    if j == i + 1 {
      DictionaryNumbered(ops[..i], m);
      OwnsFromStart(DictionaryAfter(ops[..i], m), d, m);
    } else {
      OwnsLater(ops, m, i, j - 1, d);
      OwnsNext(DictionaryAfter(ops[..j - 1], m), ops[j - 1], m, root, Key(d, m), Survives(ops, i, j - 1, root));
      SurvivesNext(ops, i, j - 1, root);
    }
  }

  lemma SurvivesNext(ops: seq<Op>, i: nat, j: nat, root: Root)
    requires i < j < |ops|
    ensures Survives(ops, i, j + 1, root) <==> Survives(ops, i, j, root) && (ops[j].Forget? ==> ops[j].keep(root))
  {}

  /** The root the index gives to the request at position `i` of the run. */
  ghost function RootAt(ops: seq<Op>, m: Level, i: nat): Root
    requires i < |ops| && ops[i].Ask?
  {
    ResolveRequest(IndexAfter(ops[..i], m), ops[i].request, m).1.root
  }

  /** Two undeclared requests of a run are given the same root if and only if their digests have the same
      key and no clean-up between them dropped it. */
  lemma {:induction false} SameRootIffSameKey(ops: seq<Op>, m: Level, i: nat, j: nat, a: PrefixDigest, b: PrefixDigest)
    requires i < j < |ops| && ops[i] == Ask(Undeclared(Some(a))) && ops[j] == Ask(Undeclared(Some(b)))
    ensures RootAt(ops, m, i) == RootAt(ops, m, j) <==>
            Key(a, m).Some? && Key(a, m) == Key(b, m) && Survives(ops, i, j, RootAt(ops, m, i))
  {
    IndexIsDictionary(ops[..i], m, ops[i].request);
    IndexIsDictionary(ops[..j], m, ops[j].request);
    OwnsLater(ops, m, i, j, a);
  }
}
