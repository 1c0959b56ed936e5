/** Rolling prefix digests of conversations (crates/tailfin-ident/src/lib.rs). */
module Digest {
  import opened Foundations
  import opened Fnv

  const LEVELS: seq<nat> := [1, 2, 4, 8, 16, 32]
  const LEVEL_COUNT: nat := 6
  const SEPARATOR: Message := [0x1e]

  /** Hashes of a conversation's prefixes, one per level; a level is None when the conversation is shorter. */
  type PrefixDigest = levels: seq<Option<bv64>> | |levels| == LEVEL_COUNT
    witness [None, None, None, None, None, None]

  // ----- hashing -----

  /** The hash of a whole list of messages, each closed by a separator. */
  function Rolling(messages: seq<Message>): bv64 {
    if messages == [] then FNV_OFFSET
    else Hash(Hash(Rolling(messages[..|messages| - 1]), messages[|messages| - 1]), SEPARATOR)
  }

  function LevelHash(messages: seq<Message>, li: nat): Option<bv64>
    requires li < LEVEL_COUNT
  {
    if LEVELS[li] <= |messages| then Some(Rolling(messages[..LEVELS[li]])) else None
  }

  function DigestOf(messages: seq<Message>): PrefixDigest {
    seq(LEVEL_COUNT, li requires 0 <= li < LEVEL_COUNT => LevelHash(messages, li))
  }

  /** The levels filled in after the first `n` messages. */
  ghost predicate FilledTo(levels: seq<Option<bv64>>, messages: seq<Message>, n: nat) {
    |levels| == LEVEL_COUNT
    && forall li :: 0 <= li < LEVEL_COUNT ==>
         levels[li] == if LEVELS[li] <= n then LevelHash(messages, li) else None
  }

  /** Digests in one pass, stopping at the deepest level. */
  method FromMessages(messages: seq<Message>) returns (d: PrefixDigest)
    ensures d == DigestOf(messages)
  {
    var levels: PrefixDigest := [None, None, None, None, None, None];
    FilledStart(messages);
    var rolling := FNV_OFFSET;
    var idx := 0;
    while idx < |messages| && idx < 32
      invariant idx <= |messages| && idx <= 32
      invariant rolling == Rolling(messages[..idx])
      invariant FilledTo(levels, messages, idx)
    {
      RollingNext(messages, idx);
      rolling := Fnv1a(rolling, messages[idx]);
      rolling := Fnv1a(rolling, SEPARATOR);
      idx := idx + 1;
      levels := FillLevel(levels, idx, rolling, messages);
    }
    FilledDone(levels, messages, idx);
    d := levels;
  }

  lemma RollingNext(messages: seq<Message>, i: nat)
    requires i < |messages|
    ensures Rolling(messages[..i + 1]) == Hash(Hash(Rolling(messages[..i]), messages[i]), SEPARATOR)
  {
    assert messages[..i + 1][..i] == messages[..i];
  }

  lemma FilledStart(messages: seq<Message>)
    ensures FilledTo([None, None, None, None, None, None], messages, 0)
  {}

  lemma FilledDone(levels: PrefixDigest, messages: seq<Message>, n: nat)
    requires FilledTo(levels, messages, n) && n <= |messages| && (n == |messages| || 32 <= n)
    ensures levels == DigestOf(messages)
  {
    forall li | 0 <= li < LEVEL_COUNT ensures levels[li] == LevelHash(messages, li) {
      assert LEVELS[li] <= 32;
    }
  }

  /** Stores the rolling hash at the level whose depth has just been reached, if there is one. */
  method FillLevel(levels: PrefixDigest, depth: nat, rolling: bv64, ghost messages: seq<Message>)
    returns (filled: PrefixDigest)
    requires 0 < depth <= |messages| && rolling == Rolling(messages[..depth])
    requires FilledTo(levels, messages, depth - 1)
    ensures FilledTo(filled, messages, depth)
  {
    filled := levels;
    for li := 0 to LEVEL_COUNT
      invariant forall j :: 0 <= j < LEVEL_COUNT ==>
        filled[j] == if LEVELS[j] < depth || (LEVELS[j] == depth && j < li) then LevelHash(messages, j) else None
    {
      if depth == LEVELS[li] {
        filled := filled[li := Some(rolling)];
      }
    }
  }

  // ----- comparing digests -----

  predicate AgreeAt(a: PrefixDigest, b: PrefixDigest, i: nat)
    requires i < LEVEL_COUNT
  {
    a[i].Some? && a[i] == b[i]
  }

  /** Levels agreed on from level `i` upwards, without a gap. */
  function AgreementFrom(a: PrefixDigest, b: PrefixDigest, i: nat): (n: nat)
    requires i <= LEVEL_COUNT
    ensures i <= n <= LEVEL_COUNT
    ensures forall j :: i <= j < n ==> AgreeAt(a, b, j)
    ensures n < LEVEL_COUNT ==> !AgreeAt(a, b, n)
    decreases LEVEL_COUNT - i
  {
    if i < LEVEL_COUNT && AgreeAt(a, b, i) then AgreementFrom(a, b, i + 1) else i
  }

  /** The first `k` levels all agree. */
  ghost predicate AgreeThrough(a: PrefixDigest, b: PrefixDigest, k: nat)
    requires k <= LEVEL_COUNT
  {
    forall j :: 0 <= j < k ==> AgreeAt(a, b, j)
  }

  /** How many levels, counted from the shallowest, two digests agree on. */
  function Agreement(a: PrefixDigest, b: PrefixDigest): (n: nat)
    ensures n <= LEVEL_COUNT && AgreeThrough(a, b, n)
    ensures n < LEVEL_COUNT ==> !AgreeAt(a, b, n)
  {
    AgreementFrom(a, b, 0)
  }

  lemma AgreementIsMost(a: PrefixDigest, b: PrefixDigest, k: nat)
    requires k <= LEVEL_COUNT
    ensures k <= Agreement(a, b) <==> AgreeThrough(a, b, k)
  {
    if Agreement(a, b) < k {
      assert !AgreeAt(a, b, Agreement(a, b));
    }
  }

  /** The deepest level index at which two digests agree, if any. */
  method MatchLevel(a: PrefixDigest, b: PrefixDigest) returns (best: Option<nat>)
    ensures best == LevelOf(Agreement(a, b))
  {
    best := None;
    var i := 0;
    while i < LEVEL_COUNT
      invariant i <= LEVEL_COUNT && best == LevelOf(i)
      invariant AgreementFrom(a, b, i) == Agreement(a, b)
    {
      if !AgreeAt(a, b, i) {
        return;
      }
      best := Some(i);
      i := i + 1;
    }
  }

  function LevelOf(agreement: nat): Option<nat> {
    if agreement == 0 then None else Some(agreement - 1)
  }

  /** Agreement is an ultrametric: what two digests each share with a third, they share with each other. */
  lemma {:induction false} Ultrametric(a: PrefixDigest, b: PrefixDigest, c: PrefixDigest)
    ensures Agreement(a, b) == Agreement(b, a)
    ensures Min(Agreement(a, b), Agreement(b, c)) <= Agreement(a, c)
  {}

  // ----- what agreement says about the conversations -----

  function SharedDepth(a: PrefixDigest, b: PrefixDigest): nat {
    DepthOf(Agreement(a, b))
  }

  function DepthOf(agreement: nat): nat
    requires agreement <= LEVEL_COUNT
  {
    if agreement == 0 then 0 else LEVELS[agreement - 1]
  }

  /** The number of leading messages two conversations have in common. */
  function CommonPrefix(a: seq<Message>, b: seq<Message>): (n: nat)
    ensures n <= |a| && n <= |b| && a[..n] == b[..n]
    ensures n < |a| && n < |b| ==> a[n] != b[n]
  {
    if a == [] || b == [] || a[0] != b[0] then 0
    else
      var n := 1 + CommonPrefix(a[1..], b[1..]);
      assert a[..n] == [a[0]] + a[1..][..n - 1] && b[..n] == [b[0]] + b[1..][..n - 1];
      n
  }

  /** How many levels lie within the first `n` messages. */
  function LevelsWithin(n: nat): (k: nat)
    ensures k <= LEVEL_COUNT
    ensures forall i :: 0 <= i < LEVEL_COUNT ==> (i < k <==> LEVELS[i] <= n)
  {
    if n < 1 then 0 else if n < 2 then 1 else if n < 4 then 2 else if n < 8 then 3
    else if n < 16 then 4 else if n < 32 then 5 else 6
  }

  /** Different prefixes of the same length, at some level, with the same hash. */
  ghost predicate CollidesAt(a: seq<Message>, b: seq<Message>, li: nat) {
    && li < LEVEL_COUNT && LEVELS[li] <= |a| && LEVELS[li] <= |b|
    && a[..LEVELS[li]] != b[..LEVELS[li]] && Rolling(a[..LEVELS[li]]) == Rolling(b[..LEVELS[li]])
  }

  lemma AgreeAtMeans(a: seq<Message>, b: seq<Message>, li: nat)
    requires li < LEVEL_COUNT
    ensures AgreeAt(DigestOf(a), DigestOf(b), li) <==> li < LevelsWithin(CommonPrefix(a, b)) || CollidesAt(a, b, li)
  {
    var n, depth := CommonPrefix(a, b), LEVELS[li];
    if depth <= n {
      assert a[..depth] == a[..n][..depth] && b[..depth] == b[..n][..depth];
    } else if depth <= |a| && depth <= |b| {
      assert a[..depth][n] != b[..depth][n];
    }
  }

  /** Digest exactness: the shared depth never under-reports the common prefix, rounded down to a level,
      and is exactly that unless the two prefixes of the next level are different and hash alike. */
  lemma {:induction false} SharedDepthExact(a: seq<Message>, b: seq<Message>)
    ensures var within := LevelsWithin(CommonPrefix(a, b));
            && DepthOf(within) <= SharedDepth(DigestOf(a), DigestOf(b))
            && (SharedDepth(DigestOf(a), DigestOf(b)) == DepthOf(within) <==> !CollidesAt(a, b, within))
  {
    var within := LevelsWithin(CommonPrefix(a, b));
    var n := Agreement(DigestOf(a), DigestOf(b));
    forall j: nat | j < within ensures AgreeAt(DigestOf(a), DigestOf(b), j) {
      AgreeAtMeans(a, b, j);
    }
    AgreementIsMost(DigestOf(a), DigestOf(b), within);
    if within < LEVEL_COUNT {
      AgreeAtMeans(a, b, within);
      AgreementIsMost(DigestOf(a), DigestOf(b), within + 1);
    }
    DepthsGrow(within, n);
  }

  lemma DepthsGrow(i: nat, j: nat)
    requires i <= j <= LEVEL_COUNT
    ensures DepthOf(i) <= DepthOf(j) && (DepthOf(i) == DepthOf(j) <==> i == j)
  {}
}
