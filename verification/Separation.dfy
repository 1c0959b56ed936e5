/** What the separator between hashed messages tells apart, and what it does not: messages may contain it
    (crates/tailfin-ident/src/lib.rs, crates/tailfin-proxy/src/identity.rs). */
module Separation {
  import opened Foundations
  import opened Fnv
  import opened Digest

  /** The bytes that the rolling hash reads: every message, each closed by a separator. */
  function Stream(messages: seq<Message>): Message {
    if messages == [] then [] else Stream(messages[..|messages| - 1]) + messages[|messages| - 1] + SEPARATOR
  }

  /** The rolling hash sees the stream of bytes and nothing else. */
  lemma {:induction false} RollingIsStreamHash(messages: seq<Message>)
    ensures Rolling(messages) == Hash(FNV_OFFSET, Stream(messages))
  {
    if messages != [] {
      var init, last := messages[..|messages| - 1], messages[|messages| - 1];
      RollingIsStreamHash(init);
      HashConcat(FNV_OFFSET, Stream(init), last);
      HashConcat(FNV_OFFSET, Stream(init) + last, SEPARATOR);
    }
  }

  lemma {:induction false} StreamConcat(a: seq<Message>, b: seq<Message>)
    ensures Stream(a + b) == Stream(a) + Stream(b)
    decreases |b|
  {
    if b == [] {
      assert a + b == a;
    } else {
      var init, last := b[..|b| - 1], b[|b| - 1];
      assert (a + b)[..|a + b| - 1] == a + init;
      StreamConcat(a, init);
      assert Stream(a) + Stream(init) + last + SEPARATOR == Stream(a) + (Stream(init) + last + SEPARATOR);
    }
  }

  lemma StreamOne(x: Message)
    ensures Stream([x]) == x + SEPARATOR
  {
    assert [x][..0] == [];
    assert [] + x == x;
  }

  /** Conversations whose bytes differ in one place never have the same rolling hash. */
  lemma {:induction false} OneByteApart(a: seq<Message>, b: seq<Message>, before: Message, x: bv8, y: bv8,
                                        after: Message)
    requires Stream(a) == before + [x] + after && Stream(b) == before + [y] + after && x != y
    ensures Rolling(a) != Rolling(b)
  {
    RollingIsStreamHash(a);
    RollingIsStreamHash(b);
    OneByteTells(FNV_OFFSET, before, x, y, after);
  }

  // ----- what the stream determines -----

  /** How many separator bytes a message contains. */
  function Separators(m: Message): nat {
    if m == [] then 0 else Separators(m[..|m| - 1]) + if m[|m| - 1] == 0x1e then 1 else 0
  }

  ghost predicate EvenlySeparated(messages: seq<Message>, k: nat) {
    forall i :: 0 <= i < |messages| ==> Separators(messages[i]) == k
  }

  lemma {:induction false} SeparatorsConcat(a: Message, b: Message)
    ensures Separators(a + b) == Separators(a) + Separators(b)
    decreases |b|
  {
    if b == [] {
      assert a + b == a;
    } else {
      assert (a + b)[..|a + b| - 1] == a + b[..|b| - 1];
      SeparatorsConcat(a, b[..|b| - 1]);
    }
  }

  /** Of two messages with equally many separators, neither goes on past the end of the other's. */
  lemma NotPastTheEnd(a: Message, x: Message, b: Message, y: Message)
    requires Separators(a) == Separators(b) && a + SEPARATOR + x == b + SEPARATOR + y
    ensures |a| >= |b|
  {
    if |a| < |b| {
      var whole := b + SEPARATOR + y;
      var tail := b[|a| + 1..];
      assert b == whole[..|b|] && a + SEPARATOR == whole[..|a| + 1];
      assert b == (a + SEPARATOR) + tail;
      SeparatorsConcat(a + SEPARATOR, tail);
      SeparatorsConcat(a, SEPARATOR);
    }
  }

  lemma SameFirst(a: Message, x: Message, b: Message, y: Message)
    requires Separators(a) == Separators(b) && a + SEPARATOR + x == b + SEPARATOR + y
    ensures a == b && x == y
  {
    NotPastTheEnd(a, x, b, y);
    NotPastTheEnd(b, y, a, x);
    var whole, n := a + SEPARATOR + x, |a|;
    assert a == whole[..n] == b;
    assert x == whole[n + 1..] == y;
  }

  lemma StreamFirst(a: seq<Message>)
    requires a != []
    ensures Stream(a) == a[0] + SEPARATOR + Stream(a[1..])
  {
    assert a == [a[0]] + a[1..];
    StreamConcat([a[0]], a[1..]);
    StreamOne(a[0]);
  }

  /** When all messages hold equally many separators, the stream determines the conversation. */
  lemma {:induction false} StreamDetermines(a: seq<Message>, b: seq<Message>, k: nat)
    requires EvenlySeparated(a, k) && EvenlySeparated(b, k)
    ensures Stream(a) == Stream(b) <==> a == b
    decreases |a|
  {
    if a != [] {
      StreamFirst(a);
    }
    if b != [] {
      StreamFirst(b);
    }
    if a != [] && b != [] && Stream(a) == Stream(b) {
      SameFirst(a[0], Stream(a[1..]), b[0], Stream(b[1..]));
      StreamDetermines(a[1..], b[1..], k);
      assert a == [a[0]] + a[1..] && b == [b[0]] + b[1..];
    }
  }

  // ----- the exact condition -----

  /** A message cut at its separators. */
  function Split(m: Message): (parts: seq<Message>)
    ensures |parts| == Separators(m) + 1
  {
    if m == [] then [[]]
    else
      var parts, b := Split(m[..|m| - 1]), m[|m| - 1];
      var k := |parts| - 1;
      if b == 0x1e then parts + [[]] else parts[k := parts[k] + [b]]
  }

  /** The pieces of a conversation: every message cut at its separators, one after another. */
  function Pieces(messages: seq<Message>): seq<Message> {
    if messages == [] then [] else Pieces(messages[..|messages| - 1]) + Split(messages[|messages| - 1])
  }

  lemma {:induction false} SplitClean(m: Message)
    ensures EvenlySeparated(Split(m), 0)
  {
    if m != [] {
      var parts, b := Split(m[..|m| - 1]), m[|m| - 1];
      SplitClean(m[..|m| - 1]);
      if b != 0x1e {
        SeparatorsConcat(parts[|parts| - 1], [b]);
        assert [b][..0] == [];
        assert Separators([b]) == 0;
      }
    }
  }

  lemma StreamLast(init: seq<Message>, last: Message)
    ensures Stream(init + [last]) == Stream(init) + last + SEPARATOR
  {
    assert (init + [last])[..|init|] == init;
  }

  lemma {:induction false} StreamOfSplit(m: Message)
    ensures Stream(Split(m)) == m + SEPARATOR
  {
    if m == [] {
      StreamOne([]);
    } else {
      var parts, b := Split(m[..|m| - 1]), m[|m| - 1];
      var k := |parts| - 1;
      StreamOfSplit(m[..|m| - 1]);
      assert m == m[..|m| - 1] + [b];
      if b == 0x1e {
        StreamLast(parts, []);
        assert [b] == SEPARATOR;
        assert Stream(parts) + [] + SEPARATOR == Stream(parts) + SEPARATOR;
      } else {
        assert parts == parts[..k] + [parts[k]] && Split(m) == parts[..k] + [parts[k] + [b]];
        StreamLast(parts[..k], parts[k]);
        StreamLast(parts[..k], parts[k] + [b]);
        LastByteAside(Stream(parts[..k]), parts[k], m[..|m| - 1], b);
      }
    }
  }

  lemma LastByteAside(front: Message, part: Message, init: Message, b: bv8)
    requires front + part + SEPARATOR == init + SEPARATOR
    ensures front + (part + [b]) + SEPARATOR == init + [b] + SEPARATOR
  {
    assert front + part == (front + part + SEPARATOR)[..|front| + |part|];
    assert init == (init + SEPARATOR)[..|init|];
    assert front + part == init;
    assert front + (part + [b]) == init + [b];
  }

  lemma {:induction false} StreamOfPieces(messages: seq<Message>)
    ensures Stream(Pieces(messages)) == Stream(messages)
    ensures EvenlySeparated(Pieces(messages), 0)
  {
    if messages != [] {
      var init, last := messages[..|messages| - 1], messages[|messages| - 1];
      StreamOfPieces(init);
      StreamOfSplit(last);
      SplitClean(last);
      StreamConcat(Pieces(init), Split(last));
      assert Stream(init) + (last + SEPARATOR) == Stream(init) + last + SEPARATOR;
    }
  }

  /** Two conversations hash the same bytes if and only if they have the same pieces. */
  lemma {:induction false} SameBytesIffSamePieces(a: seq<Message>, b: seq<Message>)
    ensures Stream(a) == Stream(b) <==> Pieces(a) == Pieces(b)
  {
    StreamOfPieces(a);
    StreamOfPieces(b);
    StreamDetermines(Pieces(a), Pieces(b), 0);
  }

  // ----- conversations that hash alike although they differ -----

  /** Two messages in a row may be replaced by two others with the same bytes without changing the digest, unless a
      level ends between them. */
  lemma {:induction false} PairReplaced(init: seq<Message>, x: Message, y: Message, x': Message, y': Message,
                                        rest: seq<Message>)
    requires Stream([x] + [y]) == Stream([x'] + [y']) && |init| + 1 !in LEVELS
    ensures DigestOf(init + ([x] + [y]) + rest) == DigestOf(init + ([x'] + [y']) + rest)
  {
    var a, b := init + ([x] + [y]) + rest, init + ([x'] + [y']) + rest;
    forall li: nat | li < LEVEL_COUNT ensures LevelHash(a, li) == LevelHash(b, li) {
      if LEVELS[li] <= |a| {
        SamePrefixStream(init, [x] + [y], [x'] + [y'], rest, LEVELS[li]);
        RollingIsStreamHash(a[..LEVELS[li]]);
        RollingIsStreamHash(b[..LEVELS[li]]);
      }
    }
  }

  lemma SamePrefixStream(init: seq<Message>, p: seq<Message>, q: seq<Message>, rest: seq<Message>, depth: nat)
    requires |p| == |q| == 2 && Stream(p) == Stream(q)
    requires depth != |init| + 1 && depth <= |init| + 2 + |rest|
    ensures Stream((init + p + rest)[..depth]) == Stream((init + q + rest)[..depth])
  {
    if depth <= |init| {
      assert (init + p + rest)[..depth] == init[..depth] == (init + q + rest)[..depth];
    } else {
      var n := depth - |init| - 2;
      assert (init + p + rest)[..depth] == init + p + rest[..n];
      assert (init + q + rest)[..depth] == init + q + rest[..n];
      StreamInside(init, p, rest[..n]);
      StreamInside(init, q, rest[..n]);
    }
  }

  lemma StreamInside(init: seq<Message>, p: seq<Message>, rest: seq<Message>)
    ensures Stream(init + p + rest) == Stream(init) + Stream(p) + Stream(rest)
  {
    StreamConcat(init + p, rest);
    StreamConcat(init, p);
  }

  lemma StreamTwo(x: Message, y: Message)
    ensures Stream([x] + [y]) == x + SEPARATOR + y + SEPARATOR
  {
    StreamLast([x], y);
    StreamOne(x);
  }

  /** A separator can move from the end of a message to the front of the next without changing the digest, unless a
      level ends between them. */
  lemma {:induction false} SeparatorMoves(init: seq<Message>, x: Message, y: Message, rest: seq<Message>)
    requires |init| + 1 !in LEVELS
    ensures var a, b := init + ([x + SEPARATOR] + [y]) + rest, init + ([x] + [SEPARATOR + y]) + rest;
            a != b && DigestOf(a) == DigestOf(b)
  {
    var a, b := init + ([x + SEPARATOR] + [y]) + rest, init + ([x] + [SEPARATOR + y]) + rest;
    assert a[|init|] == x + SEPARATOR && b[|init|] == x;
    StreamTwo(x + SEPARATOR, y);
    StreamTwo(x, SEPARATOR + y);
    assert x + SEPARATOR + SEPARATOR + y + SEPARATOR == x + SEPARATOR + (SEPARATOR + y) + SEPARATOR;
    PairReplaced(init, x + SEPARATOR, y, x, SEPARATOR + y, rest);
  }

  lemma PartsAt(a: seq<Message>, b: seq<Message>, n: nat)
    requires n < |a| && n < |b| && a[..n] == b[..n] && a[n] != b[n]
    ensures CommonPrefix(a, b) == n
  {}

  lemma SelfAgreement(d: PrefixDigest, n: nat)
    requires n <= LEVEL_COUNT && forall i :: 0 <= i < LEVEL_COUNT ==> (d[i].Some? <==> i < n)
    ensures Agreement(d, d) == n
  {
    AgreementIsMost(d, d, n);
  }

  /** A digest appears to share with itself as many messages as there are, rounded down to a level. */
  lemma SharesAllWithItself(a: seq<Message>)
    ensures SharedDepth(DigestOf(a), DigestOf(a)) == DepthOf(LevelsWithin(|a|))
  {
    var d, n := DigestOf(a), LevelsWithin(|a|);
    forall i | 0 <= i < LEVEL_COUNT ensures d[i].Some? <==> i < n {
      assert d[i] == LevelHash(a, i);
    }
    SelfAgreement(d, n);
  }

  /** A turn of a conversation, and the message the proxy makes of it (crates/tailfin-proxy/src/identity.rs). */
  datatype Turn = Turn(role: Message, content: Message)

  function Canonical(t: Turn): Message {
    t.role + SEPARATOR + t.content
  }

  function Canonicals(turns: seq<Turn>): (messages: seq<Message>)
    ensures |messages| == |turns|
    ensures forall i :: 0 <= i < |turns| ==> messages[i] == Canonical(turns[i])
  {
    seq(|turns|, i requires 0 <= i < |turns| => Canonical(turns[i]))
  }

  /** Ordinary roles do not help: a content that spells out the end of its own message and the start of another can
      give up its tail to the next content, with every role as it was. The digests then claim that all messages are
      shared, when only those before the two are. */
  lemma {:induction false} CanonicalCollision(init: seq<Turn>, role: Message, next: Message, x: Message, y: Message,
                                              z: Message, rest: seq<Turn>)
    requires |init| + 1 !in LEVELS
    ensures var a := Canonicals(init + ([Turn(role, x + SEPARATOR + next + SEPARATOR + y)] + [Turn(next, z)]) + rest);
            var b := Canonicals(init + ([Turn(role, x)] + [Turn(next, y + SEPARATOR + next + SEPARATOR + z)]) + rest);
            && CommonPrefix(a, b) == |init| && DigestOf(a) == DigestOf(b)
            && SharedDepth(DigestOf(a), DigestOf(b)) == DepthOf(LevelsWithin(|init| + 2 + |rest|))
  {
    var p, q := Turn(role, x + SEPARATOR + next + SEPARATOR + y), Turn(next, z);
    var p', q' := Turn(role, x), Turn(next, y + SEPARATOR + next + SEPARATOR + z);
    var a, b := Canonicals(init + ([p] + [q]) + rest), Canonicals(init + ([p'] + [q']) + rest);
    CanonicalsPair(init, p, q, rest);
    CanonicalsPair(init, p', q', rest);
    assert a[..|init|] == Canonicals(init) == b[..|init|];
    assert |a[|init|]| > |b[|init|]|;
    PartsAt(a, b, |init|);
    StreamTwo(Canonical(p), Canonical(q));
    StreamTwo(Canonical(p'), Canonical(q'));
    SpelledOut(role, next, x, y, z);
    PairReplaced(Canonicals(init), Canonical(p), Canonical(q), Canonical(p'), Canonical(q'), Canonicals(rest));
    SharesAllWithItself(a);
  }

  lemma SpelledOut(role: Message, next: Message, x: Message, y: Message, z: Message)
    ensures Canonical(Turn(role, x + SEPARATOR + next + SEPARATOR + y)) + SEPARATOR + Canonical(Turn(next, z))
            == Canonical(Turn(role, x)) + SEPARATOR + Canonical(Turn(next, y + SEPARATOR + next + SEPARATOR + z))
  {}

  lemma CanonicalsPair(init: seq<Turn>, p: Turn, q: Turn, rest: seq<Turn>)
    ensures Canonicals(init + ([p] + [q]) + rest)
            == Canonicals(init) + ([Canonical(p)] + [Canonical(q)]) + Canonicals(rest)
  {}

  /** No role and no content holds a separator. */
  ghost predicate Clean(turns: seq<Turn>) {
    forall i :: 0 <= i < |turns| ==> Separators(turns[i].role) == 0 == Separators(turns[i].content)
  }

  lemma CleanIsEven(turns: seq<Turn>)
    requires Clean(turns)
    ensures EvenlySeparated(Canonicals(turns), 1)
  {
    forall i | 0 <= i < |turns| ensures Separators(Canonical(turns[i])) == 1 {
      SeparatorsConcat(turns[i].role + SEPARATOR, turns[i].content);
      SeparatorsConcat(turns[i].role, SEPARATOR);
      assert Separators(SEPARATOR) == 1;
    }
  }

  /** Conversations whose roles and contents hold no separator are determined by the bytes that are hashed. */
  lemma {:induction false} CleanTurnsDetermined(a: seq<Turn>, b: seq<Turn>)
    requires Clean(a) && Clean(b)
    ensures Stream(Canonicals(a)) == Stream(Canonicals(b)) <==> a == b
  {
    CleanIsEven(a);
    CleanIsEven(b);
    StreamDetermines(Canonicals(a), Canonicals(b), 1);
    if Canonicals(a) == Canonicals(b) {
      forall i | 0 <= i < |a| ensures a[i] == b[i] {
        assert Canonicals(a)[i] == Canonicals(b)[i];
        SameFirst(a[i].role, a[i].content, b[i].role, b[i].content);
      }
    }
  }
}
