/** Which conversations are attributed to one session, in terms of their messages: no collision is assumed away but
    those of FNV-1a itself (crates/tailfin-ident/src/lib.rs). */
module SharedSessions {
  import opened Foundations
  import opened Fnv
  import opened Digest
  import opened Separation
  import opened Sessions

  // ----- who shares a session -----

  /** Different bytes, at some level, with the same FNV-1a hash. */
  ghost predicate FnvCollides(a: seq<Message>, b: seq<Message>, li: nat) {
    && li < LEVEL_COUNT && LEVELS[li] <= |a| && LEVELS[li] <= |b|
    && Stream(a[..LEVELS[li]]) != Stream(b[..LEVELS[li]])
    && Rolling(a[..LEVELS[li]]) == Rolling(b[..LEVELS[li]])
  }

  /** FNV-1a tells the two conversations' bytes apart at every level down to the minimum. */
  ghost predicate FnvFaithful(a: seq<Message>, b: seq<Message>, m: Level) {
    forall li :: 0 <= li <= m ==> !FnvCollides(a, b, li)
  }

  /** Both conversations reach level `li`, and up to there their messages have the same pieces. */
  ghost predicate SamePieces(a: seq<Message>, b: seq<Message>, li: nat)
    requires li < LEVEL_COUNT
  {
    && LEVELS[li] <= |a| && LEVELS[li] <= |b|
    && Pieces(a[..LEVELS[li]]) == Pieces(b[..LEVELS[li]])
  }

  /** The same pieces at every level down to the minimum. */
  ghost predicate SamePiecesThrough(a: seq<Message>, b: seq<Message>, m: Level) {
    forall li :: 0 <= li <= m ==> SamePieces(a, b, li)
  }

  lemma AgreeAtIffSamePieces(a: seq<Message>, b: seq<Message>, li: nat)
    requires li < LEVEL_COUNT
    ensures SamePieces(a, b, li) ==> AgreeAt(DigestOf(a), DigestOf(b), li)
    ensures AgreeAt(DigestOf(a), DigestOf(b), li) ==> SamePieces(a, b, li) || FnvCollides(a, b, li)
  {
    if LEVELS[li] <= |a| && LEVELS[li] <= |b| {
      var p, q := a[..LEVELS[li]], b[..LEVELS[li]];
      SameBytesIffSamePieces(p, q);
      if Stream(p) == Stream(q) {
        RollingIsStreamHash(p);
        RollingIsStreamHash(q);
      }
    }
  }

  /** Unless FNV-1a itself collides, keys are the same exactly when the conversations have the same pieces at every
      level down to the minimum. */
  lemma {:induction false} KeysMeanPieces(a: seq<Message>, b: seq<Message>, m: Level)
    requires FnvFaithful(a, b, m)
    ensures Key(DigestOf(a), m).Some? && Key(DigestOf(a), m) == Key(DigestOf(b), m) <==> SamePiecesThrough(a, b, m)
  {
    JoinsIsSameKey(DigestOf(a), DigestOf(b), m);
    AgreementIsMost(DigestOf(a), DigestOf(b), m + 1);
    forall li: nat | li <= m ensures AgreeAt(DigestOf(a), DigestOf(b), li) <==> SamePieces(a, b, li) {
      AgreeAtIffSamePieces(a, b, li);
    }
  }

  /** End to end: two undeclared conversations are attributed to one session if and only if they have the same pieces
      at every level down to the minimum and the session was not dropped in between. */
  lemma {:induction false} SameSessionIffSamePieces(ops: seq<Op>, m: Level, i: nat, j: nat,
                                                    a: seq<Message>, b: seq<Message>)
    requires i < j < |ops| && FnvFaithful(a, b, m)
    requires ops[i] == Ask(Undeclared(Some(DigestOf(a)))) && ops[j] == Ask(Undeclared(Some(DigestOf(b))))
    ensures RootAt(ops, m, i) == RootAt(ops, m, j) <==>
            SamePiecesThrough(a, b, m) && Survives(ops, i, j, RootAt(ops, m, i))
  {
    SameRootIffSameKey(ops, m, i, j, DigestOf(a), DigestOf(b));
    KeysMeanPieces(a, b, m);
  }

  // ----- when pieces are messages -----

  lemma SamePrefixSamePieces(a: seq<Message>, b: seq<Message>, m: Level)
    requires LEVELS[m] <= |a| && LEVELS[m] <= |b| && a[..LEVELS[m]] == b[..LEVELS[m]]
    ensures SamePiecesThrough(a, b, m)
  {
    forall li: nat | li <= m ensures SamePieces(a, b, li) {
      LevelsGrow(li, m);
      assert a[..LEVELS[li]] == a[..LEVELS[m]][..LEVELS[li]];
      assert b[..LEVELS[li]] == b[..LEVELS[m]][..LEVELS[li]];
    }
  }

  lemma LevelsGrow(i: nat, j: nat)
    requires i <= j < LEVEL_COUNT
    ensures LEVELS[i] <= LEVELS[j]
  {}

  /** Depths one and two together fix the first two messages. */
  lemma TwoMessagesFixed(a: seq<Message>, b: seq<Message>)
    requires SamePieces(a, b, 0)
    ensures a[0] == b[0]
    ensures SamePieces(a, b, 1) ==> a[1] == b[1]
  {
    assert a[..1] == [a[0]] && b[..1] == [b[0]];
    SameBytesIffSamePieces([a[0]], [b[0]]);
    StreamOne(a[0]);
    StreamOne(b[0]);
    SameBeforeSeparator(a[0], b[0]);
    if SamePieces(a, b, 1) {
      assert a[..2] == [a[0]] + [a[1]] && b[..2] == [b[0]] + [b[1]];
      SameBytesIffSamePieces([a[0]] + [a[1]], [b[0]] + [b[1]]);
      StreamTwo(a[0], a[1]);
      StreamTwo(b[0], b[1]);
      var front := a[0] + SEPARATOR;
      SameBeforeSeparator(front + a[1], front + b[1]);
      assert (front + a[1])[|front|..] == a[1] && (front + b[1])[|front|..] == b[1];
    }
  }

  lemma SameBeforeSeparator(x: Message, y: Message)
    ensures x + SEPARATOR == y + SEPARATOR ==> x == y
  {
    assert x == (x + SEPARATOR)[..|x + SEPARATOR| - 1];
    assert y == (y + SEPARATOR)[..|y + SEPARATOR| - 1];
  }

  /** At minimum levels zero and one separators merge nothing: the same pieces are the same messages. */
  lemma ShallowPieces(a: seq<Message>, b: seq<Message>, m: Level)
    requires m <= 1
    ensures SamePiecesThrough(a, b, m) <==> LEVELS[m] <= CommonPrefix(a, b)
  {
    PrefixIsCommon(a, b, LEVELS[m]);
    if SamePiecesThrough(a, b, m) {
      assert SamePieces(a, b, 0) && SamePieces(a, b, m);
      TwoMessagesFixed(a, b);
      assert a[..LEVELS[m]] == b[..LEVELS[m]];
    }
    if LEVELS[m] <= CommonPrefix(a, b) {
      SamePrefixSamePieces(a, b, m);
    }
  }

  lemma PrefixIsCommon(a: seq<Message>, b: seq<Message>, n: nat)
    ensures n <= CommonPrefix(a, b) <==> n <= |a| && n <= |b| && a[..n] == b[..n]
  {
    var k := CommonPrefix(a, b);
    if n <= k {
      assert a[..n] == a[..k][..n] && b[..n] == b[..k][..n];
    } else if n <= |a| && n <= |b| {
      assert a[..n][k] != b[..n][k];
    }
  }

  /** At every minimum level the same pieces are the same messages if each holds equally many separators. */
  lemma EvenPieces(a: seq<Message>, b: seq<Message>, m: Level, k: nat)
    requires EvenlySeparated(a, k) && EvenlySeparated(b, k)
    ensures SamePiecesThrough(a, b, m) <==> LEVELS[m] <= CommonPrefix(a, b)
  {
    PrefixIsCommon(a, b, LEVELS[m]);
    if SamePiecesThrough(a, b, m) {
      assert SamePieces(a, b, m);
      SameBytesIffSamePieces(a[..LEVELS[m]], b[..LEVELS[m]]);
      StreamDetermines(a[..LEVELS[m]], b[..LEVELS[m]], k);
    }
    if LEVELS[m] <= CommonPrefix(a, b) {
      SamePrefixSamePieces(a, b, m);
    }
  }

  /** End to end: at the minimum level the proxy runs with, two undeclared conversations are attributed to one session
      if and only if they share their first messages down to the minimum depth and the session was not dropped in
      between, whatever bytes their messages hold; at deeper levels too, if each message holds equally many
      separators. */
  lemma {:induction false} SameSessionIffSamePrefix(ops: seq<Op>, m: Level, i: nat, j: nat,
                                                    a: seq<Message>, b: seq<Message>, k: nat)
    requires i < j < |ops| && FnvFaithful(a, b, m)
    requires ops[i] == Ask(Undeclared(Some(DigestOf(a)))) && ops[j] == Ask(Undeclared(Some(DigestOf(b))))
    ensures m <= 1 || (EvenlySeparated(a, k) && EvenlySeparated(b, k)) ==>
              (RootAt(ops, m, i) == RootAt(ops, m, j) <==>
               LEVELS[m] <= CommonPrefix(a, b) && Survives(ops, i, j, RootAt(ops, m, i)))
  {
    SameSessionIffSamePieces(ops, m, i, j, a, b);
    if m <= 1 {
      ShallowPieces(a, b, m);
    } else if EvenlySeparated(a, k) && EvenlySeparated(b, k) {
      EvenPieces(a, b, m, k);
    }
  }

  // ----- when separators merge conversations -----

  /** Conversations that differ in the messages that count, and are attributed to one session without any collision of
      FNV-1a. */
  ghost predicate MergedBySeparators(a: seq<Message>, b: seq<Message>, m: Level) {
    && LEVELS[m] <= |a| && LEVELS[m] <= |b| && a[..LEVELS[m]] != b[..LEVELS[m]]
    && FnvFaithful(a, b, m) && Joins(DigestOf(a), DigestOf(b), m)
  }

  lemma {:induction false} MergedIffSamePieces(a: seq<Message>, b: seq<Message>, m: Level)
    ensures MergedBySeparators(a, b, m) <==> SamePiecesThrough(a, b, m) && LEVELS[m] > CommonPrefix(a, b)
  {
    PrefixIsCommon(a, b, LEVELS[m]);
    if SamePiecesThrough(a, b, m) {
      assert SamePieces(a, b, m);
      forall li | 0 <= li <= m ensures !FnvCollides(a, b, li) {
        assert SamePieces(a, b, li);
        SameBytesIffSamePieces(a[..LEVELS[li]], b[..LEVELS[li]]);
      }
    }
    if FnvFaithful(a, b, m) {
      KeysMeanPieces(a, b, m);
      JoinsIsSameKey(DigestOf(a), DigestOf(b), m);
    }
  }

  /** Separators merge different conversations at exactly the minimum levels from two on; the proxy runs at one. */
  lemma {:induction false} SeparatorsMergeIff(m: Level)
    ensures (exists a: seq<Message>, b: seq<Message> :: MergedBySeparators(a, b, m)) <==> m >= 2
  {
    if m <= 1 {
      forall a: seq<Message>, b: seq<Message> ensures !MergedBySeparators(a, b, m) {
        MergedIffSamePieces(a, b, m);
        ShallowPieces(a, b, m);
      }
    } else {
      var a, b := MergedExample(m);
    }
  }

  /** Two shared messages, a separator that moves between the next two, and twenty-eight more shared messages. */
  lemma MergedExample(m: Level) returns (a: seq<Message>, b: seq<Message>)
    requires m >= 2
    ensures MergedBySeparators(a, b, m)
  {
    var init: seq<Message>, rest := [[], []], seq(28, _ => []);
    var p: seq<Message>, q: seq<Message> := [[] + SEPARATOR] + [[]], [[]] + [SEPARATOR + []];
    a, b := init + p + rest, init + q + rest;
    StreamTwo([] + SEPARATOR, []);
    StreamTwo([], SEPARATOR + []);
    forall li | 0 <= li <= m ensures SamePieces(a, b, li) {
      SamePrefixStream(init, p, q, rest, LEVELS[li]);
      SameBytesIffSamePieces(a[..LEVELS[li]], b[..LEVELS[li]]);
    }
    assert a[..2] == init == b[..2] && a[2] != b[2];
    PartsAt(a, b, 2);
    MergedIffSamePieces(a, b, m);
  }
}
