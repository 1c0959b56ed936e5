/** Incremental parsing of a framed byte stream, for any framing in which a complete frame does not depend
    on the bytes after it. The WebSocket decoder is one instance. */
module FrameStream {
  import opened Foundations

  type Byte = b: int | 0 <= b < 256

  datatype Frame = Frame(opcode: nat, payload: seq<Byte>, size: nat)

  /** Reads the frame at the front of a buffer, if all of it is there. */
  type Framing = seq<Byte> -> Option<Frame>

  datatype Decoded = Decoded(out: seq<seq<Byte>>, rest: seq<Byte>)

  predicate IsText(opcode: nat) { opcode == 1 || opcode == 2 }

  const CLOSE: nat := 8

  /** A frame takes at least one byte and no more than there are. */
  ghost predicate Sane(first: Framing) {
    forall buf :: first(buf).Some? ==> 0 < first(buf).value.size <= |buf|
  }

  ghost predicate SameFront(buf: seq<Byte>, other: seq<Byte>, n: nat) {
    n <= |buf| && n <= |other| && buf[..n] == other[..n]
  }

  /** A frame that is all there does not depend on what follows it. */
  ghost predicate Local(first: Framing) {
    && Sane(first)
    && forall buf, other, n {:trigger first(buf), SameFront(buf, other, n)} ::
         first(buf).Some? && n == first(buf).value.size && SameFront(buf, other, n) ==> first(other) == first(buf)
  }

  // ----- the whole stream -----

  ghost function Emits(f: Frame): seq<seq<Byte>> {
    if IsText(f.opcode) then [f.payload] else []
  }

  /** Payloads handed out before the rest is decoded. */
  ghost function Then(before: seq<seq<Byte>>, d: Decoded): Decoded {
    Decoded(before + d.out, d.rest)
  }

  /** Parses frame after frame. A close frame ends the parse; what follows it is left over. */
  ghost function Decode(first: Framing, buf: seq<Byte>): (d: Decoded)
    requires Sane(first)
    ensures |d.rest| <= |buf|
    decreases |buf|
  {
    if first(buf).None? then Decoded([], buf)
    else
      var f := first(buf).value;
      if f.opcode == CLOSE then Decoded([], buf[f.size..])
      else
        Then(Emits(f), Decode(first, buf[f.size..]))
  }

  /** The parse meets a close frame. */
  ghost predicate Closes(first: Framing, buf: seq<Byte>)
    requires Sane(first)
    decreases |buf|
  {
    first(buf).Some? && (first(buf).value.opcode == CLOSE || Closes(first, buf[first(buf).value.size..]))
  }

  function Flatten(chunks: seq<seq<Byte>>): seq<Byte> {
    if chunks == [] then [] else chunks[0] + Flatten(chunks[1..])
  }

  /** Pushing chunks one after the other into a decoder that holds `buf`. */
  ghost function Feed(first: Framing, buf: seq<Byte>, chunks: seq<seq<Byte>>): Decoded
    requires Sane(first)
    decreases |chunks|
  {
    if chunks == [] then Decoded([], buf)
    else
      var d := Decode(first, buf + chunks[0]);
      Then(d.out, Feed(first, d.rest, chunks[1..]))
  }

  // ----- chunks do not matter, unless something follows a close frame -----

  lemma FrameSurvives(first: Framing, buf: seq<Byte>, more: seq<Byte>)
    requires Local(first)
    requires first(buf).Some?
    ensures first(buf + more) == first(buf)
  {
    assert SameFront(buf, buf + more, first(buf).value.size);
  }

  /** Unless a close frame ends it, a parse can be resumed: the left-over bytes are all it needs. */
  lemma {:induction false} DecodeResumes(first: Framing, a: seq<Byte>, b: seq<Byte>)
    requires Local(first)
    requires !Closes(first, a)
    ensures first(Decode(first, a).rest).None?
    ensures Decode(first, a + b) == Then(Decode(first, a).out, Decode(first, Decode(first, a).rest + b))
    ensures Closes(first, a + b) <==> Closes(first, Decode(first, a).rest + b)
    decreases |a|
  {
    if first(a).None? {
      assert Decode(first, a) == Decoded([], a);
      ThenNothing(Decode(first, a + b));
    } else {
      var f := first(a).value;
      var tail := a[f.size..];
      FrameSurvives(first, a, b);
      assert (a + b)[f.size..] == tail + b;
      DecodeResumes(first, tail, b);
      var d := Decode(first, tail);
      assert Decode(first, a) == Then(Emits(f), d);
      assert Decode(first, a + b) == Then(Emits(f), Decode(first, tail + b));
      ThenThen(Emits(f), d.out, Decode(first, d.rest + b));
    }
  }

  lemma ThenNothing(d: Decoded)
    ensures Then([], d) == d
  {}

  lemma ThenThen(a: seq<seq<Byte>>, b: seq<seq<Byte>>, d: Decoded)
    ensures Then(a, Then(b, d)) == Then(a + b, d)
  {
    assert a + (b + d.out) == (a + b) + d.out;
  }

  /** A close frame ends the parse whatever follows, and all that follows is left over. */
  lemma {:induction false} DecodeEnds(first: Framing, a: seq<Byte>, b: seq<Byte>)
    requires Local(first)
    requires Closes(first, a)
    ensures Closes(first, a + b) && Decode(first, a + b) == Decoded(Decode(first, a).out, Decode(first, a).rest + b)
    decreases |a|
  {
    var f := first(a).value;
    FrameSurvives(first, a, b);
    assert (a + b)[f.size..] == a[f.size..] + b;
    if f.opcode != CLOSE {
      DecodeEnds(first, a[f.size..], b);
    }
  }

  /** After the first close frame, if there is one, no further frame is complete. */
  ghost predicate QuietAfterClose(first: Framing, stream: seq<Byte>)
    requires Sane(first)
  {
    Closes(first, stream) ==> first(Decode(first, stream).rest).None?
  }

  lemma StuckPrefix(first: Framing, a: seq<Byte>, b: seq<Byte>)
    requires Local(first)
    requires first(a + b).None?
    ensures first(a).None?
  {
    if first(a).Some? {
      FrameSurvives(first, a, b);
    }
  }

  lemma {:induction false} FeedIsDecode(first: Framing, buf: seq<Byte>, chunks: seq<seq<Byte>>)
    requires Local(first)
    requires first(buf).None? && QuietAfterClose(first, buf + Flatten(chunks))
    ensures Feed(first, buf, chunks) == Decode(first, buf + Flatten(chunks))
    decreases |chunks|
  {
    if chunks == [] {
      assert buf + Flatten(chunks) == buf;
    } else {
      var a, b := buf + chunks[0], Flatten(chunks[1..]);
      assert buf + Flatten(chunks) == a + b;
      var d := Decode(first, a);
      if Closes(first, a) {
        DecodeEnds(first, a, b);
        StuckPrefix(first, d.rest, b);
        FeedIsDecode(first, d.rest, chunks[1..]);
        assert d.out + [] == d.out;
      } else {
        DecodeResumes(first, a, b);
        FeedIsDecode(first, d.rest, chunks[1..]);
      }
    }
  }

  /** Where the first close frame ends. */
  ghost function CloseEnd(first: Framing, buf: seq<Byte>): (n: nat)
    requires Sane(first)
    requires Closes(first, buf)
    ensures n <= |buf| && Decode(first, buf).rest == buf[n..]
    decreases |buf|
  {
    var f := first(buf).value;
    if f.opcode == CLOSE then f.size
    else
      var n := CloseEnd(first, buf[f.size..]);
      assert buf[f.size..][n..] == buf[f.size + n..];
      f.size + n
  }

  lemma {:induction false} DecodeToClose(first: Framing, buf: seq<Byte>)
    requires Local(first)
    requires Closes(first, buf)
    ensures 0 < CloseEnd(first, buf)
    ensures Decode(first, buf[..CloseEnd(first, buf)]) == Decoded(Decode(first, buf).out, [])
    decreases |buf|
  {
    var f, n := first(buf).value, CloseEnd(first, buf);
    assert SameFront(buf, buf[..n], f.size);
    if f.opcode == CLOSE {
      assert buf[..n][f.size..] == [];
    } else {
      DecodeToClose(first, buf[f.size..]);
      assert buf[..n][f.size..] == buf[f.size..][..n - f.size];
    }
  }

  /** Chunk invariance, and exactly when it holds. If no complete frame follows the first close frame, every
      chunking of the stream gives the payloads and the left-over bytes of the whole-stream parse; if one
      does, cutting the stream right after the close frame gives something else. */
  lemma {:induction false} ChunkInvariance(first: Framing, stream: seq<Byte>)
    requires Local(first)
    ensures QuietAfterClose(first, stream) <==>
            forall chunks :: Flatten(chunks) == stream ==> Feed(first, [], chunks) == Decode(first, stream)
  {
    if QuietAfterClose(first, stream) {
      forall chunks | Flatten(chunks) == stream ensures Feed(first, [], chunks) == Decode(first, stream) {
        assert [] + Flatten(chunks) == stream;
        FeedIsDecode(first, [], chunks);
      }
    } else {
      var chunks := CutAfterClose(first, stream);
    }
  }

  lemma {:induction false} CutAfterClose(first: Framing, stream: seq<Byte>) returns (chunks: seq<seq<Byte>>)
    requires Local(first)
    requires !QuietAfterClose(first, stream)
    ensures Flatten(chunks) == stream && forall i :: 0 <= i < |chunks| ==> chunks[i] != []
    ensures Feed(first, [], chunks) != Decode(first, stream)
  {
    var n := CloseEnd(first, stream);
    var a, b := stream[..n], stream[n..];
    chunks := [a, b];
    DecodeToClose(first, stream);
    TwoChunks(first, a, b);
    assert a + b == stream;
    assert [] + b == b;
    ParseShrinks(first, b);
  }

  lemma TwoChunks(first: Framing, a: seq<Byte>, b: seq<Byte>)
    requires Local(first)
    ensures Flatten([a, b]) == a + b
    ensures Feed(first, [], [a, b]).rest == Decode(first, Decode(first, a).rest + b).rest
  {
    assert [a, b][1..] == [b] && [b][1..] == [];
    assert Flatten([b]) == b + [] == b;
    assert [] + a == a;
    assert Feed(first, Decode(first, a).rest, [b]).rest
        == Feed(first, Decode(first, Decode(first, a).rest + b).rest, []).rest;
  }

  /** Every pass of the decoding loop shrinks the buffer. */
  lemma ParseShrinks(first: Framing, buf: seq<Byte>)
    requires Local(first)
    requires first(buf).Some?
    ensures |Decode(first, buf).rest| < |buf|
  {}

  // ----- frames that are known one by one -----

  /** `frame` is what is read off the front of `bytes`, and `bytes` is all of it. */
  ghost predicate Reads(first: Framing, bytes: seq<Byte>, frame: Frame) {
    first(bytes) == Some(frame) && frame.size == |bytes|
  }

  function Texts(frames: seq<Frame>): seq<seq<Byte>> {
    if frames == [] then [] else (if IsText(frames[0].opcode) then [frames[0].payload] else []) + Texts(frames[1..])
  }

  lemma {:induction false} DecodeFrames(first: Framing, parts: seq<seq<Byte>>, frames: seq<Frame>)
    requires Local(first) && first([]).None?
    requires |parts| == |frames| && forall i :: 0 <= i < |frames| ==> Reads(first, parts[i], frames[i])
    requires forall i :: 0 <= i < |frames| - 1 ==> frames[i].opcode != CLOSE
    ensures Decode(first, Flatten(parts)) == Decoded(Texts(frames), [])
    ensures QuietAfterClose(first, Flatten(parts))
  {
    if frames != [] {
      assert Reads(first, parts[0], frames[0]);
      var whole, rest := Flatten(parts), Flatten(parts[1..]);
      FrameSurvives(first, parts[0], rest);
      assert whole[frames[0].size..] == rest;
      DecodeFrames(first, parts[1..], frames[1..]);
      if frames[0].opcode == CLOSE {
        assert frames[1..] == [] && rest == [];
      }
    }
  }

  /** Frames written one after the other are read back under every chunking, with nothing left over. */
  lemma FeedFrames(first: Framing, parts: seq<seq<Byte>>, frames: seq<Frame>, chunks: seq<seq<Byte>>)
    requires Local(first) && first([]).None?
    requires |parts| == |frames| && forall i :: 0 <= i < |frames| ==> Reads(first, parts[i], frames[i])
    requires forall i :: 0 <= i < |frames| - 1 ==> frames[i].opcode != CLOSE
    requires Flatten(chunks) == Flatten(parts)
    ensures Feed(first, [], chunks) == Decoded(Texts(frames), [])
  {
    DecodeFrames(first, parts, frames);
    assert [] + Flatten(chunks) == Flatten(parts);
    FeedIsDecode(first, [], chunks);
  }
}
