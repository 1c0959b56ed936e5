/** Text frames out of a WebSocket byte stream that arrives in arbitrary chunks
    (crates/tailfin-proxy/src/ws.rs), framed as in sections 5.2 and 5.3 of RFC 6455. */
module WebSocket {
  import opened Foundations
  import opened FrameStream

  // ----- bits and big-endian numbers -----

  function XorBits(a: nat, b: nat, bits: nat): nat {
    if bits == 0 then 0 else (a % 2 + b % 2) % 2 + 2 * XorBits(a / 2, b / 2, bits - 1)
  }

  function Pow2(n: nat): nat {
    if n == 0 then 1 else 2 * Pow2(n - 1)
  }

  lemma {:induction false} XorBitsBound(a: nat, b: nat, bits: nat)
    ensures XorBits(a, b, bits) < Pow2(bits)
  {
    if bits > 0 {
      XorBitsBound(a / 2, b / 2, bits - 1);
    }
  }

  lemma BitUndo(a: nat, b: nat)
    requires a < 2 && b < 2
    ensures ((a + b) % 2 + b) % 2 == a
  {}

  lemma HalfAndParity(low: nat, high: nat)
    requires low < 2
    ensures (low + 2 * high) / 2 == high && (low + 2 * high) % 2 == low
  {}

  lemma {:induction false} XorBitsUndo(a: nat, b: nat, bits: nat)
    requires a < Pow2(bits)
    ensures XorBits(XorBits(a, b, bits), b, bits) == a
  {
    if bits > 0 {
      XorBitsUndo(a / 2, b / 2, bits - 1);
      var low, high := (a % 2 + b % 2) % 2, XorBits(a / 2, b / 2, bits - 1);
      var x := low + 2 * high;
      HalfAndParity(low, high);
      assert XorBits(x, b, bits) == (low + b % 2) % 2 + 2 * XorBits(high, b / 2, bits - 1);
      BitUndo(a % 2, b % 2);
    }
  }

  function Xor(a: Byte, b: Byte): Byte {
    XorBitsBound(a, b, 8);
    assert Pow2(8) == 256;
    XorBits(a, b, 8)
  }

  lemma XorUndo(a: Byte, b: Byte)
    ensures Xor(Xor(a, b), b) == a
  {
    assert Pow2(8) == 256;
    XorBitsUndo(a, b, 8);
  }

  function BigEndian(bytes: seq<Byte>): nat {
    if bytes == [] then 0 else 256 * BigEndian(bytes[..|bytes| - 1]) + bytes[|bytes| - 1]
  }

  function ToBigEndian(n: nat, width: nat): (bytes: seq<Byte>)
    ensures |bytes| == width
  {
    if width == 0 then [] else ToBigEndian(n / 256, width - 1) + [n % 256]
  }

  function Pow256(n: nat): nat {
    if n == 0 then 1 else 256 * Pow256(n - 1)
  }

  lemma {:induction false} BigEndianRoundTrip(n: nat, width: nat)
    requires n < Pow256(width)
    ensures BigEndian(ToBigEndian(n, width)) == n
  {
    if width > 0 {
      BigEndianRoundTrip(n / 256, width - 1);
      assert ToBigEndian(n, width)[..width - 1] == ToBigEndian(n / 256, width - 1);
    }
  }

  // ----- one frame -----

  function Masked(data: seq<Byte>, mask: seq<Byte>): seq<Byte>
    requires |mask| == 4
  {
    seq(|data|, i requires 0 <= i < |data| => Xor(data[i], mask[i % 4]))
  }

  lemma MaskedTwice(data: seq<Byte>, mask: seq<Byte>)
    requires |mask| == 4
    ensures Masked(Masked(data, mask), mask) == data
  {
    forall i | 0 <= i < |data| ensures Masked(Masked(data, mask), mask)[i] == data[i] {
      XorUndo(data[i], mask[i % 4]);
    }
  }

  /** Payload length and header length, once enough of the header is there. */
  datatype Sizes = Sizes(len: nat, hdr: nat)

  function ReadSizes(buf: seq<Byte>): Option<Sizes>
    requires |buf| >= 2
  {
    var short := buf[1] % 128;
    if short == 126 then
      if |buf| < 4 then None else Some(Sizes(BigEndian(buf[2..4]), 4))
    else if short == 127 then
      if |buf| < 10 then None else Some(Sizes(BigEndian(buf[2..10]), 10))
    else Some(Sizes(short, 2))
  }

  function MaskLength(buf: seq<Byte>): nat
    requires |buf| >= 2
  {
    if buf[1] >= 128 then 4 else 0
  }

  /** The frame at the front of the buffer, if all of it is there. */
  function FirstFrame(buf: seq<Byte>): (f: Option<Frame>)
    ensures f.Some? ==> 2 <= f.value.size <= |buf|
  {
    if |buf| < 2 || ReadSizes(buf).None? then None
    else
      var Sizes(len, hdr) := ReadSizes(buf).value;
      var start := hdr + MaskLength(buf);
      if |buf| < start + len then None
      else
        var raw := buf[start..start + len];
        Some(Frame(buf[0] % 16, if buf[1] >= 128 then Masked(raw, buf[hdr..hdr + 4]) else raw, start + len))
  }

  /** A frame that is all there does not depend on what follows it. */
  lemma FrameIsLocal(buf: seq<Byte>, other: seq<Byte>)
    requires FirstFrame(buf).Some?
    requires FirstFrame(buf).value.size <= |other|
    requires other[..FirstFrame(buf).value.size] == buf[..FirstFrame(buf).value.size]
    ensures FirstFrame(other) == FirstFrame(buf)
  {
    var n := FirstFrame(buf).value.size;
    forall i | 0 <= i < n ensures buf[i] == other[i] {
      assert buf[..n][i] == other[..n][i];
    }
    SizesAreLocal(buf, other);
    var Sizes(len, hdr) := ReadSizes(buf).value;
    SliceIsLocal(buf, other, hdr + MaskLength(buf), n);
    if buf[1] >= 128 {
      SliceIsLocal(buf, other, hdr, hdr + 4);
    }
  }

  lemma SliceIsLocal(buf: seq<Byte>, other: seq<Byte>, lo: nat, hi: nat)
    requires lo <= hi <= |buf| && hi <= |other| && forall i :: lo <= i < hi ==> buf[i] == other[i]
    ensures buf[lo..hi] == other[lo..hi]
  {}

  lemma SizesAreLocal(buf: seq<Byte>, other: seq<Byte>)
    requires |buf| >= 2 && |other| >= 2 && ReadSizes(buf).Some? && ReadSizes(buf).value.hdr <= |other|
    requires forall i :: 0 <= i < ReadSizes(buf).value.hdr ==> buf[i] == other[i]
    ensures ReadSizes(other) == ReadSizes(buf) && MaskLength(other) == MaskLength(buf)
  {
    SliceIsLocal(buf, other, 2, ReadSizes(buf).value.hdr);
  }

  /** The framing of WebSocket streams. */
  lemma FramingIsLocal()
    ensures Local(FirstFrame)
  {
    forall buf, other, n | FirstFrame(buf).Some? && n == FirstFrame(buf).value.size && SameFront(buf, other, n)
      ensures FirstFrame(other) == FirstFrame(buf)
    {
      FrameIsLocal(buf, other);
    }
  }

  /** Parses a whole stream of WebSocket frames. */
  ghost function DecodeStream(buf: seq<Byte>): Decoded {
    FramingIsLocal();
    FrameStream.Decode(FirstFrame, buf)
  }

  // ----- the decoder -----

  /** XORs a payload with its mask, in place. */
  method Unmask(payload: array<Byte>, mask: seq<Byte>)
    requires |mask| == 4
    modifies payload
    ensures payload[..] == Masked(old(payload[..]), mask)
  {
    for i := 0 to payload.Length
      invariant forall j :: 0 <= j < i ==> payload[j] == Xor(old(payload[j]), mask[j % 4])
      invariant forall j :: i <= j < payload.Length ==> payload[j] == old(payload[j])
    {
      payload[i] := Xor(payload[i], mask[i % 4]);
    }
  }

  method Copy(raw: seq<Byte>) returns (payload: array<Byte>)
    ensures fresh(payload) && payload[..] == raw
  {
    payload := new Byte[|raw|](i requires 0 <= i < |raw| => raw[i]);
  }

  /** Reads the frame at the front of the buffer. */
  method ReadFrame(buf: seq<Byte>) returns (f: Option<Frame>)
    ensures f == FirstFrame(buf)
  {
    if |buf| < 2 {
      return None;
    }
    var len: nat, hdr: nat := buf[1] % 128, 2;
    if len == 126 {
      if |buf| < 4 {
        return None;
      }
      len, hdr := BigEndian(buf[2..4]), 4;
    } else if len == 127 {
      if |buf| < 10 {
        return None;
      }
      len, hdr := BigEndian(buf[2..10]), 10;
    }
    var maskLen := if buf[1] >= 128 then 4 else 0;
    if |buf| < hdr + maskLen + len {
      return None;
    }
    var payload := Copy(buf[hdr + maskLen..hdr + maskLen + len]);
    if buf[1] >= 128 {
      Unmask(payload, buf[hdr..hdr + 4]);
    }
    return Some(Frame(buf[0] % 16, payload[..], hdr + maskLen + len));
  }

  class WsTextDecoder {
    var buf: seq<Byte>

    constructor ()
      ensures buf == []
    {
      buf := [];
    }

    /** Takes a chunk and hands out the text payloads that are complete by now. */
    method Push(chunk: seq<Byte>) returns (out: seq<seq<Byte>>)
      modifies this
      ensures Decoded(out, buf) == DecodeStream(old(buf) + chunk)
    {
      buf := buf + chunk;
      out := [];
      FramingIsLocal();
      ghost var whole := DecodeStream(buf);
      ThenNothing(whole);
      while true
        invariant whole == Then(out, DecodeStream(buf))
        decreases |buf|
      {
        var first := ReadFrame(buf);
        DecodeUnfolds(buf);
        if first.None? {
          return;
        }
        var f := first.value;
        buf := buf[f.size..];
        if IsText(f.opcode) {
          ThenThen(out, [f.payload], DecodeStream(buf));
          out := out + [f.payload];
        } else if f.opcode == CLOSE {
          return;
        }
      }
    }
  }

  lemma DecodeUnfolds(buf: seq<Byte>)
    ensures Sane(FirstFrame)
    ensures DecodeStream(buf) == match FirstFrame(buf)
                           case None => Decoded([], buf)
                           case Some(f) =>
                             if f.opcode == CLOSE then Decoded([], buf[f.size..])
                             else if IsText(f.opcode) then Then([f.payload], DecodeStream(buf[f.size..]))
                             else DecodeStream(buf[f.size..])
  {
    FramingIsLocal();
    if FirstFrame(buf).Some? {
      ThenNothing(DecodeStream(buf[FirstFrame(buf).value.size..]));
    }
  }

  /** Chunk invariance, and exactly when it holds. If no complete frame follows the first close frame, every
      chunking of the stream gives the payloads and the left-over bytes of the whole-stream parse; if one
      does, some chunking gives something else. */
  lemma {:induction false} WebSocketChunkInvariance(stream: seq<Byte>)
    ensures Sane(FirstFrame)
    ensures QuietAfterClose(FirstFrame, stream) <==>
            forall chunks :: Flatten(chunks) == stream ==> Feed(FirstFrame, [], chunks) == DecodeStream(stream)
  {
    FramingIsLocal();
    ChunkInvariance(FirstFrame, stream);
  }

  // ----- round trip -----

  /** A frame to be sent: its first byte, an optional masking key, and its payload. */
  datatype Sent = Sent(head: Byte, mask: Option<seq<Byte>>, payload: seq<Byte>)

  const MAX_LENGTH: nat := 0x1_0000_0000_0000_0000

  predicate Sendable(s: Sent) {
    |s.payload| < MAX_LENGTH && (s.mask.Some? ==> |s.mask.value| == 4)
  }

  function LengthBytes(n: nat, flag: nat): (bytes: seq<Byte>)
    requires n < MAX_LENGTH && (flag == 0 || flag == 128)
    ensures |bytes| > 0
  {
    if n < 126 then [flag + n]
    else if n <= 0xffff then [flag + 126] + ToBigEndian(n, 2)
    else [flag + 127] + ToBigEndian(n, 8)
  }

  function Encode(s: Sent): seq<Byte>
    requires Sendable(s)
  {
    if s.mask.Some? then [s.head] + LengthBytes(|s.payload|, 128) + s.mask.value + Masked(s.payload, s.mask.value)
    else [s.head] + LengthBytes(|s.payload|, 0) + s.payload
  }

  /** An unmasked text frame, built by appending. */
  method EncodeTextFrame(payload: seq<Byte>) returns (f: seq<Byte>)
    requires |payload| < MAX_LENGTH
    ensures f == Encode(Sent(0x81, None, payload))
  {
    f := [0x81];
    var n := |payload|;
    if n < 126 {
      f := f + [n];
    } else if n <= 0xffff {
      f := f + [126];
      f := f + ToBigEndian(n, 2);
    } else {
      f := f + [127];
      f := f + ToBigEndian(n, 8);
    }
    f := f + payload;
  }

  lemma HeaderRoundTrip(head: Byte, n: nat, flag: nat, tail: seq<Byte>)
    requires n < MAX_LENGTH && (flag == 0 || flag == 128)
    ensures var buf := [head] + LengthBytes(n, flag) + tail;
            && |buf| >= 2 && ReadSizes(buf) == Some(Sizes(n, 1 + |LengthBytes(n, flag)|))
            && buf[0] == head && (buf[1] >= 128 <==> flag == 128)
  {
    var bytes := LengthBytes(n, flag);
    var buf := [head] + bytes + tail;
    assert buf[1] == bytes[0];
    if n >= 126 {
      var width := if n <= 0xffff then 2 else 8;
      assert buf[2..2 + width] == ToBigEndian(n, width);
      PowersOf256();
      BigEndianRoundTrip(n, width);
    }
  }

  lemma LengthRoundTrip(s: Sent, rest: seq<Byte>)
    requires Sendable(s)
    ensures var buf := Encode(s) + rest;
            var hdr := 1 + |LengthBytes(|s.payload|, 0)|;
            && |buf| >= 2 && ReadSizes(buf) == Some(Sizes(|s.payload|, hdr))
            && buf[0] == s.head && (buf[1] >= 128 <==> s.mask.Some?)
  {
    var n := |s.payload|;
    if s.mask.Some? {
      var tail := s.mask.value + Masked(s.payload, s.mask.value) + rest;
      assert Encode(s) + rest == [s.head] + LengthBytes(n, 128) + tail;
      HeaderRoundTrip(s.head, n, 128, tail);
    } else {
      assert Encode(s) + rest == [s.head] + LengthBytes(n, 0) + (s.payload + rest);
      HeaderRoundTrip(s.head, n, 0, s.payload + rest);
    }
  }

  lemma PowersOf256()
    ensures Pow256(2) == 0x1_0000 && Pow256(8) == MAX_LENGTH
  {
    assert Pow256(1) == 256;
    assert Pow256(2) == 0x1_0000;
    assert Pow256(3) == 0x100_0000;
    assert Pow256(4) == 0x1_0000_0000;
    assert Pow256(5) == 0x100_0000_0000;
    assert Pow256(6) == 0x1_0000_0000_0000;
    assert Pow256(7) == 0x100_0000_0000_0000;
  }

  lemma Pieces(front: seq<Byte>, mask: seq<Byte>, data: seq<Byte>, rest: seq<Byte>)
    ensures var buf := front + mask + data + rest;
            var n, m := |front|, |front| + |mask|;
            buf[n..m] == mask && buf[m..m + |data|] == data && |front + mask + data| == m + |data|
    ensures front + [] + data + rest == front + data + rest
  {
    assert front + [] == front;
  }

  /** A sent frame is read back, whatever follows it. */
  lemma FrameRoundTrip(s: Sent, rest: seq<Byte>)
    requires Sendable(s)
    ensures FirstFrame(Encode(s) + rest) == Some(Frame(s.head % 16, s.payload, |Encode(s)|))
  {
    var buf := Encode(s) + rest;
    var n, hdr := |s.payload|, 1 + |LengthBytes(|s.payload|, 0)|;
    LengthRoundTrip(s, rest);
    if s.mask.Some? {
      var front := [s.head] + LengthBytes(n, 128);
      assert |front| == hdr;
      Pieces(front, s.mask.value, Masked(s.payload, s.mask.value), rest);
      MaskedTwice(s.payload, s.mask.value);
    } else {
      Pieces([s.head] + LengthBytes(n, 0), [], s.payload, rest);
    }
  }

  ghost function Encoded(frames: seq<Sent>): seq<seq<Byte>>
    requires forall i :: 0 <= i < |frames| ==> Sendable(frames[i])
  {
    seq(|frames|, i requires 0 <= i < |frames| => Encode(frames[i]))
  }

  ghost function Received(frames: seq<Sent>): seq<Frame>
    requires forall i :: 0 <= i < |frames| ==> Sendable(frames[i])
  {
    seq(|frames|, i requires 0 <= i < |frames| => Frame(frames[i].head % 16, frames[i].payload, |Encode(frames[i])|))
  }

  /** Round trip: any frames, masked or not, of any of the three length forms, none but the last a close
      frame, come back as their text payloads under every chunking, with nothing left over. */
  lemma {:induction false} RoundTrip(frames: seq<Sent>, chunks: seq<seq<Byte>>)
    requires forall i :: 0 <= i < |frames| ==> Sendable(frames[i])
    requires forall i :: 0 <= i < |frames| - 1 ==> frames[i].head % 16 != CLOSE
    requires Flatten(chunks) == Flatten(Encoded(frames))
    ensures Sane(FirstFrame)
    ensures Feed(FirstFrame, [], chunks) == Decoded(Texts(Received(frames)), [])
  {
    FramingIsLocal();
    forall i | 0 <= i < |frames| ensures Reads(FirstFrame, Encoded(frames)[i], Received(frames)[i]) {
      FrameRoundTrip(frames[i], []);
      assert Encode(frames[i]) + [] == Encode(frames[i]);
    }
    FeedFrames(FirstFrame, Encoded(frames), Received(frames), chunks);
  }

  /** Text frames in particular: every list of payloads comes back. */
  lemma {:induction false} TextRoundTrip(payloads: seq<seq<Byte>>, chunks: seq<seq<Byte>>)
    requires forall i :: 0 <= i < |payloads| ==> |payloads[i]| < MAX_LENGTH
    requires Flatten(chunks) == Flatten(Encoded(AsText(payloads)))
    ensures Sane(FirstFrame)
    ensures Feed(FirstFrame, [], chunks) == Decoded(payloads, [])
  {
    RoundTrip(AsText(payloads), chunks);
    TextsOfText(Received(AsText(payloads)), payloads);
  }

  function AsText(payloads: seq<seq<Byte>>): seq<Sent> {
    seq(|payloads|, i requires 0 <= i < |payloads| => Sent(0x81, None, payloads[i]))
  }

  lemma {:induction false} TextsOfText(frames: seq<Frame>, payloads: seq<seq<Byte>>)
    requires |frames| == |payloads|
    requires forall i :: 0 <= i < |frames| ==> frames[i].opcode == 1 && frames[i].payload == payloads[i]
    ensures Texts(frames) == payloads
  {
    if frames != [] {
      TextsOfText(frames[1..], payloads[1..]);
      assert [payloads[0]] + payloads[1..] == payloads;
    }
  }
}
