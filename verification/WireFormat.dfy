/** What WebSocket bytes mean, said without the code that reads them: bits, network byte order, opcodes, and an
    example of section 5.7 of RFC 6455. */
module WireFormat {
  import opened Foundations
  import opened FrameStream
  import opened WebSocket

  // ----- bits and bytes -----

  /** The number with the given bits, lowest first. */
  function FromBits(bits: seq<bool>): nat {
    if bits == [] then 0 else (if bits[0] then 1 else 0) + 2 * FromBits(bits[1..])
  }

  /** Where two rows of bits differ. */
  function Differ(x: seq<bool>, y: seq<bool>): seq<bool>
    requires |x| == |y|
  {
    seq(|x|, i requires 0 <= i < |x| => x[i] != y[i])
  }

  lemma LowestBit(x: seq<bool>)
    requires x != []
    ensures FromBits(x) % 2 == (if x[0] then 1 else 0) && FromBits(x) / 2 == FromBits(x[1..])
  {
    HalfAndParity(if x[0] then 1 else 0, FromBits(x[1..]));
  }

  /** A bit of the exclusive or is set exactly where the two numbers differ. */
  lemma {:induction false} XorIsBitwise(x: seq<bool>, y: seq<bool>)
    requires |x| == |y|
    ensures XorBits(FromBits(x), FromBits(y), |x|) == FromBits(Differ(x, y))
  {
    if x != [] {
      XorIsBitwise(x[1..], y[1..]);
      LowestBit(x);
      LowestBit(y);
      assert Differ(x, y)[1..] == Differ(x[1..], y[1..]);
      assert XorBits(FromBits(x), FromBits(y), |x|)
          == (if x[0] != y[0] then 1 else 0) + 2 * XorBits(FromBits(x[1..]), FromBits(y[1..]), |x| - 1);
    }
  }

  /** Network byte order: each byte weighs 256 times the one after it. */
  lemma {:induction false} NetworkOrder(b: Byte, rest: seq<Byte>)
    ensures BigEndian([b] + rest) == b * Pow256(|rest|) + BigEndian(rest)
  {
    var all := [b] + rest;
    if rest == [] {
      assert all == [b] && all[..0] == [];
    } else {
      var init, last := rest[..|rest| - 1], rest[|rest| - 1];
      NetworkOrder(b, init);
      assert all[..|all| - 1] == [b] + init;
      assert 256 * (b * Pow256(|init|)) == b * Pow256(|rest|);
    }
  }

  /** The length of a payload takes one byte if it is less than 126, else the marker 126 and two bytes, else the marker
      127 and eight. */
  lemma {:induction false} LengthForms(n: nat)
    requires n < MAX_LENGTH
    ensures n < 126 ==> LengthBytes(n, 0) == [n] && LengthBytes(n, 128) == [128 + n]
    ensures 126 <= n < 0x1_0000 ==> LengthBytes(n, 0) == [126, n / 256, n % 256]
    ensures 0x1_0000 <= n ==> |LengthBytes(n, 0)| == 9 && LengthBytes(n, 0)[0] == 127
                              && BigEndian(LengthBytes(n, 0)[1..]) == n
  {
    if 126 <= n < 0x1_0000 {
      assert ToBigEndian(n / 256, 1) == ToBigEndian(n / 256 / 256, 0) + [n / 256 % 256];
      assert ToBigEndian(n, 2) == ToBigEndian(n / 256, 1) + [n % 256];
    }
    if 0x1_0000 <= n {
      PowersOf256();
      BigEndianRoundTrip(n, 8);
      assert LengthBytes(n, 0)[1..] == ToBigEndian(n, 8);
    }
  }

  // ----- opcodes -----

  /** What the decoder does with a frame at the front of the stream: text and binary payloads are handed out, a close
      frame ends the parse, and every other kind is skipped. */
  lemma {:induction false} OpcodeEffects(s: Sent, rest: seq<Byte>)
    requires Sendable(s)
    ensures DecodeStream(Encode(s) + rest) ==
              match s.head % 16
              case 1 => Then([s.payload], DecodeStream(rest))
              case 2 => Then([s.payload], DecodeStream(rest))
              case 8 => Decoded([], rest)
              case _ => DecodeStream(rest)
  {
    var buf := Encode(s) + rest;
    FrameRoundTrip(s, rest);
    DecodeUnfolds(buf);
    assert buf[|Encode(s)|..] == rest;
  }

  /** Masking: the key is the four bytes before the payload, and byte `i` of the payload is the exclusive or of the
      byte sent and byte `i` modulo four of the key. Without the mask bit the payload is what was sent. */
  lemma {:induction false} PayloadBytes(buf: seq<Byte>, i: nat)
    requires FirstFrame(buf).Some? && i < |FirstFrame(buf).value.payload|
    ensures var f := FirstFrame(buf).value;
            var at := f.size - |f.payload|;
            && f.opcode == buf[0] % 16
            && (buf[1] < 128 ==> f.payload[i] == buf[at + i])
            && (buf[1] >= 128 ==> at >= 6 && f.payload[i] == Xor(buf[at + i], buf[at - 4 + i % 4]))
  {
    var Sizes(len, hdr) := ReadSizes(buf).value;
    var start := hdr + MaskLength(buf);
    assert buf[start..start + len][i] == buf[start + i];
    if buf[1] >= 128 {
      assert buf[hdr..hdr + 4][i % 4] == buf[hdr + i % 4];
    }
  }

  /** The unmasked text frame of section 5.7 of RFC 6455, "Hello". */
  lemma {:induction false} RfcExample()
    ensures FirstFrame([0x81, 0x05, 0x48, 0x65, 0x6c, 0x6c, 0x6f])
            == Some(Frame(1, [0x48, 0x65, 0x6c, 0x6c, 0x6f], 7))
  {
    var buf: seq<Byte> := [0x81, 0x05, 0x48, 0x65, 0x6c, 0x6c, 0x6f];
    assert buf[2..7] == [0x48, 0x65, 0x6c, 0x6c, 0x6f];
  }
}
