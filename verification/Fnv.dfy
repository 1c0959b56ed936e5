/** The 64-bit FNV-1a hash (crates/tailfin-ident/src/lib.rs). */
module Fnv {
  import opened Foundations

  type Message = seq<bv8>

  const FNV_OFFSET: bv64 := 0xcbf2_9ce4_8422_2325

  /** Multiplies by the FNV prime, wrapping around. */
  function TimesPrime(x: bv64): bv64 { x * 0x0000_0100_0000_01b3 }

  function MixByte(h: bv64, b: bv8): bv64 {
    TimesPrime(h ^ (b as bv64))
  }

  function Hash(h: bv64, bytes: Message): bv64
    decreases |bytes|
  {
    if bytes == [] then h else Hash(MixByte(h, bytes[0]), bytes[1..])
  }

  method Fnv1a(start: bv64, bytes: Message) returns (h: bv64)
    ensures h == Hash(start, bytes)
  {
    h := start;
    for i := 0 to |bytes|
      invariant Hash(h, bytes[i..]) == Hash(start, bytes)
    {
      assert bytes[i..][1..] == bytes[i + 1..];
      h := MixByte(h, bytes[i]);
    }
  }

  lemma {:induction false} HashConcat(h: bv64, a: Message, b: Message)
    ensures Hash(h, a + b) == Hash(Hash(h, a), b)
    decreases |a|
  {
    if a == [] {
      assert a + b == b;
    } else {
      assert (a + b)[1..] == a[1..] + b;
      HashConcat(MixByte(h, a[0]), a[1..], b);
    }
  }

  // ----- published values -----

  /** The published hashes of the empty string, of "a" and of "foobar". */
  lemma PublishedHashes()
    ensures Hash(FNV_OFFSET, []) == 0xcbf2_9ce4_8422_2325
    ensures Hash(FNV_OFFSET, [0x61]) == 0xaf63_dc4c_8601_ec8c
    ensures Hash(FNV_OFFSET, [0x66, 0x6f, 0x6f, 0x62, 0x61, 0x72]) == 0x8594_4171_f739_67e8
  {}

  // ----- no byte is ever lost -----

  /** Multiplies by the inverse of the prime modulo 2^64. */
  function ByInverse(x: bv64): bv64 { x * 0xce96_5057_aff6_957b }

  lemma PrimeProduct(x: bv64)
    ensures TimesPrime(x) == x * 0x0000_0100_0000_01b3
  {}

  lemma InverseProduct(y: bv64, x: bv64)
    requires y == x * 0x0000_0100_0000_01b3
    ensures ByInverse(y) == x
  {}

  lemma PrimeUndone(x: bv64)
    ensures ByInverse(TimesPrime(x)) == x
  {
    PrimeProduct(x);
    InverseProduct(TimesPrime(x), x);
  }

  lemma MixUndone(h: bv64, b: bv8)
    ensures ByInverse(MixByte(h, b)) == h ^ (b as bv64)
  {
    PrimeUndone(h ^ (b as bv64));
  }

  lemma XorTwice(y: bv64, x: bv64, z: bv64)
    requires y == x ^ z
    ensures y ^ z == x
  {}

  lemma XorTellsBytes(x: bv64, b: bv8, c: bv8)
    requires x ^ (b as bv64) == x ^ (c as bv64)
    ensures b == c
  {}

  /** The state before a byte was mixed in. */
  function Unmix(m: bv64, b: bv8): bv64 {
    ByInverse(m) ^ (b as bv64)
  }

  lemma UnmixMix(h: bv64, b: bv8)
    ensures Unmix(MixByte(h, b), b) == h
  {
    MixUndone(h, b);
    XorTwice(ByInverse(MixByte(h, b)), h, b as bv64);
  }

  /** From different states the same byte leads to different states. */
  lemma MixKeepsStates(h: bv64, g: bv64, b: bv8)
    requires MixByte(h, b) == MixByte(g, b)
    ensures h == g
  {
    UnmixMix(h, b);
    UnmixMix(g, b);
  }

  /** From the same state different bytes lead to different states. */
  lemma MixTellsBytes(h: bv64, b: bv8, c: bv8)
    requires MixByte(h, b) == MixByte(h, c)
    ensures b == c
  {
    MixUndone(h, b);
    MixUndone(h, c);
    XorTellsBytes(h, b, c);
  }

  lemma {:induction false} HashKeepsStates(h: bv64, g: bv64, bytes: Message)
    ensures Hash(h, bytes) == Hash(g, bytes) <==> h == g
    decreases |bytes|
  {
    if bytes != [] {
      HashKeepsStates(MixByte(h, bytes[0]), MixByte(g, bytes[0]), bytes[1..]);
      if MixByte(h, bytes[0]) == MixByte(g, bytes[0]) {
        MixKeepsStates(h, g, bytes[0]);
      }
    }
  }

  /** Texts that differ in one byte never hash alike, wherever it is and from whatever state. */
  lemma {:induction false} OneByteTells(h: bv64, before: Message, b: bv8, c: bv8, after: Message)
    ensures Hash(h, before + [b] + after) == Hash(h, before + [c] + after) <==> b == c
  {
    var mid := Hash(h, before);
    HashConcat(h, before + [b], after);
    HashConcat(h, before, [b]);
    HashConcat(h, before + [c], after);
    HashConcat(h, before, [c]);
    HashOne(mid, b);
    HashOne(mid, c);
    HashKeepsStates(MixByte(mid, b), MixByte(mid, c), after);
    if MixByte(mid, b) == MixByte(mid, c) {
      MixTellsBytes(mid, b, c);
    }
  }

  lemma HashOne(h: bv64, b: bv8)
    ensures Hash(h, [b]) == MixByte(h, b)
  {
    assert [b][1..] == [];
  }
}
