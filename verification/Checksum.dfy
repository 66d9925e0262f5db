/** The checksum of a bar file: CRC-32 as section 8 of RFC 1952 defines it
    (reflected polynomial 0xEDB88320), and its four-byte field. */
module Checksum {
  import opened Bars

  function CrcBit(c: bv32): bv32 {
    if c & 1 == 1 then (c >> 1) ^ 0xEDB8_8320 else c >> 1
  }

  function EightBits(c: bv32): bv32 {
    CrcBit(CrcBit(CrcBit(CrcBit(CrcBit(CrcBit(CrcBit(CrcBit(c))))))))
  }

  function CrcByte(c: bv32, b: Byte): bv32 {
    EightBits(c ^ (b as bv32))
  }

  function CrcFold(c: bv32, s: seq<Byte>): bv32
    decreases |s|
  {
    if s == [] then c else CrcFold(CrcByte(c, s[0]), s[1..])
  }

  function Crc32(s: seq<Byte>): bv32 {
    !CrcFold(0xFFFF_FFFF, s)
  }

  /** The published check value: the CRC-32 of the ASCII string 123456789. */
  lemma Crc32CheckValue()
    ensures Crc32([0x31, 0x32, 0x33, 0x34, 0x35, 0x36, 0x37, 0x38, 0x39]) == 0xCBF4_3926
  {
    var c2 := CrcByte(CrcByte(0xFFFF_FFFF, 0x31), 0x32);
    var c4 := CrcByte(CrcByte(c2, 0x33), 0x34);
    var c6 := CrcByte(CrcByte(c4, 0x35), 0x36);
    assert CrcFold(c6, [0x37, 0x38, 0x39]) == !0xCBF4_3926;
    assert CrcFold(c4, [0x35, 0x36, 0x37, 0x38, 0x39]) == CrcFold(c6, [0x37, 0x38, 0x39]);
    assert CrcFold(c2, [0x33, 0x34, 0x35, 0x36, 0x37, 0x38, 0x39]) == CrcFold(c4, [0x35, 0x36, 0x37, 0x38, 0x39]);
  }

  /** One shift of the register loses nothing: the top bit of the result tells
      whether the polynomial was added. */
  lemma CrcBitInjective(c: bv32, d: bv32)
    requires CrcBit(c) == CrcBit(d)
    ensures c == d
  {
  }

  lemma XorInjective(c: bv32, d: bv32, b: Byte, e: Byte)
    ensures c ^ (b as bv32) == d ^ (b as bv32) ==> c == d
    ensures c ^ (b as bv32) == c ^ (e as bv32) ==> b == e
  {
  }

  lemma EightBitsInjective(c: bv32, d: bv32)
    requires EightBits(c) == EightBits(d)
    ensures c == d
  {
    CrcBitInjective(CrcBit(CrcBit(CrcBit(CrcBit(CrcBit(CrcBit(CrcBit(c))))))),
                    CrcBit(CrcBit(CrcBit(CrcBit(CrcBit(CrcBit(CrcBit(d))))))));
    CrcBitInjective(CrcBit(CrcBit(CrcBit(CrcBit(CrcBit(CrcBit(c)))))), CrcBit(CrcBit(CrcBit(CrcBit(CrcBit(CrcBit(d)))))));
    CrcBitInjective(CrcBit(CrcBit(CrcBit(CrcBit(CrcBit(c))))), CrcBit(CrcBit(CrcBit(CrcBit(CrcBit(d))))));
    CrcBitInjective(CrcBit(CrcBit(CrcBit(CrcBit(c)))), CrcBit(CrcBit(CrcBit(CrcBit(d)))));
    CrcBitInjective(CrcBit(CrcBit(CrcBit(c))), CrcBit(CrcBit(CrcBit(d))));
    CrcBitInjective(CrcBit(CrcBit(c)), CrcBit(CrcBit(d)));
    CrcBitInjective(CrcBit(c), CrcBit(d));
    CrcBitInjective(c, d);
  }

  /** A whole byte step is injective in the register. */
  lemma CrcByteInjective(c: bv32, d: bv32, b: Byte)
    requires CrcByte(c, b) == CrcByte(d, b)
    ensures c == d
  {
    hide EightBits;
    EightBitsInjective(c ^ (b as bv32), d ^ (b as bv32));
    XorInjective(c, d, b, b);
  }

  /** It is injective in the byte too. */
  lemma CrcByteDistinguishes(c: bv32, b: Byte, e: Byte)
    requires CrcByte(c, b) == CrcByte(c, e)
    ensures b == e
  {
    hide EightBits;
    EightBitsInjective(c ^ (b as bv32), c ^ (e as bv32));
    XorInjective(c, c, b, e);
  }

  lemma {:induction false} CrcFoldInjective(c: bv32, d: bv32, s: seq<Byte>)
    requires CrcFold(c, s) == CrcFold(d, s)
    ensures c == d
    decreases |s|
  {
    if s != [] {
      CrcFoldInjective(CrcByte(c, s[0]), CrcByte(d, s[0]), s[1..]);
      CrcByteInjective(c, d, s[0]);
    }
  }

  lemma {:induction false} CrcFoldAppend(c: bv32, a: seq<Byte>, b: seq<Byte>)
    ensures CrcFold(c, a + b) == CrcFold(CrcFold(c, a), b)
    decreases |a|
  {
    if a == [] {
      assert a + b == b;
    } else {
      CrcFoldAppend(CrcByte(c, a[0]), a[1..], b);
      assert (a + b)[1..] == a[1..] + b;
    }
  }

  /** Changing one byte of the input always changes the checksum. */
  lemma Crc32DetectsByteChange(s: seq<Byte>, i: nat, b: Byte)
    requires i < |s| && s[i] != b
    ensures Crc32(s[i := b]) != Crc32(s)
  {
    var c := CrcFold(0xFFFF_FFFF, s[..i]);
    var tail := s[i + 1..];
    assert s == s[..i] + ([s[i]] + tail);
    assert s[i := b] == s[..i] + ([b] + tail);
    CrcFoldAppend(0xFFFF_FFFF, s[..i], [s[i]] + tail);
    CrcFoldAppend(0xFFFF_FFFF, s[..i], [b] + tail);
    assert ([s[i]] + tail)[1..] == tail && ([b] + tail)[1..] == tail;
    if CrcFold(CrcByte(c, s[i]), tail) == CrcFold(CrcByte(c, b), tail) {
      CrcFoldInjective(CrcByte(c, s[i]), CrcByte(c, b), tail);
      CrcByteDistinguishes(c, s[i], b);
    }
  }

  /** The four little-endian bytes of a checksum. */
  function CrcBytes(c: bv32): (s: seq<Byte>)
    ensures |s| == 4
  {
    [(c & 0xFF) as Byte, ((c >> 8) & 0xFF) as Byte, ((c >> 16) & 0xFF) as Byte, (c >> 24) as Byte]
  }

  function CrcOfBytes(s: seq<Byte>): bv32
    requires |s| == 4
  {
    (s[0] as bv32) | ((s[1] as bv32) << 8) | ((s[2] as bv32) << 16) | ((s[3] as bv32) << 24)
  }

  lemma CrcBytesRoundTrip(c: bv32)
    ensures CrcOfBytes(CrcBytes(c)) == c
  {
  }

  lemma CrcOfBytesRoundTrip(s: seq<Byte>)
    requires |s| == 4
    ensures CrcBytes(CrcOfBytes(s)) == s
  {
  }
}
