/** Unsigned integers as little-endian bytes (`to_le_bytes` and `from_le_bytes`). */
module LittleEndian {
  import opened Bars

  /** The `k` low bits of `n`, lowest first. */
  function BitsOf(n: nat, k: nat): (bits: seq<bool>)
    ensures |bits| == k
  {
    if k == 0 then [] else [n % 2 == 1] + BitsOf(n / 2, k - 1)
  }

  function NatOf(bits: seq<bool>): nat {
    if bits == [] then 0 else (if bits[0] then 1 else 0) + 2 * NatOf(bits[1..])
  }

  function Pow2(k: nat): (p: nat)
    ensures p > 0
  {
    if k == 0 then 1 else 2 * Pow2(k - 1)
  }

  lemma {:induction false} NatOfBitsOf(n: nat, k: nat)
    requires n < Pow2(k)
    ensures NatOf(BitsOf(n, k)) == n
  {
    if k > 0 {
      NatOfBitsOf(n / 2, k - 1);
      assert BitsOf(n, k)[1..] == BitsOf(n / 2, k - 1);
    }
  }

  lemma {:induction false} BitsOfNatOf(bits: seq<bool>)
    ensures NatOf(bits) < Pow2(|bits|)
    ensures BitsOf(NatOf(bits), |bits|) == bits
  {
    if bits != [] {
      BitsOfNatOf(bits[1..]);
      assert NatOf(bits) / 2 == NatOf(bits[1..]) && (NatOf(bits) % 2 == 1) == bits[0];
      assert bits == [bits[0]] + bits[1..];
    }
  }

  lemma Pow2Eight()
    ensures Pow2(8) == 256
  {
    assert Pow2(4) == 16;
  }

  function FromBits(s: seq<bool>): Byte
    requires |s| == 8
  {
    (if s[0] then 1 else 0) | (if s[1] then 2 else 0) | (if s[2] then 4 else 0) | (if s[3] then 8 else 0)
    | (if s[4] then 16 else 0) | (if s[5] then 32 else 0) | (if s[6] then 64 else 0) | (if s[7] then 128 else 0)
  }

  function ByteBits(b: Byte): (s: seq<bool>)
    ensures |s| == 8
  {
    [b & 1 != 0, b & 2 != 0, b & 4 != 0, b & 8 != 0, b & 16 != 0, b & 32 != 0, b & 64 != 0, b & 128 != 0]
  }

  lemma ByteBitsFromBits(s: seq<bool>)
    requires |s| == 8
    ensures ByteBits(FromBits(s)) == s
  {
  }

  lemma FromBitsByteBits(b: Byte)
    ensures FromBits(ByteBits(b)) == b
  {
  }

  function ByteOf(n: nat): Byte {
    FromBits(BitsOf(n, 8))
  }

  function ByteVal(b: Byte): (n: nat)
    ensures n < 256
  {
    BitsOfNatOf(ByteBits(b));
    Pow2Eight();
    NatOf(ByteBits(b))
  }

  lemma ByteOfVal(n: nat)
    requires n < 256
    ensures ByteVal(ByteOf(n)) == n
  {
    hide FromBits, ByteBits, NatOf, BitsOf, Pow2;
    Pow2Eight();
    NatOfBitsOf(n, 8);
    ByteBitsFromBits(BitsOf(n, 8));
  }

  lemma ValOfByte(b: Byte)
    ensures ByteOf(ByteVal(b)) == b
  {
    hide FromBits, ByteBits, NatOf, BitsOf, Pow2;
    BitsOfNatOf(ByteBits(b));
    FromBitsByteBits(b);
  }

  /** The `k` low bytes of `n`, least significant first. */
  function Le(n: nat, k: nat): (s: seq<Byte>)
    ensures |s| == k
  {
    if k == 0 then [] else [ByteOf(n % 256)] + Le(n / 256, k - 1)
  }

  function UnLe(s: seq<Byte>): nat {
    if s == [] then 0 else ByteVal(s[0]) + 256 * UnLe(s[1..])
  }

  function Pow256(k: nat): (p: nat)
    ensures p > 0
  {
    if k == 0 then 1 else 256 * Pow256(k - 1)
  }

  lemma PowValues()
    ensures Pow256(4) == 0x1_0000_0000 && Pow256(8) == 0x1_0000_0000_0000_0000
  {
    assert Pow256(2) == 0x1_0000;
    assert Pow256(4) == 0x1_0000_0000;
    assert Pow256(6) == 0x1_0000_0000_0000;
  }

  lemma {:induction false} UnLeLe(n: nat, k: nat)
    requires n < Pow256(k)
    ensures UnLe(Le(n, k)) == n
  {
    hide ByteOf, ByteVal;
    if k > 0 {
      UnLeLe(n / 256, k - 1);
      ByteOfVal(n % 256);
      assert Le(n, k)[1..] == Le(n / 256, k - 1);
    }
  }

  lemma LowDigit(d: nat, q: nat)
    requires d < 256
    ensures (d + 256 * q) % 256 == d && (d + 256 * q) / 256 == q
  {
  }

  lemma {:induction false} LeUnLe(s: seq<Byte>)
    ensures UnLe(s) < Pow256(|s|)
    ensures Le(UnLe(s), |s|) == s
  {
    hide ByteOf, ByteVal;
    if s != [] {
      LeUnLe(s[1..]);
      ValOfByte(s[0]);
      LowDigit(ByteVal(s[0]), UnLe(s[1..]));
      calc {
        Le(UnLe(s), |s|);
        [ByteOf(UnLe(s) % 256)] + Le(UnLe(s) / 256, |s| - 1);
        [s[0]] + s[1..];
        s;
      }
    }
  }
}
