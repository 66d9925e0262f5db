/** One bar file, byte by byte: the format of `crates/bar-store/src/format.rs` pinned to
    literal values. */
module SampleFile {
  import opened Bars
  import opened Checksum
  import opened LittleEndian
  import opened BarFormat

  const SampleBar := Bar(1_700_000_000, 0x01, 0x0203, 0x04_0506, 0x0708, 0x09)

  const Word1: seq<Byte> := [0x00, 0xF1, 0x53, 0x65, 0x00, 0x00, 0x00, 0x00]
  const Word2: seq<Byte> := [0x01, 0x00, 0x00, 0x00, 0x00, 0x00, 0x00, 0x00]
  const Word3: seq<Byte> := [0x03, 0x02, 0x00, 0x00, 0x00, 0x00, 0x00, 0x00]
  const Word4: seq<Byte> := [0x06, 0x05, 0x04, 0x00, 0x00, 0x00, 0x00, 0x00]
  const Word5: seq<Byte> := [0x08, 0x07, 0x00, 0x00, 0x00, 0x00, 0x00, 0x00]
  const Word6: seq<Byte> := [0x09, 0x00, 0x00, 0x00, 0x00, 0x00, 0x00, 0x00]

  /** Header (magic, version, count, checksum) and the one record. */
  const SampleBytes: seq<Byte> :=
    [0xBA, 0x01, 0x01, 0x00, 0x00, 0x00, 0xC8, 0x2D, 0x3B, 0xB8] + (Word1 + Word2 + Word3 + Word4 + Word5 + Word6)

  lemma NatOfOne(s: seq<bool>)
    requires s != []
    ensures NatOf(s) == (if s[0] then 1 else 0) + 2 * NatOf(s[1..])
  {
  }

  lemma BitWeights(s: seq<bool>)
    requires |s| == 8
    ensures NatOf(s) == (if s[0] then 1 else 0) + (if s[1] then 2 else 0) + (if s[2] then 4 else 0) + (if s[3] then 8 else 0)
                     + (if s[4] then 16 else 0) + (if s[5] then 32 else 0) + (if s[6] then 64 else 0) + (if s[7] then 128 else 0)
  {
    hide NatOf;
    var s1 := s[1..];
    var s2 := s1[1..];
    var s3 := s2[1..];
    var s4 := s3[1..];
    var s5 := s4[1..];
    var s6 := s5[1..];
    var s7 := s6[1..];
    NatOfOne(s);
    NatOfOne(s1);
    NatOfOne(s2);
    NatOfOne(s3);
    NatOfOne(s4);
    NatOfOne(s5);
    NatOfOne(s6);
    NatOfOne(s7);
    assert NatOf(s7[1..]) == 0 by { NatOfNothing(s7[1..]); }
  }

  lemma NatOfNothing(s: seq<bool>)
    requires s == []
    ensures NatOf(s) == 0
  {
  }

  lemma SmallBytes()
    ensures ByteVal(0x00) == 0 && ByteVal(0x01) == 1 && ByteVal(0x02) == 2 && ByteVal(0x03) == 3 && ByteVal(0x04) == 4
    ensures ByteVal(0x05) == 5 && ByteVal(0x06) == 6 && ByteVal(0x07) == 7 && ByteVal(0x08) == 8 && ByteVal(0x09) == 9
  {
    hide NatOf;
    BitWeights(ByteBits(0x00));
    BitWeights(ByteBits(0x01));
    BitWeights(ByteBits(0x02));
    BitWeights(ByteBits(0x03));
    BitWeights(ByteBits(0x04));
    BitWeights(ByteBits(0x05));
    BitWeights(ByteBits(0x06));
    BitWeights(ByteBits(0x07));
    BitWeights(ByteBits(0x08));
    BitWeights(ByteBits(0x09));
  }

  lemma LargeBytes()
    ensures ByteVal(0xF1) == 0xF1 && ByteVal(0x53) == 0x53 && ByteVal(0x65) == 0x65
  {
    hide NatOf;
    BitWeights(ByteBits(0xF1));
    BitWeights(ByteBits(0x53));
    BitWeights(ByteBits(0x65));
  }

  lemma UnLeOne(s: seq<Byte>)
    ensures s == [] ==> UnLe(s) == 0
    ensures s != [] ==> UnLe(s) == ByteVal(s[0]) + 256 * UnLe(s[1..])
  {
  }

  lemma {:induction false} UnLeZeroes(s: seq<Byte>)
    requires forall i :: 0 <= i < |s| ==> s[i] == 0
    ensures UnLe(s) == 0
  {
    hide ByteVal;
    SmallBytes();
    if s != [] {
      UnLeZeroes(s[1..]);
    }
  }

  /** Four low bytes before four zero ones. */
  lemma LowWord(s: seq<Byte>)
    requires |s| == 8 && s[4] == s[5] == s[6] == s[7] == 0
    ensures UnLe(s) == ByteVal(s[0]) + 0x100 * ByteVal(s[1]) + 0x1_0000 * ByteVal(s[2]) + 0x100_0000 * ByteVal(s[3])
  {
    hide ByteVal, UnLe;
    var s1 := s[1..];
    var s2 := s1[1..];
    var s3 := s2[1..];
    UnLeOne(s);
    UnLeOne(s1);
    UnLeOne(s2);
    UnLeOne(s3);
    UnLeZeroes(s3[1..]);
  }

  lemma SampleWords()
    ensures Le(1_700_000_000, 8) == Word1 && Le(0x01, 8) == Word2 && Le(0x0203, 8) == Word3
    ensures Le(0x04_0506, 8) == Word4 && Le(0x0708, 8) == Word5 && Le(0x09, 8) == Word6
  {
    hide ByteVal, Le, UnLe;
    SmallBytes();
    LargeBytes();
    LowWord(Word1);
    LowWord(Word2);
    LowWord(Word3);
    LowWord(Word4);
    LowWord(Word5);
    LowWord(Word6);
    LeUnLe(Word1);
    LeUnLe(Word2);
    LeUnLe(Word3);
    LeUnLe(Word4);
    LeUnLe(Word5);
    LeUnLe(Word6);
  }

  lemma SampleCount()
    ensures Le(1, 4) == [0x01, 0x00, 0x00, 0x00]
  {
    hide ByteVal, Le, UnLe;
    var s: seq<Byte> := [0x01, 0x00, 0x00, 0x00];
    SmallBytes();
    UnLeOne(s);
    UnLeZeroes(s[1..]);
    LeUnLe(s);
  }

  lemma FoldOne(c: bv32, s: seq<Byte>)
    ensures s == [] ==> CrcFold(c, s) == c
    ensures s != [] ==> CrcFold(c, s) == CrcFold(CrcByte(c, s[0]), s[1..])
  {
    hide CrcByte;
  }

  lemma FoldFour(c: bv32, s: seq<Byte>)
    requires |s| >= 4
    ensures CrcFold(c, s) == CrcFold(CrcByte(CrcByte(CrcByte(CrcByte(c, s[0]), s[1]), s[2]), s[3]), s[4..])
  {
    hide CrcByte, CrcFold;
    var s1 := s[1..];
    var s2 := s1[1..];
    var s3 := s2[1..];
    var c1 := CrcByte(c, s[0]);
    var c2 := CrcByte(c1, s[1]);
    var c3 := CrcByte(c2, s[2]);
    FoldOne(c, s);
    FoldOne(c1, s1);
    FoldOne(c2, s2);
    FoldOne(c3, s3);
    assert s3[1..] == s[4..];
  }

  /** Eight steps of the register. */
  lemma FoldEight(c: bv32, s: seq<Byte>)
    requires |s| == 8
    ensures CrcFold(c, s)
         == CrcByte(CrcByte(CrcByte(CrcByte(CrcByte(CrcByte(CrcByte(CrcByte(c, s[0]), s[1]), s[2]), s[3]), s[4]), s[5]), s[6]), s[7])
  {
    hide CrcByte, CrcFold;
    var c4 := CrcByte(CrcByte(CrcByte(CrcByte(c, s[0]), s[1]), s[2]), s[3]);
    FoldFour(c, s);
    FoldFour(c4, s[4..]);
    var rest := s[4..][4..];
    FoldOne(CrcByte(CrcByte(CrcByte(CrcByte(c4, s[4]), s[5]), s[6]), s[7]), rest);
  }

  lemma Crc1()
    ensures CrcFold(0xFFFF_FFFF, Word1) == 0x831C_939F
  {
    FoldEight(0xFFFF_FFFF, Word1);
  }

  lemma Crc2()
    ensures CrcFold(0x831C_939F, Word2) == 0x6678_C2C0
  {
    FoldEight(0x831C_939F, Word2);
  }

  lemma Crc3()
    ensures CrcFold(0x6678_C2C0, Word3) == 0xC937_D21E
  {
    FoldEight(0x6678_C2C0, Word3);
  }

  lemma Crc4()
    ensures CrcFold(0xC937_D21E, Word4) == 0xA7D1_E8FC
  {
    FoldEight(0xC937_D21E, Word4);
  }

  lemma Crc5()
    ensures CrcFold(0xA7D1_E8FC, Word5) == 0x95AC_4042
  {
    FoldEight(0xA7D1_E8FC, Word5);
  }

  lemma Crc6()
    ensures CrcFold(0x95AC_4042, Word6) == 0x47C4_D237
  {
    FoldEight(0x95AC_4042, Word6);
  }

  lemma SampleCrc()
    ensures Crc32(Word1 + Word2 + Word3 + Word4 + Word5 + Word6) == 0xB83B_2DC8
  {
    hide CrcFold;
    Crc1();
    Crc2();
    Crc3();
    Crc4();
    Crc5();
    Crc6();
    CrcFoldAppend(0xFFFF_FFFF, Word1, Word2);
    CrcFoldAppend(0xFFFF_FFFF, Word1 + Word2, Word3);
    CrcFoldAppend(0xFFFF_FFFF, Word1 + Word2 + Word3, Word4);
    CrcFoldAppend(0xFFFF_FFFF, Word1 + Word2 + Word3 + Word4, Word5);
    CrcFoldAppend(0xFFFF_FFFF, Word1 + Word2 + Word3 + Word4 + Word5, Word6);
  }

  lemma SampleChecksumField()
    ensures CrcBytes(0xB83B_2DC8) == [0xC8, 0x2D, 0x3B, 0xB8]
  {
  }

  lemma PayloadOfOne(bar: Bar)
    ensures Payload([bar]) == BarBytes(bar) && CountField([bar]) == 1
  {
    hide BarBytes;
    assert [bar][..0] == [];
    assert Payload([]) == [];
    assert [] + BarBytes(bar) == BarBytes(bar);
  }

  /** The whole file of one bar, and what it reads as. */
  lemma SampleFileBytes()
    ensures Encode([SampleBar]) == SampleBytes && Decode(SampleBytes) == Loaded([SampleBar])
  {
    hide Crc32, CrcBytes, Le, Payload, CountField, Decode, Accepted;
    SampleWords();
    SampleCount();
    SampleCrc();
    SampleChecksumField();
    PayloadOfOne(SampleBar);
    assert BarBytes(SampleBar) == Word1 + Word2 + Word3 + Word4 + Word5 + Word6;
    DecodeEncode([SampleBar]);
    SampleAccepted();
  }

  lemma SampleAccepted()
    ensures Accepted([SampleBar]) == [SampleBar]
  {
    AcceptedFixpoint([SampleBar]);
  }
}
