/** The checksummed bar file (`crates/bar-store/src/format.rs`): a 10-byte header
    (magic, version, bar count, CRC-32) followed by 48 bytes for each bar. */
module BarFormat {
  import opened Picking
  import opened Bars
  import opened Checksum
  import opened LittleEndian

  const MAGIC: Byte := 0xBA
  const VERSION: Byte := 0x01
  const HEADER_SIZE := 10
  const BAR_SIZE := 48
  const COUNT_LIMIT := 0x1_0000_0000

  datatype BarStoreError =
    | BadMagic(found: Byte)
    | UnsupportedVersion(found: Byte)
    | CrcMismatch(stored: bv32, computed: bv32)
    | Truncated(expected: nat)

  datatype ReadResult = Loaded(bars: seq<Bar>) | Failed(error: BarStoreError)

  // ---------------------------------------------------------------------------
  // One bar
  // ---------------------------------------------------------------------------

  /** Two's complement. */
  function Unsigned(t: I64): F64 {
    if t < 0 then t + 0x1_0000_0000_0000_0000 else t
  }

  function Signed(n: F64): I64 {
    if n < 0x8000_0000_0000_0000 then n else n - 0x1_0000_0000_0000_0000
  }

  function BarBytes(bar: Bar): (s: seq<Byte>)
    ensures |s| == BAR_SIZE
  {
    Le(Unsigned(bar.timestamp), 8) + Le(bar.open, 8) + Le(bar.high, 8)
    + Le(bar.low, 8) + Le(bar.close, 8) + Le(bar.volume, 8)
  }

  function Word(s: seq<Byte>): F64
    requires |s| == 8
  {
    LeUnLe(s);
    PowValues();
    UnLe(s)
  }

  function BarFromBytes(s: seq<Byte>): Bar
    requires |s| == BAR_SIZE
  {
    Bar(Signed(Word(s[0..8])), Word(s[8..16]), Word(s[16..24]),
        Word(s[24..32]), Word(s[32..40]), Word(s[40..48]))
  }

  lemma WordRoundTrip(n: F64)
    ensures Word(Le(n, 8)) == n
  {
    PowValues();
    UnLeLe(n, 8);
  }

  lemma WordBytes(s: seq<Byte>)
    requires |s| == 8
    ensures Le(Word(s), 8) == s
  {
    LeUnLe(s);
  }

  lemma BarBytesFields(bar: Bar)
    ensures var s := BarBytes(bar);
      && s[0..8] == Le(Unsigned(bar.timestamp), 8) && s[8..16] == Le(bar.open, 8) && s[16..24] == Le(bar.high, 8)
      && s[24..32] == Le(bar.low, 8) && s[32..40] == Le(bar.close, 8) && s[40..48] == Le(bar.volume, 8)
  {
    hide Le, Unsigned;
  }

  lemma BarRoundTrip(bar: Bar)
    ensures BarFromBytes(BarBytes(bar)) == bar
  {
    BarBytesFields(bar);
    WordRoundTrip(Unsigned(bar.timestamp));
    WordRoundTrip(bar.open);
    WordRoundTrip(bar.high);
    WordRoundTrip(bar.low);
    WordRoundTrip(bar.close);
    WordRoundTrip(bar.volume);
  }

  /** Every 48 bytes are the encoding of exactly one bar. */
  lemma BarBytesOnto(s: seq<Byte>)
    requires |s| == BAR_SIZE
    ensures BarBytes(BarFromBytes(s)) == s
  {
    hide Le, Word, BarBytes, BarFromBytes;
    WordBytes(s[0..8]);
    WordBytes(s[8..16]);
    WordBytes(s[16..24]);
    WordBytes(s[24..32]);
    WordBytes(s[32..40]);
    WordBytes(s[40..48]);
    BarBytesOfWords(s);
    SixWords(s);
  }

  lemma SixWords(s: seq<Byte>)
    requires |s| == BAR_SIZE
    ensures s == s[0..8] + s[8..16] + s[16..24] + s[24..32] + s[32..40] + s[40..48]
  {
  }

  lemma BarBytesOfWords(s: seq<Byte>)
    requires |s| == BAR_SIZE
    ensures BarBytes(BarFromBytes(s))
         == Le(Word(s[0..8]), 8) + Le(Word(s[8..16]), 8) + Le(Word(s[16..24]), 8)
            + Le(Word(s[24..32]), 8) + Le(Word(s[32..40]), 8) + Le(Word(s[40..48]), 8)
  {
    hide Le, Word;
    assert Unsigned(Signed(Word(s[0..8]))) == Word(s[0..8]);
  }

  method BarToBytes(bar: Bar) returns (b: array<Byte>)
    ensures fresh(b)
    ensures b[..] == BarBytes(bar)
  {
    hide Le, Unsigned;
    b := new Byte[BAR_SIZE](_ => 0);
    CopyInto(b, 0, Le(Unsigned(bar.timestamp), 8));
    CopyInto(b, 8, Le(bar.open, 8));
    CopyInto(b, 16, Le(bar.high, 8));
    CopyInto(b, 24, Le(bar.low, 8));
    CopyInto(b, 32, Le(bar.close, 8));
    CopyInto(b, 40, Le(bar.volume, 8));
    assert b[..48] == b[..];
  }

  /** `b[at..at + |s|].copy_from_slice(s)`, keeping what was written before it. */
  method CopyInto(b: array<Byte>, at: nat, s: seq<Byte>)
    requires at + |s| <= b.Length
    modifies b
    ensures b[..at + |s|] == old(b[..at]) + s
  {
    for i := 0 to |s|
      invariant b[..at + i] == old(b[..at]) + s[..i]
    {
      b[at + i] := s[i];
    }
  }

  // ---------------------------------------------------------------------------
  // The whole file
  // ---------------------------------------------------------------------------

  function Payload(bars: seq<Bar>): (s: seq<Byte>)
    ensures |s| == |bars| * BAR_SIZE
  {
    if bars == [] then [] else Payload(bars[..|bars| - 1]) + BarBytes(bars[|bars| - 1])
  }

  /** `bars.len() as u32`. */
  function CountField(bars: seq<Bar>): (count: nat)
    ensures count <= |bars| && count < COUNT_LIMIT
    ensures |bars| < COUNT_LIMIT ==> count == |bars|
    ensures (|bars| - count) % 0x1_0000_0000 == 0
  {
    |bars| % COUNT_LIMIT
  }

  /** The bytes `write_bars` leaves at the path. */
  function Encode(bars: seq<Bar>): (s: seq<Byte>)
    ensures |s| == HEADER_SIZE + |bars| * BAR_SIZE
  {
    FileOf(CountField(bars), CrcBytes(Crc32(Payload(bars))), Payload(bars))
  }

  /** The layout of a file with the given count, checksum field and records. */
  function FileOf(count: nat, crc: seq<Byte>, payload: seq<Byte>): (s: seq<Byte>)
    requires |crc| == 4
    ensures |s| == HEADER_SIZE + |payload|
  {
    [MAGIC, VERSION] + Le(count, 4) + crc + payload
  }

  function BarsOf(payload: seq<Byte>, n: nat): (bars: seq<Bar>)
    requires n * BAR_SIZE <= |payload|
    ensures |bars| == n
  {
    if n == 0 then []
    else BarsOf(payload, n - 1) + [BarFromBytes(payload[(n - 1) * BAR_SIZE..n * BAR_SIZE])]
  }

  function Decode(data: seq<Byte>): ReadResult {
    if |data| < HEADER_SIZE then Failed(Truncated(0))
    else if data[0] != MAGIC then Failed(BadMagic(data[0]))
    else if data[1] != VERSION then Failed(UnsupportedVersion(data[1]))
    else DecodeBody(UnLe(data[2..6]), CrcOfBytes(data[6..10]), data[HEADER_SIZE..])
  }

  function DecodeBody(count: nat, stored: bv32, payload: seq<Byte>): ReadResult {
    if |payload| < count * BAR_SIZE then Failed(Truncated(count))
    else
      var computed := Crc32(payload[..count * BAR_SIZE]);
      if computed != stored then Failed(CrcMismatch(stored, computed))
      else Loaded(Accepted(BarsOf(payload, count)))
  }

  method WriteBars(bars: seq<Bar>) returns (buf: seq<Byte>)
    ensures buf == Encode(bars)
  {
    hide Crc32, CrcBytes, Le, BarBytes;
    var barCount := |bars| % COUNT_LIMIT;
    var payload: seq<Byte> := [];
    for i := 0 to |bars|
      invariant payload == Payload(bars[..i])
    {
      var chunk := BarToBytes(bars[i]);
      payload := payload + chunk[..];
      assert bars[..i + 1][..i] == bars[..i];
    }
    assert bars[..|bars|] == bars;
    var crc := Crc32(payload);
    buf := [MAGIC];
    buf := buf + [VERSION];
    buf := buf + Le(barCount, 4);
    buf := buf + CrcBytes(crc);
    buf := buf + payload;
  }

  method ReadBars(data: seq<Byte>) returns (r: ReadResult)
    ensures r == Decode(data)
  {
    hide Crc32, CrcOfBytes, UnLe, BarFromBytes, Accepted;
    if |data| < HEADER_SIZE {
      return Failed(Truncated(0));
    }
    if data[0] != MAGIC {
      return Failed(BadMagic(data[0]));
    }
    if data[1] != VERSION {
      return Failed(UnsupportedVersion(data[1]));
    }
    var barCount := UnLe(data[2..6]);
    var storedCrc := CrcOfBytes(data[6..10]);
    var payload := data[HEADER_SIZE..];
    var expectedLen := barCount * BAR_SIZE;
    if |payload| < expectedLen {
      return Failed(Truncated(barCount));
    }
    var computedCrc := Crc32(payload[..expectedLen]);
    if computedCrc != storedCrc {
      return Failed(CrcMismatch(storedCrc, computedCrc));
    }
    var bars: seq<Bar> := [];
    for i := 0 to barCount
      invariant bars == BarsOf(payload, i)
    {
      var offset := i * BAR_SIZE;
      bars := bars + [BarFromBytes(payload[offset..offset + BAR_SIZE])];
    }
    var kept := Retain(bars);
    r := Loaded(kept);
  }

  /** `Vec::retain` with the timestamp window. */
  method Retain(bars: seq<Bar>) returns (kept: seq<Bar>)
    ensures kept == Accepted(bars)
  {
    kept := [];
    for i := 0 to |bars|
      invariant kept == Accepted(bars[..i])
    {
      assert bars[..i + 1] == bars[..i] + [bars[i]];
      AcceptedAppend(bars[..i], [bars[i]]);
      if InWindow(bars[i]) {
        kept := kept + [bars[i]];
      }
    }
    assert bars[..|bars|] == bars;
  }

  // ---------------------------------------------------------------------------
  // Round trips
  // ---------------------------------------------------------------------------

  lemma FileParts(count: nat, crc: seq<Byte>, payload: seq<Byte>)
    requires |crc| == 4
    ensures var f := FileOf(count, crc, payload);
      && f[0] == MAGIC && f[1] == VERSION && f[2..6] == Le(count, 4)
      && f[6..10] == crc && f[HEADER_SIZE..] == payload
  {
    hide Le;
  }

  lemma EditCount(count: nat, crc: seq<Byte>, payload: seq<Byte>, c: nat)
    requires |crc| == 4
    ensures var f := FileOf(count, crc, payload);
      f[..2] + Le(c, 4) + f[6..] == FileOf(c, crc, payload)
  {
    hide Le;
  }

  lemma CutFile(count: nat, crc: seq<Byte>, payload: seq<Byte>, n: nat)
    requires |crc| == 4 && n <= |payload|
    ensures FileOf(count, crc, payload)[..HEADER_SIZE + n] == FileOf(count, crc, payload[..n])
  {
    hide Le;
  }

  lemma EditChecksum(count: nat, crc: seq<Byte>, payload: seq<Byte>, j: nat, b: Byte)
    requires |crc| == 4 && j < 4
    ensures FileOf(count, crc, payload)[6 + j := b] == FileOf(count, crc[j := b], payload)
  {
    hide Le;
  }

  lemma EditPayload(count: nat, crc: seq<Byte>, payload: seq<Byte>, j: nat, b: Byte)
    requires |crc| == 4 && j < |payload|
    ensures FileOf(count, crc, payload)[HEADER_SIZE + j := b] == FileOf(count, crc, payload[j := b])
  {
    hide Le;
  }

  /** Reading a well-formed layout gets its three parts back. */
  lemma DecodeFile(count: nat, crc: seq<Byte>, payload: seq<Byte>)
    requires count < COUNT_LIMIT && |crc| == 4
    ensures Decode(FileOf(count, crc, payload)) == DecodeBody(count, CrcOfBytes(crc), payload)
  {
    hide Le, UnLe, CrcOfBytes, DecodeBody, FileOf;
    FileParts(count, crc, payload);
    PowValues();
    UnLeLe(count, 4);
  }

  /** Only the first `n` records matter. */
  lemma {:induction false} BarsOfPrefix(a: seq<Byte>, b: seq<Byte>, n: nat)
    requires n * BAR_SIZE <= |a| && n * BAR_SIZE <= |b|
    requires a[..n * BAR_SIZE] == b[..n * BAR_SIZE]
    ensures BarsOf(a, n) == BarsOf(b, n)
  {
    hide BarFromBytes;
    if n > 0 {
      var m := (n - 1) * BAR_SIZE;
      assert a[..m] == a[..n * BAR_SIZE][..m] && b[..m] == b[..n * BAR_SIZE][..m];
      BarsOfPrefix(a, b, n - 1);
      assert a[m..n * BAR_SIZE] == a[..n * BAR_SIZE][m..] && b[m..n * BAR_SIZE] == b[..n * BAR_SIZE][m..];
    }
  }

  lemma {:induction false} PayloadPrefix(bars: seq<Bar>, n: nat)
    requires n <= |bars|
    ensures Payload(bars)[..n * BAR_SIZE] == Payload(bars[..n])
  {
    hide BarBytes;
    if n == |bars| {
      assert bars[..n] == bars;
    } else {
      var init := bars[..|bars| - 1];
      PayloadPrefix(init, n);
      assert init[..n] == bars[..n];
    }
  }

  lemma {:induction false} BarsOfPayload(bars: seq<Bar>, n: nat)
    requires n <= |bars|
    ensures BarsOf(Payload(bars), n) == bars[..n]
  {
    hide BarFromBytes, BarBytes;
    if n > 0 {
      BarsOfPayload(bars, n - 1);
      PayloadPrefix(bars, n);
      var m := (n - 1) * BAR_SIZE;
      assert bars[..n][..n - 1] == bars[..n - 1];
      assert Payload(bars)[m..n * BAR_SIZE] == Payload(bars[..n])[m..];
      BarRoundTrip(bars[n - 1]);
    }
  }

  /** What reading a written file gives: below 2^32 bars the accepted bars; and in
      general those of the list cut to its length modulo 2^32 if the records of the cut
      list happen to have the checksum of all, else a failure. */
  lemma DecodeEncode(bars: seq<Bar>)
    ensures |bars| < COUNT_LIMIT ==> Decode(Encode(bars)) == Loaded(Accepted(bars))
    ensures Decode(Encode(bars)).Loaded? <==> Crc32(Payload(bars[..CountField(bars)])) == Crc32(Payload(bars))
    ensures Decode(Encode(bars)).Loaded? ==>
              Decode(Encode(bars)).bars == Accepted(bars[..CountField(bars)])
  {
    hide Crc32, CrcBytes, CrcOfBytes, Payload, BarsOf, Accepted, Decode, DecodeBody, FileOf, CountField;
    var count := CountField(bars);
    var payload := Payload(bars);
    DecodeFile(count, CrcBytes(Crc32(payload)), payload);
    CrcBytesRoundTrip(Crc32(payload));
    ReadWithCount(bars, count);
    if |bars| < COUNT_LIMIT {
      assert bars[..count] == bars;
    }
  }

  /** What survives a write and a read: exactly the bars stamped from 1_000_000_000 to
      9_999_999_999, in their order; a list wholly inside reads back as itself. */
  lemma WrittenBarsRead(bars: seq<Bar>) returns (idx: seq<nat>)
    requires |bars| < COUNT_LIMIT
    ensures var r := Decode(Encode(bars));
      && r.Loaded? && Picks(bars, r.bars, idx, InBounds(bars))
      && (forall b :: b in r.bars <==> b in bars && 1_000_000_000 <= b.timestamp <= 9_999_999_999)
      && ((forall k :: 0 <= k < |bars| ==> 1_000_000_000 <= bars[k].timestamp <= 9_999_999_999) ==> r.bars == bars)
  {
    hide Decode, Encode, Accepted, Picks, InBounds;
    DecodeEncode(bars);
    idx := AcceptedPicks(bars);
    AcceptedBounds(bars);
    if forall k :: 0 <= k < |bars| ==> 1_000_000_000 <= bars[k].timestamp <= 9_999_999_999 {
      AcceptedFixpoint(bars);
    }
  }

  /** Files that are too short are reported before anything else, then a wrong magic
      byte, then a wrong version, whatever follows. */
  lemma HeaderErrors(data: seq<Byte>)
    ensures |data| < 10 ==> Decode(data) == Failed(Truncated(0))
    ensures |data| >= 10 && data[0] != 0xBA ==> Decode(data) == Failed(BadMagic(data[0]))
    ensures |data| >= 10 && data[0] == 0xBA && data[1] != 0x01 ==> Decode(data) == Failed(UnsupportedVersion(data[1]))
  {
    hide DecodeBody;
  }

  /** A file is accepted in one form only: if it loads without dropping a bar,
      its used part is exactly what writing the loaded bars produces. */
  lemma EncodeDecode(data: seq<Byte>)
    requires Decode(data).Loaded? && |Decode(data).bars| == UnLe(data[2..6])
    ensures var bars := Decode(data).bars;
      |data| >= HEADER_SIZE + |bars| * BAR_SIZE && Encode(bars) == data[..HEADER_SIZE + |bars| * BAR_SIZE]
  {
    hide Crc32, CrcBytes, CrcOfBytes, Le, UnLe, Payload, BarsOf, Accepted;
    var count := UnLe(data[2..6]);
    var payload := data[HEADER_SIZE..];
    var all := BarsOf(payload, count);
    AcceptedKeepsAll(all);
    LeUnLe(data[2..6]);
    PowValues();
    CrcOfBytesRoundTrip(data[6..10]);
    PayloadOfBars(payload, count);
    var n := HEADER_SIZE + count * BAR_SIZE;
    assert data[..n] == [data[0], data[1]] + data[2..6] + data[6..10] + payload[..count * BAR_SIZE];
  }

  lemma {:induction false} AcceptedShorter(bars: seq<Bar>)
    ensures |Accepted(bars)| <= |bars|
  {
    if bars != [] {
      AcceptedShorter(bars[1..]);
    }
  }

  lemma {:induction false} AcceptedKeepsAll(bars: seq<Bar>)
    requires |Accepted(bars)| == |bars|
    ensures Accepted(bars) == bars
  {
    if bars != [] {
      AcceptedShorter(bars[1..]);
      AcceptedKeepsAll(bars[1..]);
    }
  }

  lemma {:induction false} PayloadOfBars(payload: seq<Byte>, n: nat)
    requires n * BAR_SIZE <= |payload|
    ensures Payload(BarsOf(payload, n)) == payload[..n * BAR_SIZE]
  {
    hide BarFromBytes, BarBytes;
    if n > 0 {
      var m := (n - 1) * BAR_SIZE;
      PayloadOfBars(payload, n - 1);
      BarBytesOnto(payload[m..n * BAR_SIZE]);
      var bars := BarsOf(payload, n);
      assert bars[..n - 1] == BarsOf(payload, n - 1);
      assert payload[..n * BAR_SIZE] == payload[..m] + payload[m..n * BAR_SIZE];
    }
  }

  /** The timestamps of whatever a written file loads as still ascend. */
  lemma DecodeEncodeAscending(bars: seq<Bar>)
    requires Ascending(bars)
    ensures Decode(Encode(bars)).Loaded? ==> Ascending(Decode(Encode(bars)).bars)
  {
    hide Decode, Encode;
    DecodeEncode(bars);
    AcceptedAscending(bars[..CountField(bars)]);
  }

  // ---------------------------------------------------------------------------
  // Damaged files
  // ---------------------------------------------------------------------------

  /** One changed byte anywhere outside the count field is reported, as the
      error that its place calls for. */
  lemma CorruptionDetected(bars: seq<Bar>, i: nat, b: Byte)
    requires |bars| < COUNT_LIMIT
    requires i < |Encode(bars)| && Encode(bars)[i] != b && !(2 <= i < 6)
    ensures var r := Decode(Encode(bars)[i := b]);
      && r.Failed?
      && (i == 0 ==> r.error == BadMagic(b))
      && (i == 1 ==> r.error == UnsupportedVersion(b))
      && (i >= 6 ==> r.error.CrcMismatch?)
  {
    hide Crc32, CrcBytes, Le, Payload, FileOf;
    var payload := Payload(bars);
    var crc := CrcBytes(Crc32(payload));
    FileParts(|bars|, crc, payload);
    if i >= HEADER_SIZE {
      assert Encode(bars)[i] == Encode(bars)[HEADER_SIZE..][i - HEADER_SIZE];
      PayloadCorruption(bars, i - HEADER_SIZE, b);
    } else if i >= 6 {
      ChecksumCorruption(bars, i - 6, b);
    }
  }

  lemma PayloadCorruption(bars: seq<Bar>, j: nat, b: Byte)
    requires |bars| < COUNT_LIMIT && j < |Payload(bars)| && Payload(bars)[j] != b
    ensures Encode(bars)[HEADER_SIZE + j] == Payload(bars)[j]
    ensures var r := Decode(Encode(bars)[HEADER_SIZE + j := b]);
      r.Failed? && r.error.CrcMismatch?
  {
    hide Crc32, CrcBytes, CrcOfBytes, Payload, BarsOf, Accepted, Decode, Le, FileOf, CountField;
    var payload := Payload(bars);
    var crc := CrcBytes(Crc32(payload));
    var bad := payload[j := b];
    FileParts(|bars|, crc, payload);
    EditPayload(|bars|, crc, payload, j, b);
    DecodeFile(|bars|, crc, bad);
    CrcBytesRoundTrip(Crc32(payload));
    assert bad[..|bars| * BAR_SIZE] == bad;
    Crc32DetectsByteChange(payload, j, b);
  }

  lemma ChecksumCorruption(bars: seq<Bar>, j: nat, b: Byte)
    requires |bars| < COUNT_LIMIT && j < 4 && Encode(bars)[6 + j] != b
    ensures var r := Decode(Encode(bars)[6 + j := b]);
      r.Failed? && r.error.CrcMismatch?
  {
    hide Crc32, CrcBytes, CrcOfBytes, Payload, BarsOf, Accepted, Decode, Le, FileOf, CountField;
    var payload := Payload(bars);
    var crc := CrcBytes(Crc32(payload));
    var bad := crc[j := b];
    FileParts(|bars|, crc, payload);
    assert Encode(bars)[6 + j] == Encode(bars)[6..10][j];
    EditChecksum(|bars|, crc, payload, j, b);
    DecodeFile(|bars|, bad, payload);
    assert payload[..|bars| * BAR_SIZE] == payload;
    CrcOfBytesRoundTrip(bad);
  }

  lemma ReadWithCount(bars: seq<Bar>, count: nat)
    ensures var r := DecodeBody(count, Crc32(Payload(bars)), Payload(bars));
      && (count > |bars| ==> r == Failed(Truncated(count)))
      && (count <= |bars| ==>
            (r.Loaded? <==> Crc32(Payload(bars[..count])) == Crc32(Payload(bars)))
            && (r.Loaded? ==> r.bars == Accepted(bars[..count])))
  {
    hide Crc32, Payload, BarsOf, Accepted;
    if count <= |bars| {
      PayloadPrefix(bars, count);
      BarsOfPayload(bars, count);
    }
  }

  /** A changed count field: a larger count is always reported as truncation; a
      smaller one goes unnoticed exactly when the shorter payload happens to have
      the same checksum. */
  lemma CountCorruption(bars: seq<Bar>, count: nat)
    requires |bars| < COUNT_LIMIT && count < COUNT_LIMIT
    ensures var f := Encode(bars);
      var g := f[..2] + Le(count, 4) + f[6..];
      && (count > |bars| ==> Decode(g) == Failed(Truncated(count)))
      && (count <= |bars| ==>
            (Decode(g).Loaded? <==> Crc32(Payload(bars[..count])) == Crc32(Payload(bars)))
            && (Decode(g).Loaded? ==> Decode(g).bars == Accepted(bars[..count])))
  {
    hide Crc32, CrcBytes, CrcOfBytes, Payload, BarsOf, Accepted, Decode, Le, FileOf, CountField;
    var payload := Payload(bars);
    var crc := CrcBytes(Crc32(payload));
    hide DecodeBody;
    EditCount(|bars|, crc, payload, count);
    DecodeFile(count, crc, payload);
    CrcBytesRoundTrip(Crc32(payload));
    ReadWithCount(bars, count);
  }

  /** Every proper prefix of a written file is reported as truncated. */
  lemma PrefixTruncated(bars: seq<Bar>, n: nat)
    requires |bars| < COUNT_LIMIT && n < |Encode(bars)|
    ensures Decode(Encode(bars)[..n]) == Failed(Truncated(if n < HEADER_SIZE then 0 else |bars|))
  {
    hide Crc32, CrcBytes, CrcOfBytes, Payload, BarsOf, Accepted, Le, FileOf, CountField;
    var payload := Payload(bars);
    var crc := CrcBytes(Crc32(payload));
    if n >= HEADER_SIZE {
      CutFile(|bars|, crc, payload, n - HEADER_SIZE);
      DecodeFile(|bars|, crc, payload[..n - HEADER_SIZE]);
    }
  }

  /** Bytes after the records never change the outcome of a file that is not
      truncated. */
  lemma TrailingBytesIgnored(data: seq<Byte>, extra: seq<Byte>)
    requires !(Decode(data).Failed? && Decode(data).error.Truncated?)
    ensures Decode(data + extra) == Decode(data)
  {
    hide Crc32, CrcBytes, CrcOfBytes, UnLe, BarsOf, Accepted;
    var more := data + extra;
    assert more[2..6] == data[2..6] && more[6..10] == data[6..10];
    assert more[HEADER_SIZE..] == data[HEADER_SIZE..] + extra;
    if data[0] == MAGIC && data[1] == VERSION {
      var n := UnLe(data[2..6]);
      var payload := data[HEADER_SIZE..];
      assert (payload + extra)[..n * BAR_SIZE] == payload[..n * BAR_SIZE];
      BarsOfPrefix(payload + extra, payload, n);
    }
  }
}
