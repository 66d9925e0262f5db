/** One OHLCV series (`crates/bar-service/src/series.rs`) and what each operation of
    `crates/bar-service/src/service.rs` does to it. */
module BarSeries {
  import opened Arithmetic
  import opened Bars
  import opened BarMerge

  type Period = p: int | 0 < p < 0x8000_0000_0000_0000 witness 1

  datatype Series = Series(
    bars: seq<Bar>,
    version: nat,
    capacity: nat,
    lastTradeTs: I64,
    dirty: bool,
    oldestRotatedTs: Option<I64>,
    period: Period)

  datatype Trade = Trade(price: F64, quantity: F64, timestampMs: I64)

  function NewSeries(capacity: nat, period: Period): Series {
    Series([], 0, capacity, 0, false, None, period)
  }

  // ---------------------------------------------------------------------------
  // Candle boundaries
  // ---------------------------------------------------------------------------

  /** Rust's integer division: the quotient is cut toward zero. */
  function TruncDiv(a: int, b: int): (q: int)
    requires b > 0
    ensures a >= 0 ==> q * b <= a < q * b + b
    ensures a < 0 ==> a <= q * b < a + b && q * b <= 0
  {
    if a >= 0 then a / b else -((-a) / b)
  }

  function Secs(t: Trade): I64 {
    TruncDiv(t.timestampMs, 1000)
  }

  lemma SecsSinceEpoch(t: Trade)
    requires 0 <= t.timestampMs
    ensures 0 <= Secs(t)
  {
  }

  /** `(secs / period) * period`: the start of the candle holding that second. */
  function Bucket(secs: I64, period: Period): (start: I64)
    ensures secs >= 0 ==> start <= secs < start + period
    ensures secs < 0 ==> secs <= start < secs + period
  {
    TruncDiv(secs, period) * period
  }

  /** Before the epoch division cuts forward: the second lies past the candle start
      `start`, short of the next one, and yet has a later candle. */
  predicate CutForward(start: int, secs: int, period: Period) {
    start < 0 && start < secs < start + period
  }

  /** Buckets grow with time, in whole periods; and a later second has a later bucket
      exactly when a period has passed, but for seconds that are cut forward. */
  lemma BucketOrder(m: I64, s: I64, period: Period)
    ensures m <= s ==> Bucket(m, period) <= Bucket(s, period)
    ensures Bucket(m, period) < Bucket(s, period) ==> Bucket(m, period) + period <= Bucket(s, period)
    ensures m < s ==>
              ((s >= Bucket(m, period) + period <==> Bucket(s, period) > Bucket(m, period))
               <==> !CutForward(Bucket(m, period), s, period))
  {
    var i, j := TruncDiv(m, period), TruncDiv(s, period);
    if i * period < j * period {
      MultiplesApart(i, j, period);
    }
    if j * period < i * period {
      MultiplesApart(j, i, period);
    }
    if i * period < 0 * period {
      MultiplesApart(i, 0, period);
    }
    if j * period < 0 * period {
      MultiplesApart(j, 0, period);
    }
  }

  lemma BucketAligned(s: I64, period: Period)
    ensures Bucket(s, period) % period == 0
  {
    DivUnique(Bucket(s, period), period, TruncDiv(s, period), 0);
  }

  // ---------------------------------------------------------------------------
  // Operations
  // ---------------------------------------------------------------------------

  /** The last bar after a trade that belongs to it (or comes late). */
  function FoldTrade(fl: Float, last: Bar, t: Trade): Bar {
    last.(close := t.price,
          high := if fl.gt(t.price, last.high) then t.price else last.high,
          low := if fl.gt(last.low, t.price) then t.price else last.low,
          volume := fl.add(last.volume, t.quantity))
  }

  function OpenBar(start: I64, t: Trade): Bar {
    Bar(start, t.price, t.price, t.price, t.price, t.quantity)
  }

  predicate UpdatesLast(bars: seq<Bar>, period: Period, t: Trade) {
    bars != [] && Secs(t) < bars[|bars| - 1].timestamp + period
  }

  function TradedBars(fl: Float, bars: seq<Bar>, period: Period, t: Trade): seq<Bar> {
    if UpdatesLast(bars, period, t)
    then bars[..|bars| - 1] + [FoldTrade(fl, bars[|bars| - 1], t)]
    else bars + [OpenBar(Bucket(Secs(t), period), t)]
  }

  function RotateCount(capacity: nat): nat {
    if capacity / 10 > 1 then capacity / 10 else 1
  }

  predicate Overfull(s: Series) {
    |s.bars| > s.capacity
  }

  /** At most one block of the oldest bars leaves per operation. */
  function Rotated(s: Series): Series {
    if Overfull(s)
    then s.(bars := s.bars[RotateCount(s.capacity)..], oldestRotatedTs := Some(s.bars[0].timestamp))
    else s
  }

  function Traded(fl: Float, s: Series, t: Trade): Series {
    s.(bars := TradedBars(fl, s.bars, s.period, t), version := s.version + 1,
       dirty := true, lastTradeTs := Secs(t))
  }

  ghost function Merged(s: Series, batch: seq<Bar>): Series {
    s.(bars := Merge(s.bars, batch), version := s.version + 1, dirty := true)
  }

  function Seeded(s: Series, bars: seq<Bar>): Series {
    s.(bars := bars, dirty := false)
  }

  function AfterTrade(fl: Float, s: Series, t: Trade): Series {
    Rotated(Traded(fl, s, t))
  }

  ghost function AfterMerge(s: Series, batch: seq<Bar>): Series {
    Rotated(Merged(s, batch))
  }

  /** A run of trades alone. */
  function AfterTrades(fl: Float, s: Series, trades: seq<Trade>): Series {
    if trades == [] then s
    else AfterTrade(fl, AfterTrades(fl, s, trades[..|trades| - 1]), trades[|trades| - 1])
  }

  ghost predicate SinceEpoch(trades: seq<Trade>) {
    forall i :: 0 <= i < |trades| ==> 0 <= trades[i].timestampMs
  }

  predicate HasGap(s: Series, timestampMs: I64) {
    && s.bars != []
    && TruncDiv(timestampMs, 1000) >= s.bars[|s.bars| - 1].timestamp + s.period + s.period
  }

  // ---------------------------------------------------------------------------
  // Candles in milliseconds
  // ---------------------------------------------------------------------------

  /** A second is a thousand milliseconds, cut toward the epoch. */
  lemma SecsInMs(t: Trade)
    ensures t.timestampMs >= 0 ==> Secs(t) * 1000 <= t.timestampMs < Secs(t) * 1000 + 1000
    ensures t.timestampMs < 0 ==> t.timestampMs <= Secs(t) * 1000 < t.timestampMs + 1000
  {
  }

  /** The candle a trade opens starts at a whole number of periods and spans the trade. */
  lemma OpenedCandleSpans(t: Trade, period: Period)
    requires 0 <= t.timestampMs
    ensures var start := OpenBar(Bucket(Secs(t), period), t).timestamp;
      start % period == 0 && start * 1000 <= t.timestampMs < (start + period) * 1000
  {
    hide Bucket, Secs;
    SecsInMs(t);
    SecsSinceEpoch(t);
    BucketAligned(Secs(t), period);
    BucketSpans(Secs(t), period);
  }

  lemma BucketSpans(secs: I64, period: Period)
    requires 0 <= secs
    ensures Bucket(secs, period) <= secs < Bucket(secs, period) + period
  {
  }

  /** A trade is folded into the last candle exactly when it comes before its end. */
  lemma FoldedBeforeEnd(bars: seq<Bar>, period: Period, t: Trade)
    requires 0 <= t.timestampMs && bars != []
    ensures UpdatesLast(bars, period, t) <==> t.timestampMs < (bars[|bars| - 1].timestamp + period) * 1000
  {
    hide Secs;
    SecsInMs(t);
  }

  /** A gap is reported exactly when at least one whole candle has passed since the end
      of the last. */
  lemma GapInMs(s: Series, t: Trade)
    requires 0 <= t.timestampMs
    ensures HasGap(s, t.timestampMs) <==>
              s.bars != [] && t.timestampMs >= (s.bars[|s.bars| - 1].timestamp + 2 * s.period) * 1000
  {
    SecsInMs(t);
  }

  // ---------------------------------------------------------------------------
  // Strict timestamp order
  // ---------------------------------------------------------------------------

  lemma AscendingPush(bars: seq<Bar>, bar: Bar)
    requires Ascending(bars) && (bars != [] ==> bars[|bars| - 1].timestamp < bar.timestamp)
    ensures Ascending(bars + [bar])
  {
  }

  lemma AscendingFold(bars: seq<Bar>, bar: Bar)
    requires Ascending(bars) && bars != [] && bar.timestamp == bars[|bars| - 1].timestamp
    ensures Ascending(bars[..|bars| - 1] + [bar])
  {
  }

  lemma AscendingRotated(s: Series)
    requires Ascending(s.bars)
    ensures Ascending(Rotated(s).bars)
  {
  }

  /** A trade keeps the order, whatever its time and whether or not the bars in
      memory are aligned to the period. */
  lemma TradeKeepsOrder(fl: Float, s: Series, t: Trade)
    requires Ascending(s.bars)
    ensures Ascending(Traded(fl, s, t).bars) && Ascending(AfterTrade(fl, s, t).bars)
  {
    hide Ascending, Bucket, Rotated, Secs;
    if UpdatesLast(s.bars, s.period, t) {
      AscendingFold(s.bars, FoldTrade(fl, s.bars[|s.bars| - 1], t));
    } else {
      AscendingPush(s.bars, OpenBar(Bucket(Secs(t), s.period), t));
    }
    AscendingRotated(Traded(fl, s, t));
  }

  lemma MergeKeepsOrder(s: Series, batch: seq<Bar>)
    ensures Ascending(AfterMerge(s, batch).bars)
  {
    MergeIsOverride(s.bars, batch);
  }

  // ---------------------------------------------------------------------------
  // The ring buffer
  // ---------------------------------------------------------------------------

  /** What a rotation drops: nothing within capacity; else the oldest tenth of the
      capacity, or one bar for capacities below 20, with the oldest bar as the mark. */
  lemma RotatedExactly(s: Series)
    ensures var r := Rotated(s);
      var gone := |s.bars| - |r.bars|;
      && 0 <= gone <= |s.bars| && r.bars == s.bars[gone..]
      && (gone > 0 <==> |s.bars| > s.capacity)
      && (|s.bars| > s.capacity ==> r.oldestRotatedTs == Some(s.bars[0].timestamp))
      && (|s.bars| > s.capacity && s.capacity < 20 ==> gone == 1)
      && (|s.bars| > s.capacity && s.capacity >= 20 ==> 10 * gone <= s.capacity < 10 * gone + 10)
      && (|s.bars| <= s.capacity ==> r.oldestRotatedTs == s.oldestRotatedTs)
      && r.version == s.version && r.dirty == s.dirty && r.lastTradeTs == s.lastTradeTs
      && r.capacity == s.capacity && r.period == s.period
  {
  }

  /** One trade: the newest bar survives, and an overfull series loses a block. */
  lemma TradeBound(fl: Float, s: Series, t: Trade)
    ensures AfterTrade(fl, s, t).capacity == s.capacity
    ensures var n := |AfterTrade(fl, s, t).bars|;
      && (|s.bars| <= s.capacity ==> n <= s.capacity)
      && (|s.bars| > s.capacity ==> n <= |s.bars| + 1 - if s.capacity < 20 then 1 else s.capacity / 10)
    ensures s.capacity >= 1 ==>
              var traded := TradedBars(fl, s.bars, s.period, t);
              var bars := AfterTrade(fl, s, t).bars;
              bars != [] && bars[|bars| - 1] == traded[|traded| - 1]
  {
  }

  /** A run of trades works off an excess left by a merge or a seed: each trade takes
      away a block but for one bar, until the series is within its capacity. */
  lemma {:induction false} TradesRecoverBound(fl: Float, s: Series, trades: seq<Trade>)
    ensures var n := |AfterTrades(fl, s, trades).bars|;
      n <= s.capacity || n <= |s.bars| - |trades| * (if s.capacity < 20 then 0 else s.capacity / 10 - 1)
    ensures AfterTrades(fl, s, trades).capacity == s.capacity
  {
    hide AfterTrade;
    if trades != [] {
      var init := trades[..|trades| - 1];
      TradesRecoverBound(fl, s, init);
      TradeBound(fl, AfterTrades(fl, s, init), trades[|trades| - 1]);
      MulNext(|init|, if s.capacity < 20 then 0 else s.capacity / 10 - 1);
    }
  }

  /** A trade shrinks an overfull series exactly when a block is more than one bar or
      the trade opens no candle. */
  lemma SmallCapacityKeepsExcess(fl: Float, s: Series, t: Trade)
    requires Overfull(s)
    ensures |AfterTrade(fl, s, t).bars| <= |s.bars|
    ensures |AfterTrade(fl, s, t).bars| < |s.bars| <==> s.capacity >= 20 || UpdatesLast(s.bars, s.period, t)
  {
  }

  /** The mark of the last rotation lies below every bar in memory. */
  ghost predicate MarkBelow(s: Series) {
    && (s.oldestRotatedTs.Some? ==> forall b :: b in s.bars ==> s.oldestRotatedTs.value < b.timestamp)
    && (s.bars == [] ==> s.oldestRotatedTs == None || s.capacity == 0)
  }

  /** In a trade-only run the series stays within its capacity, ascending and
      above the mark of its last rotation; it is dirty from its first trade on, and
      counts its trades. */
  lemma {:induction false} TradeOnlyRun(fl: Float, capacity: nat, period: Period, trades: seq<Trade>)
    ensures var s := AfterTrades(fl, NewSeries(capacity, period), trades);
      && |s.bars| <= capacity && s.capacity == capacity && s.period == period
      && Ascending(s.bars) && MarkBelow(s) && s.version == |trades| && (s.dirty <==> trades != [])
      && s.lastTradeTs == if trades == [] then 0 else Secs(trades[|trades| - 1])
  {
    hide MarkBelow, TradedBars;
    if trades == [] {
      NewSeriesMark(capacity, period);
    } else {
      var init, t := trades[..|trades| - 1], trades[|trades| - 1];
      var s := AfterTrades(fl, NewSeries(capacity, period), init);
      TradeOnlyRun(fl, capacity, period, init);
      TradeKeepsOrder(fl, s, t);
      TradeBound(fl, s, t);
      TradedMark(fl, s, t);
      RotatedMark(Traded(fl, s, t));
    }
  }

  lemma NewSeriesMark(capacity: nat, period: Period)
    ensures MarkBelow(NewSeries(capacity, period))
  {
  }

  lemma TradedMark(fl: Float, s: Series, t: Trade)
    requires Ascending(s.bars) && MarkBelow(s)
    ensures Ascending(Traded(fl, s, t).bars) && Traded(fl, s, t).bars != []
    ensures s.capacity > 0 ==> MarkBelow(Traded(fl, s, t))
  {
    var bars := TradedBars(fl, s.bars, s.period, t);
    forall b | b in bars && s.oldestRotatedTs.Some? && s.capacity > 0
      ensures s.oldestRotatedTs.value < b.timestamp
    {
      var last := s.bars[|s.bars| - 1];
      assert last in s.bars;
      var i :| 0 <= i < |bars| && bars[i] == b;
      if i < |s.bars| - 1 {
        assert b == s.bars[i] && s.bars[i] in s.bars;
      }
    }
  }

  lemma RotatedMark(s: Series)
    requires Ascending(s.bars) && s.bars != []
    requires s.capacity > 0 ==> MarkBelow(s)
    ensures MarkBelow(Rotated(s))
  {
    var r := Rotated(s);
    forall b | b in r.bars && Overfull(s)
      ensures s.bars[0].timestamp < b.timestamp
    {
      var i :| 0 <= i < |r.bars| && r.bars[i] == b;
      assert b == s.bars[RotateCount(s.capacity) + i];
    }
  }
}
