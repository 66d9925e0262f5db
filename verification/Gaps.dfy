/** Gap detection (`has_gap` in `crates/bar-service/src/service.rs`) against the
    candles that `apply_trade` builds. */
module Gaps {
  import opened Arithmetic
  import opened Bars
  import opened BarSeries

  ghost predicate Aligned(bars: seq<Bar>, period: Period) {
    forall i :: 0 <= i < |bars| ==> bars[i].timestamp % period == 0
  }

  /** No candle is missing between the first bar and the last. */
  ghost predicate Consecutive(bars: seq<Bar>, period: Period) {
    forall i :: 0 <= i < |bars| - 1 ==> bars[i + 1].timestamp == bars[i].timestamp + period
  }

  /** `has_gap`, asked before each trade of a run from an empty series, never said
      yes. */
  ghost predicate NoGapReported(fl: Float, capacity: nat, period: Period, trades: seq<Trade>) {
    trades != [] ==>
      var init, t := trades[..|trades| - 1], trades[|trades| - 1];
      && NoGapReported(fl, capacity, period, init)
      && !HasGap(AfterTrades(fl, NewSeries(capacity, period), init), t.timestampMs)
  }

  /** A second at or past a candle boundary falls in a bucket at or past it, and only
      such a second does unless it is cut forward. */
  lemma BucketReaches(secs: I64, boundary: int, period: Period)
    requires boundary % period == 0
    ensures (secs >= boundary <==> Bucket(secs, period) >= boundary) <==> !CutForward(boundary - period, secs, period)
  {
    hide TruncDiv;
    var k, q := boundary / period, TruncDiv(secs, period);
    assert boundary == k * period;
    if q * period < k * period {
      MultiplesApart(q, k, period);
    }
    if boundary > 0 * period {
      MultiplesApart(0, k, period);
    }
  }

  lemma AddPeriods(t: int, period: Period)
    requires t % period == 0
    ensures (t + period) % period == 0 && (t + period + period) % period == 0
  {
    var q := t / period;
    MulNext(q, period);
    MulNext(q + 1, period);
    DivUnique(t + period, period, q + 1, 0);
    DivUnique(t + period + period, period, q + 2, 0);
  }

  /** On an aligned series a gap is reported exactly when the trade opens a candle
      at least two periods after the last one, unless the trade is cut forward. */
  lemma GapMeansSkippedCandle(s: Series, t: Trade)
    requires s.bars != [] && s.bars[|s.bars| - 1].timestamp % s.period == 0
    ensures var last := s.bars[|s.bars| - 1].timestamp;
      (HasGap(s, t.timestampMs) <==>
         !UpdatesLast(s.bars, s.period, t) && Bucket(Secs(t), s.period) >= last + s.period + s.period)
      <==> !CutForward(last + s.period, Secs(t), s.period)
  {
    hide Bucket;
    var last := s.bars[|s.bars| - 1].timestamp;
    AddPeriods(last, s.period);
    BucketReaches(Secs(t), last + s.period + s.period, s.period);
  }

  lemma ConsecutivePush(bars: seq<Bar>, bar: Bar, period: Period)
    ensures Consecutive(bars + [bar], period) <==>
              Consecutive(bars, period) && (bars != [] ==> bar.timestamp == bars[|bars| - 1].timestamp + period)
  {
    var more := bars + [bar];
    if Consecutive(more, period) {
      forall i | 0 <= i < |bars| - 1
        ensures bars[i + 1].timestamp == bars[i].timestamp + period
      {
        assert more[i + 1].timestamp == more[i].timestamp + period;
      }
      if bars != [] {
        assert more[|bars| - 1 + 1].timestamp == more[|bars| - 1].timestamp + period;
      }
    }
  }

  /** The trade is cut forward over the candle after the last: its own candle comes
      later, yet too little time has passed for a report. */
  predicate SkipsUnseen(s: Series, t: Trade) {
    s.bars != [] && CutForward(s.bars[|s.bars| - 1].timestamp + s.period, Secs(t), s.period)
  }

  lemma SinceEpochSeen(s: Series, t: Trade)
    requires Aligned(s.bars, s.period) && 0 <= t.timestampMs
    ensures !SkipsUnseen(s, t)
  {
    hide Secs;
    SecsSinceEpoch(t);
    if s.bars != [] {
      var last, p := s.bars[|s.bars| - 1].timestamp, s.period;
      AddPeriods(last, p);
      var k := (last + p) / p;
      assert last + p == k * p;
      if k * p < 0 * p {
        MultiplesApart(k, 0, p);
      }
    }
  }

  /** A trade leaves the candles consecutive only if no gap is reported; and whenever
      no gap is, exactly when it does not skip a candle unseen. */
  lemma GapStep(fl: Float, s: Series, t: Trade)
    requires Aligned(s.bars, s.period)
    ensures Aligned(TradedBars(fl, s.bars, s.period, t), s.period)
    ensures var kept := Consecutive(s.bars, s.period) && !HasGap(s, t.timestampMs);
      var now := Consecutive(TradedBars(fl, s.bars, s.period, t), s.period);
      && (now ==> kept)
      && ((now <==> kept) <==> !(Consecutive(s.bars, s.period) && SkipsUnseen(s, t)))
  {
    hide Bucket, Consecutive, Secs, TradedBars;
    AlignedTrade(fl, s, t);
    if s.bars == [] {
      NoBarsNoGap(s, t);
      FirstBar(fl, s, t);
    } else {
      GapMeansSkippedCandle(s, t);
      GapStepNonEmpty(fl, s, t);
      SecsOf(t);
    }
  }

  lemma SecsOf(t: Trade)
    ensures Secs(t) == TruncDiv(t.timestampMs, 1000)
  {
  }

  lemma NoBarsNoGap(s: Series, t: Trade)
    requires s.bars == []
    ensures !HasGap(s, t.timestampMs) && Consecutive([], s.period)
  {
  }

  lemma FirstBar(fl: Float, s: Series, t: Trade)
    requires s.bars == []
    ensures Consecutive(TradedBars(fl, s.bars, s.period, t), s.period)
  {
  }

  lemma AlignedTrade(fl: Float, s: Series, t: Trade)
    requires Aligned(s.bars, s.period)
    ensures Aligned(TradedBars(fl, s.bars, s.period, t), s.period)
  {
    hide Bucket, Secs;
    BucketAligned(Secs(t), s.period);
  }

  lemma GapStepNonEmpty(fl: Float, s: Series, t: Trade)
    requires Aligned(s.bars, s.period) && s.bars != []
    ensures var last, b := s.bars[|s.bars| - 1].timestamp, Bucket(Secs(t), s.period);
      Consecutive(TradedBars(fl, s.bars, s.period, t), s.period) <==>
        Consecutive(s.bars, s.period) && (UpdatesLast(s.bars, s.period, t) || b < last + s.period + s.period)
  {
    hide Bucket, Consecutive;
    var last, b := s.bars[|s.bars| - 1].timestamp, Bucket(Secs(t), s.period);
    if UpdatesLast(s.bars, s.period, t) {
      SameStamps(s.bars, TradedBars(fl, s.bars, s.period, t), s.period);
    } else {
      ConsecutivePush(s.bars, OpenBar(b, t), s.period);
      AddPeriods(last, s.period);
      BucketReaches(Secs(t), last + s.period, s.period);
      BucketAligned(Secs(t), s.period);
      NextMultiple(last + s.period, b, s.period);
    }
  }

  lemma SameStamps(a: seq<Bar>, b: seq<Bar>, period: Period)
    requires |a| == |b| && forall i :: 0 <= i < |a| ==> a[i].timestamp == b[i].timestamp
    ensures Consecutive(a, period) <==> Consecutive(b, period)
  {
  }

  lemma NextMultiple(a: int, b: int, p: int)
    requires 0 < p && a % p == 0 && b % p == 0
    ensures a < b ==> a + p <= b
  {
    if a < b {
      assert a == (a / p) * p && b == (b / p) * p;
      MultiplesApart(a / p, b / p, p);
    }
  }

  /** Dropping the oldest bars leaves the rest aligned and consecutive. */
  lemma RotatedConsecutive(s: Series)
    requires Aligned(s.bars, s.period)
    ensures Aligned(Rotated(s).bars, s.period) && Rotated(s).period == s.period
    ensures Consecutive(s.bars, s.period) ==> Consecutive(Rotated(s).bars, s.period)
    ensures Rotated(s).oldestRotatedTs == None ==> Rotated(s) == s
  {
    if Overfull(s) {
      var n := RotateCount(s.capacity);
      assert forall i :: 0 <= i < |Rotated(s).bars| ==> Rotated(s).bars[i] == s.bars[n + i];
    }
  }

  function TradedSeries(fl: Float, capacity: nat, period: Period, trades: seq<Trade>): Series {
    AfterTrades(fl, NewSeries(capacity, period), trades)
  }

  /** While no gap is reported, no trade of the run skips a candle unseen. */
  ghost predicate NoneUnseen(fl: Float, capacity: nat, period: Period, trades: seq<Trade>) {
    trades != [] ==>
      var init, t := trades[..|trades| - 1], trades[|trades| - 1];
      && NoneUnseen(fl, capacity, period, init)
      && !(NoGapReported(fl, capacity, period, init) && SkipsUnseen(TradedSeries(fl, capacity, period, init), t))
  }

  /** What a run keeps: consecutive candles tell that no gap was reported, unless some
      were rotated out, and the other way round unless one was skipped unseen. */
  ghost predicate GapsTold(s: Series, told: bool, seen: bool) {
    && Aligned(s.bars, s.period)
    && (told && seen ==> Consecutive(s.bars, s.period))
    && (s.oldestRotatedTs == None && Consecutive(s.bars, s.period) ==> told)
  }

  lemma GapsToldStep(fl: Float, s: Series, t: Trade, told: bool, seen: bool)
    requires GapsTold(s, told, seen)
    ensures GapsTold(AfterTrade(fl, s, t), told && !HasGap(s, t.timestampMs), seen && !(told && SkipsUnseen(s, t)))
  {
    hide Consecutive, Aligned, HasGap, TradedBars, Rotated, SkipsUnseen;
    GapStep(fl, s, t);
    RotatedConsecutive(Traded(fl, s, t));
  }

  lemma {:induction false} GapsToldRun(fl: Float, capacity: nat, period: Period, trades: seq<Trade>)
    ensures var s := TradedSeries(fl, capacity, period, trades);
      && s.period == period
      && GapsTold(s, NoGapReported(fl, capacity, period, trades), NoneUnseen(fl, capacity, period, trades))
  {
    if trades != [] {
      hide GapsTold, AfterTrade, HasGap, SkipsUnseen;
      var init, t := trades[..|trades| - 1], trades[|trades| - 1];
      var s := TradedSeries(fl, capacity, period, init);
      GapsToldRun(fl, capacity, period, init);
      TradeKeepsPeriod(fl, s, t);
      GapsToldStep(fl, s, t, NoGapReported(fl, capacity, period, init), NoneUnseen(fl, capacity, period, init));
    }
  }

  lemma TradeKeepsPeriod(fl: Float, s: Series, t: Trade)
    ensures AfterTrade(fl, s, t).period == s.period
  {
  }

  /** A trade-built series for which no gap was ever reported misses no candle, unless
      one was skipped unseen; and while nothing has been rotated out, a missing candle is
      all that a report means. */
  lemma NoGapsConsecutive(fl: Float, capacity: nat, period: Period, trades: seq<Trade>)
    ensures var s := TradedSeries(fl, capacity, period, trades);
      && Aligned(s.bars, period)
      && (NoGapReported(fl, capacity, period, trades) && NoneUnseen(fl, capacity, period, trades) ==> Consecutive(s.bars, period))
      && (s.oldestRotatedTs == None && Consecutive(s.bars, period) ==> NoGapReported(fl, capacity, period, trades))
  {
    hide NoGapReported, NoneUnseen;
    GapsToldRun(fl, capacity, period, trades);
  }

  /** Trades at or after the epoch skip nothing unseen. */
  lemma {:induction false} SinceEpochNoneUnseen(fl: Float, capacity: nat, period: Period, trades: seq<Trade>)
    requires SinceEpoch(trades)
    ensures NoneUnseen(fl, capacity, period, trades)
  {
    if trades != [] {
      hide SkipsUnseen, NoGapReported, TradedSeries;
      var init := trades[..|trades| - 1];
      SinceEpochNoneUnseen(fl, capacity, period, init);
      GapsToldRun(fl, capacity, period, init);
      SinceEpochSeen(TradedSeries(fl, capacity, period, init), trades[|trades| - 1]);
    }
  }

  lemma BreakAtEnd(bars: seq<Bar>, period: Period)
    requires |bars| >= 2 && bars[|bars| - 1].timestamp != bars[|bars| - 2].timestamp + period
    ensures !Consecutive(bars, period)
  {
    var i := |bars| - 2;
    assert bars[i + 1].timestamp != bars[i].timestamp + period;
  }

  /** The candle before the skipped one and the one after it stay in a series of at
      least two bars. */
  lemma RotatedBreak(fl: Float, s: Series, t: Trade)
    requires s.bars != [] && 2 <= s.capacity && |s.bars| <= s.capacity
    requires Consecutive(s.bars, s.period) && !Consecutive(TradedBars(fl, s.bars, s.period, t), s.period)
    ensures !Consecutive(AfterTrade(fl, s, t).bars, s.period)
  {
    hide Bucket, Secs;
    var bars := TradedBars(fl, s.bars, s.period, t);
    if UpdatesLast(s.bars, s.period, t) {
      SameStamps(s.bars, bars, s.period);
    } else {
      ConsecutivePush(s.bars, bars[|bars| - 1], s.period);
      var r := AfterTrade(fl, s, t).bars;
      assert r[|r| - 1] == bars[|bars| - 1] && r[|r| - 2] == s.bars[|s.bars| - 1];
      BreakAtEnd(r, s.period);
    }
  }

  ghost predicate QuietMeansWhole(fl: Float, capacity: nat, period: Period, trades: seq<Trade>) {
    NoGapReported(fl, capacity, period, trades) ==> Consecutive(TradedSeries(fl, capacity, period, trades).bars, period)
  }

  /** The exact condition: silence means consecutive candles throughout a run if and only
      if nothing is skipped unseen before the first report. */
  lemma {:induction false} NoGapsExactly(fl: Float, capacity: nat, period: Period, trades: seq<Trade>)
    requires 2 <= capacity
    ensures (forall n :: 0 <= n <= |trades| ==> QuietMeansWhole(fl, capacity, period, trades[..n]))
            <==> NoneUnseen(fl, capacity, period, trades)
  {
    hide QuietMeansWhole, SkipsUnseen, NoGapReported, TradedSeries;
    assert trades[..|trades|] == trades;
    QuietIfNoneUnseen(fl, capacity, period, trades);
    if trades != [] {
      var init, t := trades[..|trades| - 1], trades[|trades| - 1];
      assert trades == init + [t];
      NoGapsExactly(fl, capacity, period, init);
      assert forall n :: 0 <= n <= |init| ==> init[..n] == trades[..n];
      assert init[..|init|] == init;
      if NoGapReported(fl, capacity, period, init) && SkipsUnseen(TradedSeries(fl, capacity, period, init), t) && NoneUnseen(fl, capacity, period, init) {
        UnseenBreaks(fl, capacity, period, init, t);
        assert !QuietMeansWhole(fl, capacity, period, trades[..|trades|]);
      }
    }
  }

  lemma QuietIfNoneUnseen(fl: Float, capacity: nat, period: Period, trades: seq<Trade>)
    ensures NoneUnseen(fl, capacity, period, trades) ==> QuietMeansWhole(fl, capacity, period, trades)
  {
    hide NoGapReported, NoneUnseen, TradedSeries;
    NoGapsConsecutive(fl, capacity, period, trades);
  }

  lemma UnseenBreaks(fl: Float, capacity: nat, period: Period, trades: seq<Trade>, t: Trade)
    requires 2 <= capacity && QuietMeansWhole(fl, capacity, period, trades)
    requires NoGapReported(fl, capacity, period, trades) && SkipsUnseen(TradedSeries(fl, capacity, period, trades), t)
    ensures !QuietMeansWhole(fl, capacity, period, trades + [t])
  {
    hide Consecutive, Aligned, TradedBars, AfterTrade, CutForward;
    var s := TradedSeries(fl, capacity, period, trades);
    assert (trades + [t])[..|trades|] == trades;
    TradeOnlyRun(fl, capacity, period, trades);
    GapsToldRun(fl, capacity, period, trades);
    GapStep(fl, s, t);
    UnseenNotReported(s, t);
    RotatedBreak(fl, s, t);
  }

  lemma UnseenNotReported(s: Series, t: Trade)
    requires SkipsUnseen(s, t)
    ensures s.bars != [] && !HasGap(s, t.timestampMs)
  {
  }
}
