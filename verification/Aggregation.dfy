/** Streaming trade aggregation refines batch grouping: the candles that trades build
    one at a time are the ones that grouping the whole trade list would give. */
module Aggregation {
  import opened Picking
  import opened Arithmetic
  import opened Bars
  import opened BarSeries

  // ---------------------------------------------------------------------------
  // Batch grouping
  // ---------------------------------------------------------------------------

  function MaxSecs(trades: seq<Trade>): I64
    requires trades != []
  {
    var last := Secs(trades[|trades| - 1]);
    if |trades| == 1 then last
    else
      var m := MaxSecs(trades[..|trades| - 1]);
      if last > m then last else m
  }

  /** The trade raises the latest second and is cut forward from its candle. */
  predicate CutsForward(trades: seq<Trade>, t: Trade, period: Period) {
    && trades != [] && Secs(t) > MaxSecs(trades)
    && CutForward(Bucket(MaxSecs(trades), period), Secs(t), period)
  }

  predicate NoneCutForward(trades: seq<Trade>, period: Period) {
    trades != [] ==>
      var init, t := trades[..|trades| - 1], trades[|trades| - 1];
      NoneCutForward(init, period) && !CutsForward(init, t, period)
  }

  /** For each trade, the candle of the latest second seen so far. */
  function Buckets(trades: seq<Trade>, period: Period): (bs: seq<I64>)
    ensures |bs| == |trades|
  {
    if trades == [] then []
    else Buckets(trades[..|trades| - 1], period) + [Bucket(MaxSecs(trades), period)]
  }

  /** The values of a list in order of first appearance. */
  function Distinct(bs: seq<I64>): (d: seq<I64>)
    ensures forall b :: b in d <==> b in bs
  {
    if bs == [] then []
    else
      var init, last := bs[..|bs| - 1], bs[|bs| - 1];
      assert bs == init + [last];
      if last in init then Distinct(init) else Distinct(init) + [last]
  }

  /** The trades filed under bucket `b`, in arrival order. */
  function Members(trades: seq<Trade>, bs: seq<I64>, b: I64): (ms: seq<Trade>)
    requires |trades| == |bs|
    ensures b in bs <==> ms != []
  {
    if trades == [] then []
    else
      var n := |trades| - 1;
      assert bs == bs[..n] + [bs[n]];
      Members(trades[..n], bs[..n], b) + (if bs[n] == b then [trades[n]] else [])
  }

  function Highest(fl: Float, ms: seq<Trade>): F64
    requires ms != []
  {
    var last := ms[|ms| - 1].price;
    if |ms| == 1 then last
    else
      var h := Highest(fl, ms[..|ms| - 1]);
      if fl.gt(last, h) then last else h
  }

  function Lowest(fl: Float, ms: seq<Trade>): F64
    requires ms != []
  {
    var last := ms[|ms| - 1].price;
    if |ms| == 1 then last
    else
      var l := Lowest(fl, ms[..|ms| - 1]);
      if fl.gt(l, last) then last else l
  }

  function TotalQuantity(fl: Float, ms: seq<Trade>): F64
    requires ms != []
  {
    var last := ms[|ms| - 1].quantity;
    if |ms| == 1 then last else fl.add(TotalQuantity(fl, ms[..|ms| - 1]), last)
  }

  /** One candle: first, highest, lowest and last price, and the summed quantity. */
  function Candle(fl: Float, start: I64, ms: seq<Trade>): Bar
    requires ms != []
  {
    Bar(start, ms[0].price, Highest(fl, ms), Lowest(fl, ms), ms[|ms| - 1].price, TotalQuantity(fl, ms))
  }

  /** One candle for each bucket, given the bucket of each trade. */
  function Candles(fl: Float, trades: seq<Trade>, bs: seq<I64>): (bars: seq<Bar>)
    requires |trades| == |bs|
    ensures |bars| == |Distinct(bs)|
  {
    var d := Distinct(bs);
    seq(|d|, i requires 0 <= i < |d| => Candle(fl, d[i], Members(trades, bs, d[i])))
  }

  function BatchCandles(fl: Float, trades: seq<Trade>, period: Period): seq<Bar> {
    Candles(fl, trades, Buckets(trades, period))
  }

  ghost predicate IsSuffix(a: seq<Bar>, b: seq<Bar>) {
    |a| <= |b| && a == b[|b| - |a|..]
  }

  // ---------------------------------------------------------------------------
  // What the grouping is
  // ---------------------------------------------------------------------------

  /** The latest second is one of them, and none is later. */
  lemma {:induction false} MaxSecsIsMax(trades: seq<Trade>) returns (k: nat)
    requires trades != []
    ensures k < |trades| && MaxSecs(trades) == Secs(trades[k])
    ensures forall i :: 0 <= i < |trades| ==> Secs(trades[i]) <= MaxSecs(trades)
  {
    hide Secs;
    k := |trades| - 1;
    if |trades| > 1 {
      var j := MaxSecsIsMax(trades[..|trades| - 1]);
      if !(Secs(trades[k]) > MaxSecs(trades[..k])) {
        k := j;
      }
    }
  }

  /** Each trade is filed under the candle of the latest second up to it. */
  lemma {:induction false} BucketsEach(trades: seq<Trade>, period: Period)
    ensures forall i :: 0 <= i < |trades| ==> Buckets(trades, period)[i] == Bucket(MaxSecs(trades[..i + 1]), period)
  {
    if trades != [] {
      hide MaxSecs, Bucket;
      var n := |trades| - 1;
      BucketsEach(trades[..n], period);
      assert trades[..n + 1] == trades;
      forall i: nat | i < n
        ensures Buckets(trades, period)[i] == Bucket(MaxSecs(trades[..i + 1]), period)
      {
        assert trades[..n][..i + 1] == trades[..i + 1];
      }
    }
  }

  /** Which trades are filed under the bucket. */
  function FiledUnder(bs: seq<I64>, b: I64): (r: seq<bool>)
    ensures |r| == |bs|
  {
    seq(|bs|, i requires 0 <= i < |bs| => bs[i] == b)
  }

  /** The members of a bucket are the trades filed under it, in arrival order. */
  lemma {:induction false} MembersPick(trades: seq<Trade>, bs: seq<I64>, b: I64) returns (idx: seq<nat>)
    requires |trades| == |bs|
    ensures Picks(trades, Members(trades, bs, b), idx, FiledUnder(bs, b))
  {
    if trades == [] {
      idx := [];
    } else {
      hide Members, Picks;
      var n := |trades| - 1;
      idx := MembersPick(trades[..n], bs[..n], b);
      assert trades == trades[..n] + [trades[n]] && bs == bs[..n] + [bs[n]];
      MembersAppend(trades[..n], bs[..n], trades[n], bs[n], b);
      PickNext(trades[..n], Members(trades[..n], bs[..n], b), idx, FiledUnder(bs[..n], b), trades[n], bs[n] == b);
      assert FiledUnder(bs, b) == FiledUnder(bs[..n], b) + [bs[n] == b];
      assert Members(trades[..n], bs[..n], b) + [] == Members(trades[..n], bs[..n], b);
      if bs[n] == b {
        idx := idx + [n];
      }
    }
  }

  /** No candle starts twice, and the candles come in the order of their first trades. */
  lemma {:induction false} DistinctOnce(bs: seq<I64>)
    ensures var d := Distinct(bs);
      (forall i, j :: 0 <= i < j < |d| ==> d[i] != d[j]) && (bs != [] ==> d != [] && d[0] == bs[0])
  {
    if |bs| > 0 {
      var init := bs[..|bs| - 1];
      DistinctOnce(init);
      assert forall i :: 0 <= i < |Distinct(init)| ==> Distinct(init)[i] in init;
      assert bs == init + [bs[|bs| - 1]];
    }
  }

  /** The sum of the values of some quantities. */
  function Sum(value: F64 -> real, ms: seq<Trade>): real {
    if ms == [] then 0.0 else value(ms[0].quantity) + Sum(value, ms[1..])
  }

  lemma {:induction false} SumLast(value: F64 -> real, ms: seq<Trade>)
    requires ms != []
    ensures Sum(value, ms) == Sum(value, ms[..|ms| - 1]) + value(ms[|ms| - 1].quantity)
  {
    if |ms| > 1 {
      SumLast(value, ms[1..]);
      assert ms[1..][..|ms| - 2] == ms[..|ms| - 1][1..];
    }
  }

  /** Wherever addition is exact the volume is the sum of the quantities. */
  lemma {:induction false} VolumeIsSum(fl: Float, value: F64 -> real, ms: seq<Trade>)
    requires ms != [] && forall x, y :: value(fl.add(x, y)) == value(x) + value(y)
    ensures value(TotalQuantity(fl, ms)) == Sum(value, ms)
  {
    SumLast(value, ms);
    if |ms| > 1 {
      VolumeIsSum(fl, value, ms[..|ms| - 1]);
    } else {
      assert ms[..0] == [];
    }
  }

  // ---------------------------------------------------------------------------
  // Adding one trade to a batch
  // ---------------------------------------------------------------------------

  lemma CandleOne(fl: Float, start: I64, t: Trade)
    ensures Candle(fl, start, [t]) == OpenBar(start, t)
  {
  }

  /** A candle of one more trade is the old candle with that trade folded in. */
  lemma CandleAppend(fl: Float, start: I64, ms: seq<Trade>, t: Trade)
    requires ms != []
    ensures Candle(fl, start, ms + [t]) == FoldTrade(fl, Candle(fl, start, ms), t)
  {
    assert (ms + [t])[..|ms|] == ms;
  }

  lemma MaxSecsAppend(trades: seq<Trade>, t: Trade)
    ensures trades == [] ==> MaxSecs(trades + [t]) == Secs(t)
    ensures trades != [] ==> MaxSecs(trades + [t]) == if Secs(t) > MaxSecs(trades) then Secs(t) else MaxSecs(trades)
  {
    assert (trades + [t])[..|trades|] == trades;
  }

  lemma BucketsAppend(trades: seq<Trade>, t: Trade, period: Period)
    ensures Buckets(trades + [t], period) == Buckets(trades, period) + [Bucket(MaxSecs(trades + [t]), period)]
  {
    assert (trades + [t])[..|trades|] == trades;
  }

  lemma DistinctAppend(bs: seq<I64>, b: I64)
    ensures Distinct(bs + [b]) == if b in bs then Distinct(bs) else Distinct(bs) + [b]
  {
    assert (bs + [b])[..|bs|] == bs;
  }

  lemma MembersAppend(trades: seq<Trade>, bs: seq<I64>, t: Trade, x: I64, b: I64)
    requires |trades| == |bs|
    ensures Members(trades + [t], bs + [x], b) == Members(trades, bs, b) + (if x == b then [t] else [])
  {
    assert (trades + [t])[..|trades|] == trades && (bs + [x])[..|bs|] == bs;
  }

  /** No bucket exceeds that of the latest second, which is the last candle. */
  lemma {:induction false} LastBucket(trades: seq<Trade>, period: Period)
    requires trades != []
    ensures TopLast(Buckets(trades, period), Bucket(MaxSecs(trades), period))
  {
    hide MaxSecs, Bucket, TopLast;
    var init, t := trades[..|trades| - 1], trades[|trades| - 1];
    assert trades == init + [t];
    BucketsAppend(init, t, period);
    if init == [] {
      TopLastOne(Bucket(MaxSecs(trades), period));
      assert Buckets(init, period) == [];
    } else {
      LastBucket(init, period);
      MaxSecsAppend(init, t);
      BucketOrder(MaxSecs(init), MaxSecs(trades), period);
      TopLastAppend(Buckets(init, period), Bucket(MaxSecs(init), period), Bucket(MaxSecs(trades), period));
    }
  }

  /** `top` ends the list, bounds it, and ends its distinct values. */
  ghost predicate TopLast(bs: seq<I64>, top: I64) {
    var d := Distinct(bs);
    && bs != [] && (forall b :: b in bs ==> b <= top)
    && d != [] && d[|d| - 1] == top && forall i :: 0 <= i < |d| - 1 ==> d[i] < top
  }

  lemma TopLastOne(top: I64)
    ensures TopLast([top], top) && [] + [top] == [top]
  {
    DistinctAppend([], top);
    assert [] + [top] == [top];
  }

  lemma TopLastAppend(bs: seq<I64>, old_: I64, top: I64)
    requires TopLast(bs, old_) && old_ <= top
    ensures TopLast(bs + [top], top)
  {
    hide Distinct;
    DistinctAppend(bs, top);
    var d := Distinct(bs);
    assert forall i :: 0 <= i < |d| ==> d[i] in bs;
  }

  lemma CandlesNew(fl: Float, trades: seq<Trade>, bs: seq<I64>, t: Trade, b: I64)
    requires |trades| == |bs| && b !in bs
    ensures Candles(fl, trades + [t], bs + [b]) == Candles(fl, trades, bs) + [OpenBar(b, t)]
  {
    hide Distinct, Members, Candle;
    DistinctAppend(bs, b);
    var d := Distinct(bs);
    forall i | 0 <= i < |d|
      ensures Members(trades + [t], bs + [b], d[i]) == Members(trades, bs, d[i])
    {
      assert d[i] in bs;
      MembersAppend(trades, bs, t, b, d[i]);
    }
    MembersAppend(trades, bs, t, b, b);
    assert Members(trades, bs, b) == [];
    assert Members(trades + [t], bs + [b], b) == [t];
    CandleOne(fl, b, t);
    var bars, bars' := Candles(fl, trades, bs), Candles(fl, trades + [t], bs + [b]);
    assert forall i :: 0 <= i < |d| ==> bars'[i] == bars[i];
  }

  lemma CandleAt(fl: Float, trades: seq<Trade>, bs: seq<I64>, i: nat)
    requires |trades| == |bs| && i < |Distinct(bs)|
    ensures Members(trades, bs, Distinct(bs)[i]) != []
    ensures Candles(fl, trades, bs)[i] == Candle(fl, Distinct(bs)[i], Members(trades, bs, Distinct(bs)[i]))
  {
    hide Distinct, Members, Candle;
    assert Distinct(bs)[i] in bs;
  }

  lemma LastReplaced(a: seq<Bar>, b: seq<Bar>, last: Bar)
    requires |a| == |b| && a != [] && b[|b| - 1] == last && forall i :: 0 <= i < |a| - 1 ==> b[i] == a[i]
    ensures b == a[..|a| - 1] + [last]
  {
  }

  lemma CandlesSame(fl: Float, trades: seq<Trade>, bs: seq<I64>, t: Trade)
    requires |trades| == |bs| && bs != []
    requires var d := Distinct(bs);
      d != [] && forall i :: 0 <= i < |d| - 1 ==> d[i] != d[|d| - 1]
    ensures var b := Distinct(bs)[|Distinct(bs)| - 1];
      var bars := Candles(fl, trades, bs);
      && bars[|bars| - 1].timestamp == b
      && Candles(fl, trades + [t], bs + [b]) == bars[..|bars| - 1] + [FoldTrade(fl, bars[|bars| - 1], t)]
  {
    hide Distinct, Members, FoldTrade, Candles, Candle;
    var d := Distinct(bs);
    var n := |d| - 1;
    var b := d[n];
    DistinctAppend(bs, b);
    var bars, bars' := Candles(fl, trades, bs), Candles(fl, trades + [t], bs + [b]);
    assert b in bs;
    MembersAppend(trades, bs, t, b, b);
    CandleAt(fl, trades, bs, n);
    CandleAt(fl, trades + [t], bs + [b], n);
    CandleAppend(fl, b, Members(trades, bs, b), t);
    CandleStart(fl, b, Members(trades, bs, b));
    forall i | 0 <= i < n
      ensures bars'[i] == bars[i]
    {
      MembersAppend(trades, bs, t, b, d[i]);
      CandleAt(fl, trades, bs, i);
      CandleAt(fl, trades + [t], bs + [b], i);
      assert Members(trades, bs, d[i]) + [] == Members(trades, bs, d[i]);
    }
    LastReplaced(bars, bars', FoldTrade(fl, bars[n], t));
  }

  lemma CandleStart(fl: Float, start: I64, ms: seq<Trade>)
    requires ms != []
    ensures Candle(fl, start, ms).timestamp == start
  {
  }

  /** A trade past the last candle adds a candle to the batch. */
  lemma BatchNewCandle(fl: Float, trades: seq<Trade>, t: Trade, period: Period)
    requires trades == [] || Secs(t) >= Bucket(MaxSecs(trades), period) + period
    ensures BatchCandles(fl, trades + [t], period)
         == BatchCandles(fl, trades, period) + [OpenBar(Bucket(Secs(t), period), t)]
  {
    hide Candles, Distinct, Buckets, Bucket, MaxSecs, Secs, OpenBar;
    MaxSecsAppend(trades, t);
    BucketsAppend(trades, t, period);
    if trades == [] {
      assert Buckets(trades, period) == [];
    } else {
      LastBucket(trades, period);
      BucketOrder(MaxSecs(trades), Secs(t), period);
    }
    CandlesNew(fl, trades, Buckets(trades, period), t, Bucket(Secs(t), period));
  }

  /** Any other trade, late ones included, is folded into the last candle. */
  lemma BatchSameCandle(fl: Float, trades: seq<Trade>, t: Trade, period: Period)
    requires trades != [] && !CutsForward(trades, t, period)
    requires Secs(t) < Bucket(MaxSecs(trades), period) + period
    ensures var bars := BatchCandles(fl, trades, period);
      && bars != [] && bars[|bars| - 1].timestamp == Bucket(MaxSecs(trades), period)
      && BatchCandles(fl, trades + [t], period) == bars[..|bars| - 1] + [FoldTrade(fl, bars[|bars| - 1], t)]
  {
    hide Candles, Distinct, Buckets, Bucket, MaxSecs, Secs, FoldTrade;
    MaxSecsAppend(trades, t);
    LastBucket(trades, period);
    if Secs(t) > MaxSecs(trades) {
      BucketOrder(MaxSecs(trades), Secs(t), period);
    }
    BucketsAppend(trades, t, period);
    CandlesSame(fl, trades, Buckets(trades, period), t);
  }

  // ---------------------------------------------------------------------------
  // The refinement
  // ---------------------------------------------------------------------------

  /** `bars` is the newest part of `batch`: all of it, or at least what a full series
      keeps when it drops a block. */
  ghost predicate Mirrors(bars: seq<Bar>, batch: seq<Bar>, capacity: nat) {
    && IsSuffix(bars, batch) && |bars| <= capacity
    && (bars == batch || |bars| >= capacity + 1 - if capacity < 20 then 1 else capacity / 10)
    && (|batch| <= capacity ==> bars == batch)
  }

  lemma MirrorsPush(bars: seq<Bar>, batch: seq<Bar>, capacity: nat, bar: Bar)
    requires Mirrors(bars, batch, capacity)
    ensures var pushed := bars + [bar];
      Mirrors(if |pushed| > capacity then pushed[RotateCount(capacity)..] else pushed, batch + [bar], capacity)
  {
    assert (batch + [bar])[|batch| - |bars|..] == bars + [bar];
  }

  ghost predicate Refines(fl: Float, trades: seq<Trade>, capacity: nat, period: Period) {
    Mirrors(AfterTrades(fl, NewSeries(capacity, period), trades).bars, BatchCandles(fl, trades, period), capacity)
  }

  /** Whatever the arrival order, the bars in memory are the newest candles of the
      batch: all of them while the batch fits the capacity, and never fewer than a
      full series keeps when it drops a block. */
  lemma {:induction false} StreamingRefinesBatch(fl: Float, trades: seq<Trade>, capacity: nat, period: Period)
    requires NoneCutForward(trades, period)
    ensures Refines(fl, trades, capacity, period)
  {
    hide BatchCandles, MaxSecs, Bucket, AfterTrade, CutsForward;
    if trades == [] {
      BatchNothing(fl, period);
    } else {
      var init, t := trades[..|trades| - 1], trades[|trades| - 1];
      assert trades == init + [t];
      StreamingRefinesBatch(fl, init, capacity, period);
      TradeOnlyRun(fl, capacity, period, init);
      if init != [] {
        LastCandle(fl, init, period);
      }
      StreamStep(fl, AfterTrades(fl, NewSeries(capacity, period), init), BatchCandles(fl, init, period), init, t);
    }
  }

  /** Trades at or after the epoch are never cut forward. */
  lemma {:induction false} SinceEpochNeverCut(trades: seq<Trade>, period: Period)
    requires SinceEpoch(trades)
    ensures NoneCutForward(trades, period) && (trades != [] ==> 0 <= MaxSecs(trades))
  {
    hide Bucket, Secs;
    if trades != [] {
      SinceEpochNeverCut(trades[..|trades| - 1], period);
      var t := trades[|trades| - 1];
      assert 0 <= Secs(t) by { SecsSinceEpoch(t); }
      if |trades| > 1 {
        BucketSinceEpoch(MaxSecs(trades[..|trades| - 1]), period);
      }
    }
  }

  lemma BucketSinceEpoch(secs: I64, period: Period)
    requires 0 <= secs
    ensures 0 <= Bucket(secs, period)
  {
    hide TruncDiv;
    var q := TruncDiv(secs, period);
    if q * period < 0 * period {
      MultiplesApart(q, 0, period);
    }
  }

  lemma MirrorsEnd(bars: seq<Bar>, batch: seq<Bar>, capacity: nat)
    requires Mirrors(bars, batch, capacity) && capacity >= 1 && batch != []
    ensures bars != [] && |bars| <= capacity && bars[|bars| - 1] == batch[|batch| - 1]
  {
  }

  lemma FoldedStays(fl: Float, s: Series, t: Trade)
    requires UpdatesLast(s.bars, s.period, t) && |s.bars| <= s.capacity
    ensures var bars := AfterTrade(fl, s, t).bars;
      bars != [] && bars[|bars| - 1].timestamp == s.bars[|s.bars| - 1].timestamp
  {
    hide Secs;
  }

  /** A trade that is cut forward breaks the refinement: it is folded into the last
      bar, while its own candle is a later one. */
  lemma CutBreaks(fl: Float, s: Series, trades: seq<Trade>, t: Trade)
    requires CutsForward(trades, t, s.period) && s.capacity >= 1
    requires Mirrors(s.bars, BatchCandles(fl, trades, s.period), s.capacity)
    ensures !Mirrors(AfterTrade(fl, s, t).bars, BatchCandles(fl, trades + [t], s.period), s.capacity)
  {
    hide BatchCandles, MaxSecs, Bucket, Secs, AfterTrade, Mirrors;
    LastCandle(fl, trades, s.period);
    LastCandle(fl, trades + [t], s.period);
    MaxSecsAppend(trades, t);
    BucketOrder(MaxSecs(trades), Secs(t), s.period);
    MirrorsEnd(s.bars, BatchCandles(fl, trades, s.period), s.capacity);
    FoldedStays(fl, s, t);
    if Mirrors(AfterTrade(fl, s, t).bars, BatchCandles(fl, trades + [t], s.period), s.capacity) {
      MirrorsEnd(AfterTrade(fl, s, t).bars, BatchCandles(fl, trades + [t], s.period), s.capacity);
      assert false;
    }
  }

  /** The exact condition: the refinement holds throughout a run if and only if no
      trade of it is cut forward. */
  lemma {:induction false} StreamingRefinesExactly(fl: Float, trades: seq<Trade>, capacity: nat, period: Period)
    requires capacity >= 1
    ensures (forall n :: 0 <= n <= |trades| ==> Refines(fl, trades[..n], capacity, period)) <==> NoneCutForward(trades, period)
  {
    hide Refines, CutsForward;
    if trades == [] {
      StreamingRefinesBatch(fl, [], capacity, period);
      assert forall n :: 0 <= n <= |trades| ==> trades[..n] == [];
    } else {
      var init, t := trades[..|trades| - 1], trades[|trades| - 1];
      assert trades == init + [t] && trades[..|trades|] == trades;
      StreamingRefinesExactly(fl, init, capacity, period);
      assert forall n :: 0 <= n <= |init| ==> init[..n] == trades[..n];
      if NoneCutForward(trades, period) {
        StreamingRefinesBatch(fl, trades, capacity, period);
      } else if NoneCutForward(init, period) {
        StreamingRefinesBatch(fl, init, capacity, period);
        RefinesStep(fl, init, t, capacity, period);
      }
    }
  }

  lemma RefinesStep(fl: Float, trades: seq<Trade>, t: Trade, capacity: nat, period: Period)
    requires Refines(fl, trades, capacity, period) && CutsForward(trades, t, period) && capacity >= 1
    ensures !Refines(fl, trades + [t], capacity, period)
  {
    hide Mirrors, BatchCandles, CutsForward, AfterTrade;
    TradeOnlyRun(fl, capacity, period, trades);
    CutBreaks(fl, AfterTrades(fl, NewSeries(capacity, period), trades), trades, t);
    assert (trades + [t])[..|trades|] == trades;
  }

  lemma BatchNothing(fl: Float, period: Period)
    ensures BatchCandles(fl, [], period) == []
  {
  }

  lemma LastCandle(fl: Float, trades: seq<Trade>, period: Period)
    requires trades != []
    ensures var batch := BatchCandles(fl, trades, period);
      batch != [] && batch[|batch| - 1].timestamp == Bucket(MaxSecs(trades), period)
  {
    hide MaxSecs, Bucket, Buckets, Distinct, Members;
    LastBucket(trades, period);
  }

  lemma StreamStep(fl: Float, s: Series, batch: seq<Bar>, trades: seq<Trade>, t: Trade)
    requires !CutsForward(trades, t, s.period) && batch == BatchCandles(fl, trades, s.period)
    requires trades != [] ==> batch != [] && batch[|batch| - 1].timestamp == Bucket(MaxSecs(trades), s.period)
    requires Mirrors(s.bars, batch, s.capacity)
    requires trades == [] ==> s.bars == []
    ensures Mirrors(AfterTrade(fl, s, t).bars, BatchCandles(fl, trades + [t], s.period), s.capacity)
  {
    hide BatchCandles, MaxSecs, Bucket, OpenBar, FoldTrade, Secs;
    if trades == [] || Secs(t) >= Bucket(MaxSecs(trades), s.period) + s.period {
      BatchNewCandle(fl, trades, t, s.period);
      var bar := OpenBar(Bucket(Secs(t), s.period), t);
      assert s.bars != [] ==> s.bars[|s.bars| - 1] == batch[|batch| - 1];
      MirrorsPush(s.bars, batch, s.capacity, bar);
    } else {
      BatchSameCandle(fl, trades, t, s.period);
      if s.bars != [] {
        assert s.bars[|s.bars| - 1] == batch[|batch| - 1];
        var bar := FoldTrade(fl, batch[|batch| - 1], t);
      }
    }
  }

  /** With times that never decrease, every trade is filed under its own candle. */
  lemma {:induction false} OrderedTradesOwnBucket(trades: seq<Trade>, period: Period)
    requires forall i, j :: 0 <= i < j < |trades| ==> Secs(trades[i]) <= Secs(trades[j])
    ensures trades != [] ==> MaxSecs(trades) == Secs(trades[|trades| - 1])
    ensures forall i :: 0 <= i < |trades| ==> Buckets(trades, period)[i] == Bucket(Secs(trades[i]), period)
  {
    if trades != [] {
      OrderedTradesOwnBucket(trades[..|trades| - 1], period);
    }
  }

  // ---------------------------------------------------------------------------
  // What the extremes mean
  // ---------------------------------------------------------------------------

  /** `>` on the prices of a trade list is a strict weak order, as it is on doubles
      other than NaN. */
  ghost predicate OrderedPrices(fl: Float, ms: seq<Trade>) {
    && (forall i :: 0 <= i < |ms| ==> !fl.gt(ms[i].price, ms[i].price))
    && (forall i, j :: 0 <= i < |ms| && 0 <= j < |ms| && fl.gt(ms[i].price, ms[j].price) ==> !fl.gt(ms[j].price, ms[i].price))
    && (forall i, j, k :: 0 <= i < |ms| && 0 <= j < |ms| && 0 <= k < |ms|
          && !fl.gt(ms[i].price, ms[j].price) && !fl.gt(ms[j].price, ms[k].price)
          ==> !fl.gt(ms[i].price, ms[k].price))
  }

  lemma OrderedPricesPrefix(fl: Float, ms: seq<Trade>, n: nat)
    requires OrderedPrices(fl, ms) && n <= |ms|
    ensures OrderedPrices(fl, ms[..n])
  {
  }

  lemma {:induction false} HighestCorrect(fl: Float, ms: seq<Trade>) returns (hi: nat)
    requires ms != [] && OrderedPrices(fl, ms)
    ensures hi < |ms| && ms[hi].price == Highest(fl, ms)
    ensures forall i :: 0 <= i < |ms| ==> !fl.gt(ms[i].price, ms[hi].price)
  {
    var n := |ms| - 1;
    hi := n;
    if n > 0 {
      OrderedPricesPrefix(fl, ms, n);
      var h := HighestCorrect(fl, ms[..n]);
      assert ms[..n][h] == ms[h];
      forall i | 0 <= i < n
        ensures !fl.gt(ms[i].price, ms[h].price)
      {
        assert ms[..n][i] == ms[i];
      }
      if !fl.gt(ms[n].price, ms[h].price) {
        hi := h;
      }
    }
  }

  lemma {:induction false} LowestCorrect(fl: Float, ms: seq<Trade>) returns (lo: nat)
    requires ms != [] && OrderedPrices(fl, ms)
    ensures lo < |ms| && ms[lo].price == Lowest(fl, ms)
    ensures forall i :: 0 <= i < |ms| ==> !fl.gt(ms[lo].price, ms[i].price)
  {
    var n := |ms| - 1;
    lo := n;
    if n > 0 {
      OrderedPricesPrefix(fl, ms, n);
      var l := LowestCorrect(fl, ms[..n]);
      assert ms[..n][l] == ms[l];
      forall i | 0 <= i < n
        ensures !fl.gt(ms[l].price, ms[i].price)
      {
        assert ms[..n][i] == ms[i];
      }
      if !fl.gt(ms[l].price, ms[n].price) {
        lo := l;
      }
    }
  }

  /** The high is a price of the candle that no other exceeds, the low one that
      exceeds no other. */
  lemma ExtremesCorrect(fl: Float, ms: seq<Trade>) returns (hi: nat, lo: nat)
    requires ms != [] && OrderedPrices(fl, ms)
    ensures hi < |ms| && ms[hi].price == Highest(fl, ms) && lo < |ms| && ms[lo].price == Lowest(fl, ms)
    ensures forall i :: 0 <= i < |ms| ==> !fl.gt(ms[i].price, Highest(fl, ms)) && !fl.gt(Lowest(fl, ms), ms[i].price)
  {
    hide OrderedPrices, Highest, Lowest;
    hi := HighestCorrect(fl, ms);
    lo := LowestCorrect(fl, ms);
  }
}
