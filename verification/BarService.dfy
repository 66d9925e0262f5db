/** The central OHLCV store (`crates/bar-service/src/service.rs`), as the object that
    owns the shared series and the store handle. */
module BarService {
  import opened Bars
  import opened BarMerge
  import opened BarSeries
  import opened BarStore
  import opened BarPipeline

  datatype Event =
    | NewBar(key: Key, bar: Bar)
    | BarUpdated(key: Key)
    | BatchMerged(key: Key, count: nat)

  /** A series behind its shared handle. */
  class SharedSeries {
    var bars: seq<Bar>
    var version: nat
    const capacity: nat
    var lastTradeTs: I64
    var dirty: bool
    var oldestRotatedTs: Option<I64>
    const period: Period

    constructor (capacity: nat, period: Period)
      ensures View() == NewSeries(capacity, period)
    {
      bars, version, lastTradeTs, dirty, oldestRotatedTs := [], 0, 0, false, None;
      this.capacity, this.period := capacity, period;
    }

    function View(): Series
      reads this
    {
      Series(bars, version, capacity, lastTradeTs, dirty, oldestRotatedTs, period)
    }

    /** The candle part of a trade. */
    method TakeTrade(fl: Float, key: Key, price: F64, quantity: F64, timestampMs: I64) returns (event: Event)
      modifies this
      ensures View() == Traded(fl, old(View()), Trade(price, quantity, timestampMs))
      ensures event == TradeEvent(key, old(View()), Trade(price, quantity, timestampMs))
    {
      var tradeSecs := TruncDiv(timestampMs, 1000);
      if |bars| > 0 && tradeSecs < bars[|bars| - 1].timestamp + period {
        var last := bars[|bars| - 1];
        last := last.(close := price);
        if fl.gt(price, last.high) {
          last := last.(high := price);
        }
        if fl.gt(last.low, price) {
          last := last.(low := price);
        }
        last := last.(volume := fl.add(last.volume, quantity));
        bars := bars[|bars| - 1 := last];
        event := BarUpdated(key);
      } else {
        var start := Bucket(tradeSecs, period);
        var bar := Bar(start, price, price, price, price, quantity);
        bars := bars + [bar];
        event := NewBar(key, bar);
      }
      version := version + 1;
      dirty := true;
      lastTradeTs := tradeSecs;
    }

    method TakeBatch(batch: seq<Bar>)
      modifies this
      ensures View() == Merged(old(View()), batch)
    {
      bars := MergeBarsSorted(bars, batch);
      version := version + 1;
      dirty := true;
    }

    method Seed(bars: seq<Bar>)
      modifies this
      ensures View() == Seeded(old(View()), bars)
    {
      this.bars := bars;
      dirty := false;
    }

    method MarkClean()
      modifies this
      ensures View() == Clean(old(View()))
    {
      dirty := false;
    }

    /** Drop one block of the oldest bars when over capacity. */
    method Rotate() returns (rotated: bool)
      modifies this
      ensures View() == Rotated(old(View())) && rotated == Overfull(old(View()))
    {
      if |bars| <= capacity {
        return false;
      }
      var n := capacity / 10;
      if n < 1 {
        n := 1;
      }
      oldestRotatedTs := Some(bars[0].timestamp);
      bars := bars[n..];
      rotated := true;
    }
  }

  /** What the caller is told about a trade. */
  function TradeEvent(key: Key, s: Series, t: Trade): Event {
    if UpdatesLast(s.bars, s.period, t) then BarUpdated(key)
    else NewBar(key, OpenBar(Bucket(Secs(t), s.period), t))
  }

  /** The event says what happened: a new bar, made of the trade alone, when the series
      grew by one at its end, and an update when its last bar took the trade in. */
  lemma EventTells(fl: Float, key: Key, s: Series, t: Trade)
    ensures var bars := TradedBars(fl, s.bars, s.period, t);
      match TradeEvent(key, s, t)
      case NewBar(k, bar) =>
        && k == key && bars == s.bars + [bar]
        && bar.open == bar.high == bar.low == bar.close == t.price && bar.volume == t.quantity
        && (s.capacity >= 1 ==> AfterTrade(fl, s, t).bars != [] && AfterTrade(fl, s, t).bars[|AfterTrade(fl, s, t).bars| - 1] == bar)
      case BarUpdated(k) =>
        && k == key && s.bars != [] && |bars| == |s.bars| && bars[..|bars| - 1] == s.bars[..|bars| - 1]
        && bars[|bars| - 1].timestamp == s.bars[|bars| - 1].timestamp && bars[|bars| - 1].close == t.price
      case BatchMerged(_, _) => false
  {
    hide Bucket, Secs;
  }

  class BarService {
    var series: map<Key, SharedSeries>
    const store: BarStoreHandle
    const defaultCapacity: nat
    const fl: Float

    /** Different keys never share a series. */
    ghost predicate Valid()
      reads this, store
    {
      && store.Valid()
      && forall a, b :: a in series && b in series && a != b ==> series[a] != series[b]
    }

    ghost function View(): World
      reads this, store, series.Values
    {
      World(map k | k in series :: series[k].View(), store.disk, store.queue)
    }

    constructor (store: BarStoreHandle, defaultCapacity: nat, fl: Float)
      requires store.Valid()
      ensures Valid() && this.store == store && this.defaultCapacity == defaultCapacity && this.fl == fl
      ensures View() == World(map[], store.disk, store.queue)
    {
      series := map[];
      this.store, this.defaultCapacity, this.fl := store, defaultCapacity, fl;
    }

    /** A change of one series, seen from outside. */
    twostate lemma OneSeriesChanged(key: Key)
      requires Valid() && series == old(series) && key in series
      requires forall k :: k in series && k != key ==> series[k].View() == old(series[k].View())
      requires store.disk == old(store.disk) && store.queue == old(store.queue)
      ensures View() == old(View()).(series := old(View()).series[key := series[key].View()])
    {
      hide SharedSeries.View;
      assert View().series == old(View()).series[key := series[key].View()];
    }

    /** A queued write, seen from outside. */
    twostate lemma WriteQueued(cmd: BarWriteCmd)
      requires series == old(series) && forall k :: k in series ==> series[k].View() == old(series[k].View())
      requires store.disk == old(store.disk) && store.queue == old(store.queue) + [cmd]
      ensures View() == old(View()).(queue := old(View()).queue + [cmd])
    {
      hide SharedSeries.View;
      assert View().series == old(View()).series;
    }

    method GetOrCreate(key: Key, period: Period) returns (handle: SharedSeries)
      requires Valid()
      modifies this`series
      ensures Valid() && View() == Created(old(View()), key, period, defaultCapacity)
      ensures key in series && handle == series[key]
      ensures key in old(series) ==> series == old(series)
      ensures key !in old(series) ==> fresh(handle) && series == old(series)[key := handle]
    {
      hide SharedSeries.View;
      if key in series {
        handle := series[key];
      } else {
        handle := new SharedSeries(defaultCapacity, period);
        series := series[key := handle];
        assert View().series == old(View()).series[key := handle.View()];
      }
    }

    method ApplyTrade(key: Key, price: F64, quantity: F64, timestampMs: I64) returns (event: Option<Event>)
      requires Valid()
      modifies series.Values, store`queue
      ensures Valid() && View() == TradeApplied(fl, old(View()), key, Trade(price, quantity, timestampMs))
      ensures event.None? <==> key !in series
      ensures event.Some? ==> event.value == TradeEvent(key, old(View()).series[key], Trade(price, quantity, timestampMs))
    {
      hide SharedSeries.View, Traded, Store, TradeEvent;
      if key !in series {
        return None;
      }
      var handle := series[key];
      ghost var t := Trade(price, quantity, timestampMs);
      ghost var s := View().series[key];
      var e := handle.TakeTrade(fl, key, price, quantity, timestampMs);
      event := Some(e);
      OneSeriesChanged(key);
      MaybeRotate(key, handle);
      StoreOverwrites(old(View()), key, Traded(fl, s, t));
    }

    method MaybeRotate(key: Key, handle: SharedSeries)
      requires Valid() && key in series && series[key] == handle
      modifies handle, store`queue
      ensures Valid() && View() == Store(old(View()), key, old(View()).series[key])
    {
      hide SharedSeries.View, Rotated, Overfull, FilePath;
      var rotated := handle.Rotate();
      OneSeriesChanged(key);
      if rotated {
        BarsOfView(handle);
        store.WriteAsync(key, handle.bars);
      }
    }

    lemma BarsOfView(handle: SharedSeries)
      ensures handle.View().bars == handle.bars && handle.View().dirty == handle.dirty
    {
    }

    method MergeRestBatch(key: Key, batch: seq<Bar>, period: Period) returns (event: Event)
      requires Valid()
      modifies this`series, series.Values, store`queue
      ensures Valid() && View() == BatchApplied(old(View()), key, batch, period, defaultCapacity)
      ensures event == BatchMerged(key, |batch|)
    {
      hide SharedSeries.View, Merged, Created, Store;
      var handle := GetOrCreate(key, period);
      ghost var c := View();
      label Ready:
      handle.TakeBatch(batch);
      OneSeriesChanged@Ready(key);
      MaybeRotate(key, handle);
      StoreOverwrites(c, key, Merged(c.series[key], batch));
      event := BatchMerged(key, |batch|);
    }

    method SeedFromDisk(key: Key, bars: seq<Bar>, period: Period)
      requires Valid()
      modifies this`series, series.Values
      ensures Valid() && View() == SeedApplied(old(View()), key, bars, period, defaultCapacity)
    {
      hide SharedSeries.View, Created, Seeded;
      var handle := GetOrCreate(key, period);
      label Ready:
      handle.Seed(bars);
      OneSeriesChanged@Ready(key);
    }

    /** The part of `flush_dirty` for one series. */
    method FlushOne(key: Key)
      requires Valid() && key in series
      modifies series[key], store`queue
      ensures Valid() && View() == FlushedOne(old(View()), key)
    {
      hide SharedSeries.View, FilePath, Clean;
      var handle := series[key];
      BarsOfView(handle);
      if handle.dirty {
        store.WriteAsync(key, handle.bars);
        WriteQueued(Write(FilePath(key), handle.bars));
        label Queued:
        handle.MarkClean();
        OneSeriesChanged@Queued(key);
      }
    }

    /** `order` is the order in which the hash map was iterated. */
    method FlushDirty() returns (ghost order: seq<Key>)
      requires Valid()
      modifies series.Values, store`queue
      ensures Valid() && Lists(order, DirtyKeys(old(View()).series))
      ensures View() == Flushed(old(View()), order)
    {
      hide SharedSeries.View, Clean, FlushedPart, FlushedOne, Flushed;
      ghost var w := View();
      order := [];
      var rest := series.Keys;
      assert View().series.Keys == series.Keys;
      FlushedStart(w);
      while rest != {}
        invariant Valid() && series == old(series) && rest <= series.Keys == w.series.Keys
        invariant FlushedPart(w, View(), order, rest)
        decreases |rest|
      {
        var key :| key in rest;
        ghost var v := View();
        FlushOne(key);
        order := FlushedNext(w, v, order, rest, key);
        rest := rest - {key};
      }
      FlushedEnd(w, View(), order);
    }

    /** Shutdown: wait until every queued write has run. */
    method FlushSync()
      requires Valid()
      modifies store
      ensures Valid() && View() == Synced(old(View()))
    {
      store.FlushSync();
    }

    /** The bar cache step of saving everything at shutdown. */
    method SaveBars() returns (ghost order: seq<Key>)
      requires Valid()
      modifies series.Values, store
      ensures Valid() && Lists(order, DirtyKeys(old(View()).series))
      ensures View() == Synced(Flushed(old(View()), order))
    {
      hide Flushed, Synced, Lists;
      order := FlushDirty();
      FlushSync();
    }

    method HasAnyDirty() returns (any: bool)
      requires Valid()
      ensures any <==> DirtyKeys(View().series) != {}
    {
      var rest := series.Keys;
      while rest != {}
        invariant rest <= series.Keys
        invariant DirtyKeys(View().series) <= rest
        decreases |rest|
      {
        var key :| key in rest;
        if series[key].dirty {
          assert key in DirtyKeys(View().series);
          return true;
        }
        rest := rest - {key};
      }
      any := false;
    }

    method QueryGap(key: Key, timestampMs: I64) returns (gap: bool)
      requires Valid()
      ensures gap <==> key in series && HasGap(series[key].View(), timestampMs)
    {
      if key !in series {
        return false;
      }
      var handle := series[key];
      if |handle.bars| == 0 {
        return false;
      }
      var candleEnd := handle.bars[|handle.bars| - 1].timestamp + handle.period;
      gap := TruncDiv(timestampMs, 1000) >= candleEnd + handle.period;
    }
  }
}
