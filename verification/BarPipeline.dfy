/** The bar service and its store as one state, and what each call does to it
    (`crates/bar-service/src/service.rs`). */
module BarPipeline {
  import opened Bars
  import opened BarMerge
  import opened BarSeries
  import opened BarStore

  datatype World = World(series: map<Key, Series>, disk: Disk, queue: seq<BarWriteCmd>)

  function WriteOf(key: Key, s: Series): BarWriteCmd {
    Write(FilePath(key), s.bars)
  }

  /** Store a mutated series, rotating it first; a rotation queues a write. */
  function Store(w: World, key: Key, s: Series): World {
    var r := Rotated(s);
    World(w.series[key := r], w.disk, if Overfull(s) then w.queue + [WriteOf(key, r)] else w.queue)
  }

  lemma StoreOverwrites(w: World, key: Key, s: Series)
    ensures Store(w.(series := w.series[key := s]), key, s) == Store(w, key, s)
  {
    hide Rotated, Overfull, WriteOf;
    assert w.series[key := s][key := Rotated(s)] == w.series[key := Rotated(s)];
  }

  function Created(w: World, key: Key, period: Period, capacity: nat): World {
    if key in w.series then w else w.(series := w.series[key := NewSeries(capacity, period)])
  }

  /** A trade for an unknown series is ignored. */
  function TradeApplied(fl: Float, w: World, key: Key, t: Trade): World {
    if key in w.series then Store(w, key, Traded(fl, w.series[key], t)) else w
  }

  ghost function BatchApplied(w: World, key: Key, batch: seq<Bar>, period: Period, capacity: nat): World {
    var c := Created(w, key, period, capacity);
    Store(c, key, Merged(c.series[key], batch))
  }

  function SeedApplied(w: World, key: Key, bars: seq<Bar>, period: Period, capacity: nat): World {
    var c := Created(w, key, period, capacity);
    c.(series := c.series[key := Seeded(c.series[key], bars)])
  }

  // ---------------------------------------------------------------------------
  // Flushing
  // ---------------------------------------------------------------------------

  function DirtyKeys(series: map<Key, Series>): set<Key> {
    set k | k in series && series[k].dirty
  }

  /** `order` lists exactly the given keys, each once: the order in which a hash
      map happens to be iterated. */
  ghost predicate Lists(order: seq<Key>, keys: set<Key>) {
    && (forall k :: k in order <==> k in keys)
    && (forall i, j :: 0 <= i < j < |order| ==> order[i] != order[j])
  }

  lemma ListsAppend(order: seq<Key>, keys: set<Key>, key: Key)
    requires Lists(order, keys) && key !in keys
    ensures Lists(order + [key], keys + {key})
  {
  }

  function Writes(series: map<Key, Series>, order: seq<Key>): seq<BarWriteCmd> {
    if order == [] then []
    else
      var key := order[|order| - 1];
      Writes(series, order[..|order| - 1]) + if key in series then [WriteOf(key, series[key])] else []
  }

  lemma WritesAppend(series: map<Key, Series>, order: seq<Key>, key: Key)
    requires key in series
    ensures Writes(series, order + [key]) == Writes(series, order) + [WriteOf(key, series[key])]
  {
    hide WriteOf;
    assert (order + [key])[..|order|] == order;
  }

  function Clean(s: Series): Series {
    s.(dirty := false)
  }

  /** Every dirty series is queued, in some order, and marked clean. */
  function Flushed(w: World, order: seq<Key>): World {
    World(map k | k in w.series :: Clean(w.series[k]), w.disk, w.queue + Writes(w.series, order))
  }

  function FlushedOne(w: World, key: Key): World
    requires key in w.series
  {
    if w.series[key].dirty
    then World(w.series[key := Clean(w.series[key])], w.disk, w.queue + [WriteOf(key, w.series[key])])
    else w
  }

  /** `v` is `w` with all series outside `rest` flushed, the dirty ones in `order`. */
  ghost predicate FlushedPart(w: World, v: World, order: seq<Key>, rest: set<Key>) {
    && v.series.Keys == w.series.Keys && v.disk == w.disk
    && Lists(order, DirtyKeys(w.series) - rest)
    && v.queue == w.queue + Writes(w.series, order)
    && forall k :: k in w.series ==> v.series[k] == if k in rest then w.series[k] else Clean(w.series[k])
  }

  lemma FlushedStart(w: World)
    ensures FlushedPart(w, w, [], w.series.Keys)
  {
  }

  lemma FlushedNext(w: World, v: World, order: seq<Key>, rest: set<Key>, key: Key) returns (next: seq<Key>)
    requires FlushedPart(w, v, order, rest) && key in rest && key in w.series
    ensures FlushedPart(w, FlushedOne(v, key), next, rest - {key})
  {
    hide Lists, Writes, WriteOf;
    var before := DirtyKeys(w.series) - rest;
    if w.series[key].dirty {
      next := order + [key];
      ListsAppend(order, before, key);
      WritesAppend(w.series, order, key);
      assert DirtyKeys(w.series) - (rest - {key}) == before + {key};
    } else {
      next := order;
      assert DirtyKeys(w.series) - (rest - {key}) == before;
    }
  }

  lemma FlushedEnd(w: World, v: World, order: seq<Key>)
    requires FlushedPart(w, v, order, {})
    ensures Lists(order, DirtyKeys(w.series)) && v == Flushed(w, order)
  {
    hide Lists, Writes;
    assert DirtyKeys(w.series) - {} == DirtyKeys(w.series);
    assert v.series == map k | k in w.series :: Clean(w.series[k]);
  }

  /** The writer executes the oldest queued command. */
  function WriterStepped(w: World): World
    requires w.queue != []
  {
    World(w.series, Execute(w.disk, w.queue[0]), w.queue[1..])
  }

  function Synced(w: World): World {
    World(w.series, Drained(w.disk, w.queue), [])
  }

  // ---------------------------------------------------------------------------
  // What each call changes, and what it leaves
  // ---------------------------------------------------------------------------

  /** The other series and the files are as before. */
  predicate OthersKept(w: World, v: World, key: Key) {
    && v.series.Keys == w.series.Keys + {key} && v.disk == w.disk
    && forall k :: k in w.series && k != key ==> v.series[k] == w.series[k]
  }

  /** The capacity and period of a series do not change; a missing one gets these. */
  predicate ShapeKept(w: World, s: Series, key: Key, period: Period, capacity: nat) {
    if key in w.series then s.capacity == w.series[key].capacity && s.period == w.series[key].period
    else s.capacity == capacity && s.period == period
  }

  /** A series is queued for writing, as it is after the call, when the bars were more
      than its capacity. */
  predicate QueuedIfOver(w: World, v: World, key: Key, count: nat)
    requires key in v.series
  {
    v.queue == w.queue + if count > v.series[key].capacity then [Write(FilePath(key), v.series[key].bars)] else []
  }

  /** A trade counts as one version, makes the series dirty and records its second; an
      unknown series stays unknown. */
  lemma TradeChanges(fl: Float, w: World, key: Key, t: Trade)
    ensures var v := TradeApplied(fl, w, key, t);
      if key !in w.series then v == w
      else
        && OthersKept(w, v, key) && ShapeKept(w, v.series[key], key, 1, 0)
        && v.series[key].version == w.series[key].version + 1 && v.series[key].dirty
        && v.series[key].lastTradeTs == Secs(t)
        && QueuedIfOver(w, v, key, |TradedBars(fl, w.series[key].bars, w.series[key].period, t)|)
  {
    hide FilePath, Secs, TradedBars;
    assert w.queue + [] == w.queue;
  }

  /** A batch counts as one version and makes the series dirty; the last trade second
      stays; a missing series is created for it. */
  lemma BatchChanges(w: World, key: Key, batch: seq<Bar>, period: Period, capacity: nat)
    ensures var v := BatchApplied(w, key, batch, period, capacity);
      var bars := if key in w.series then w.series[key].bars else [];
      && OthersKept(w, v, key) && ShapeKept(w, v.series[key], key, period, capacity)
      && v.series[key].version == (if key in w.series then w.series[key].version + 1 else 1) && v.series[key].dirty
      && v.series[key].lastTradeTs == (if key in w.series then w.series[key].lastTradeTs else 0)
      && QueuedIfOver(w, v, key, |Merge(bars, batch)|)
  {
    hide FilePath, Merge;
    assert w.queue + [] == w.queue;
  }

  /** A seed replaces the bars and makes the series clean; version, last trade second and
      rotation mark stay, and nothing is queued. */
  lemma SeedChanges(w: World, key: Key, bars: seq<Bar>, period: Period, capacity: nat)
    ensures var v := SeedApplied(w, key, bars, period, capacity);
      && OthersKept(w, v, key) && ShapeKept(w, v.series[key], key, period, capacity) && v.queue == w.queue
      && v.series[key].bars == bars && !v.series[key].dirty
      && v.series[key].version == (if key in w.series then w.series[key].version else 0)
      && v.series[key].lastTradeTs == (if key in w.series then w.series[key].lastTradeTs else 0)
      && v.series[key].oldestRotatedTs == (if key in w.series then w.series[key].oldestRotatedTs else None)
  {
  }

  /** An existing series is not created again; a new one is empty and clean. */
  lemma CreateChanges(w: World, key: Key, period: Period, capacity: nat)
    ensures var v := Created(w, key, period, capacity);
      && OthersKept(w, v, key) && ShapeKept(w, v.series[key], key, period, capacity) && v.queue == w.queue
      && (key in w.series ==> v == w)
      && (key !in w.series ==>
            v.series[key].bars == [] && v.series[key].version == 0 && !v.series[key].dirty
            && v.series[key].lastTradeTs == 0 && v.series[key].oldestRotatedTs == None)
  {
  }

  lemma {:induction false} WritesEach(series: map<Key, Series>, order: seq<Key>)
    requires forall k :: k in order ==> k in series
    ensures |Writes(series, order)| == |order|
    ensures forall i :: 0 <= i < |order| ==> Writes(series, order)[i] == Write(FilePath(order[i]), series[order[i]].bars)
  {
    hide FilePath;
    if order != [] {
      WritesEach(series, order[..|order| - 1]);
    }
  }

  /** A flush queues the dirty series, each once with its bars, leaves nothing dirty and
      changes nothing else; a second flush queues nothing. */
  lemma FlushChanges(w: World, order: seq<Key>, again: seq<Key>)
    requires Lists(order, DirtyKeys(w.series))
    ensures var v := Flushed(w, order);
      && v.series.Keys == w.series.Keys && v.disk == w.disk
      && (forall k :: k in w.series ==>
            var s, t := w.series[k], v.series[k];
            && !t.dirty && t.bars == s.bars && t.version == s.version && t.capacity == s.capacity && t.period == s.period
            && t.lastTradeTs == s.lastTradeTs && t.oldestRotatedTs == s.oldestRotatedTs)
      && |v.queue| == |w.queue| + |order| && v.queue[..|w.queue|] == w.queue
      && (forall i :: 0 <= i < |order| ==>
            order[i] in w.series && v.queue[|w.queue| + i] == Write(FilePath(order[i]), w.series[order[i]].bars))
      && (Lists(again, DirtyKeys(v.series)) ==> Flushed(v, again).queue == v.queue)
  {
    hide FilePath, Writes;
    WritesEach(w.series, order);
    if Lists(again, DirtyKeys(Flushed(w, order).series)) {
      NoneListed(again, DirtyKeys(Flushed(w, order).series));
      NoWrites(Flushed(w, order).series);
    }
  }

  lemma NoneListed(order: seq<Key>, keys: set<Key>)
    requires Lists(order, keys)
    ensures keys == {} ==> order == []
  {
    if order != [] {
      assert order[0] in keys;
    }
  }

  lemma NoWrites(series: map<Key, Series>)
    ensures Writes(series, []) == []
  {
  }
}
