/** What survives a run of the bar pipeline: strict timestamp order in memory and on
    disk, and, at shutdown, every bar that was loaded or changed. */
module Durability {
  import opened Picking
  import opened LittleEndian
  import opened Bars
  import opened BarFormat
  import opened BarMerge
  import opened BarSeries
  import opened BarStore
  import opened BarPipeline

  datatype Op =
    | Create(key: Key, period: Period)
    | Load(key: Key, period: Period)
    | TradeOp(key: Key, trade: Trade)
    | MergeOp(key: Key, batch: seq<Bar>, period: Period)
    | FlushOp(order: seq<Key>)
    | WriterOp

  /** The configuration of a run: float operations and the capacity of new series. */
  datatype Config = Config(fl: Float, capacity: nat)

  /** One step. A writer with nothing to do waits. */
  ghost function Apply(c: Config, w: World, op: Op): World {
    match op
    case Create(key, period) => Created(w, key, period, c.capacity)
    case Load(key, period) =>
      (match LoadFile(w.disk, key)
       case Some(bars) => SeedApplied(w, key, bars, period, c.capacity)
       case None => w)
    case TradeOp(key, trade) => TradeApplied(c.fl, w, key, trade)
    case MergeOp(key, batch, period) => BatchApplied(w, key, batch, period, c.capacity)
    case FlushOp(order) => Flushed(w, order)
    case WriterOp => if w.queue == [] then w else WriterStepped(w)
  }

  // ---------------------------------------------------------------------------
  // Strict order everywhere
  // ---------------------------------------------------------------------------

  ghost predicate OrderedFile(data: seq<Byte>) {
    Decode(data).Loaded? ==> Ascending(Decode(data).bars)
  }

  ghost predicate OrderedDisk(disk: Disk) {
    forall p :: p in disk ==> OrderedFile(disk[p])
  }

  ghost predicate OrderedQueue(queue: seq<BarWriteCmd>) {
    forall i :: 0 <= i < |queue| && queue[i].Write? ==> Ascending(queue[i].bars)
  }

  ghost predicate OrderedSeries(series: map<Key, Series>) {
    forall k :: k in series ==> Ascending(series[k].bars)
  }

  ghost predicate OrderedWorld(w: World) {
    OrderedDisk(w.disk) && OrderedQueue(w.queue) && OrderedSeries(w.series)
  }

  ghost function Run(c: Config, w: World, ops: seq<Op>): World {
    if ops == [] then w else Apply(c, Run(c, w, ops[..|ops| - 1]), ops[|ops| - 1])
  }

  lemma OrderedStore(w: World, key: Key, s: Series)
    requires OrderedWorld(w) && Ascending(s.bars)
    ensures OrderedWorld(Store(w, key, s))
  {
    hide OrderedDisk, FilePath;
    assert Ascending(Rotated(s).bars);
  }

  lemma {:induction false} OrderedWrites(series: map<Key, Series>, order: seq<Key>)
    requires OrderedSeries(series)
    ensures OrderedQueue(Writes(series, order))
  {
    if order != [] {
      OrderedWrites(series, order[..|order| - 1]);
    }
  }

  lemma OrderedRest(queue: seq<BarWriteCmd>)
    requires OrderedQueue(queue) && queue != []
    ensures OrderedQueue(queue[1..])
  {
    assert forall i :: 0 <= i < |queue| - 1 ==> queue[1..][i] == queue[i + 1];
  }

  lemma OrderedWritten(disk: Disk, path: Path, bars: seq<Bar>)
    requires OrderedDisk(disk) && Ascending(bars)
    ensures OrderedDisk(Written(disk, path, bars))
  {
    hide OrderedFile, Encode, Ascending;
    WrittenFileOrdered(bars);
  }

  lemma OrderedWriterStep(w: World)
    requires OrderedWorld(w) && w.queue != []
    ensures OrderedWorld(WriterStepped(w))
  {
    hide OrderedDisk, Written, Ascending;
    OrderedRest(w.queue);
    match w.queue[0]
    case Write(path, bars) => OrderedWritten(w.disk, path, bars);
    case Flush =>
  }

  lemma WrittenFileOrdered(bars: seq<Bar>)
    requires Ascending(bars)
    ensures OrderedFile(Encode(bars))
  {
    hide Decode, Encode;
    DecodeEncodeAscending(bars);
  }

  lemma OrderedApply(c: Config, w: World, op: Op)
    requires OrderedWorld(w)
    ensures OrderedWorld(Apply(c, w, op))
  {
    hide OrderedFile, Traded, Merged, Rotated, Store;
    match op
    case Create(_, _) =>
    case Load(key, _) =>
      LoadedOrdered(w.disk, key);
    case TradeOp(key, t) =>
      if key in w.series {
        TradedOrdered(c.fl, w.series[key], t);
        OrderedStore(w, key, Traded(c.fl, w.series[key], t));
      }
    case MergeOp(key, batch, period) =>
      var v := Created(w, key, period, c.capacity);
      MergedOrdered(v.series[key], batch);
      OrderedStore(v, key, Merged(v.series[key], batch));
    case FlushOp(order) =>
      OrderedWrites(w.series, order);
    case WriterOp =>
      if w.queue != [] {
        OrderedWriterStep(w);
      }
  }

  lemma LoadedOrdered(disk: Disk, key: Key)
    requires OrderedDisk(disk)
    ensures LoadFile(disk, key).Some? ==> Ascending(LoadFile(disk, key).value)
  {
    hide Decode, FilePath;
  }

  lemma TradedOrdered(fl: Float, s: Series, t: Trade)
    requires Ascending(s.bars)
    ensures Ascending(Traded(fl, s, t).bars)
  {
  }

  lemma MergedOrdered(s: Series, batch: seq<Bar>)
    ensures Ascending(Merged(s, batch).bars)
  {
    MergeIsOverride(s.bars, batch);
  }

  /** From a disk of ordered files, every series, queued write and file stays
      strictly ordered, whatever the calls, late trades and batches. */
  lemma {:induction false} OrderIsInvariant(c: Config, w: World, ops: seq<Op>)
    requires OrderedWorld(w)
    ensures OrderedWorld(Run(c, w, ops))
  {
    hide OrderedWorld, Apply;
    if ops != [] {
      OrderIsInvariant(c, w, ops[..|ops| - 1]);
      OrderedApply(c, Run(c, w, ops[..|ops| - 1]), ops[|ops| - 1]);
    }
  }

  // ---------------------------------------------------------------------------
  // Durability
  // ---------------------------------------------------------------------------

  /** No two keys of the service share a file. */
  ghost predicate OwnPaths(keys: set<Key>) {
    forall a, b :: a in keys && b in keys && FilePath(a) == FilePath(b) ==> a == b
  }

  /** The bars of the latest write queued for a path. */
  function LastQueued(queue: seq<BarWriteCmd>, path: Path): Option<seq<Bar>> {
    if queue == [] then None
    else
      var cmd := queue[|queue| - 1];
      if cmd.Write? && cmd.path == path then Some(cmd.bars) else LastQueued(queue[..|queue| - 1], path)
  }

  /** What a file of these bars loads as. */
  function ReadBack(bars: seq<Bar>): Option<seq<Bar>> {
    match Decode(Encode(bars))
    case Loaded(read) => Some(read)
    case Failed(_) => None
  }

  /** No write to the key's file is queued, or the latest one would change nothing
      that can be read. */
  predicate FileCurrent(w: World, key: Key) {
    var last := LastQueued(w.queue, FilePath(key));
    last.None? || ReadBack(last.value) == LoadFile(w.disk, key)
  }

  ghost predicate Fits(series: map<Key, Series>) {
    forall k :: k in series ==> |series[k].bars| < COUNT_LIMIT
  }

  /** What an operation of the durability run asks of its caller: keys stay within
      `keys`; a file that loads is current, as every file is at startup; a flush visits
      the dirty series; the lists flushed have a 32-bit length. */
  ghost predicate Enabled(w: World, keys: set<Key>, op: Op) {
    match op
    case Create(key, _) => key in keys
    case Load(key, _) => key in keys && (LoadFile(w.disk, key).Some? ==> FileCurrent(w, key))
    case TradeOp(key, _) => key in keys
    case MergeOp(key, _, _) => key in keys
    case FlushOp(order) => Lists(order, DirtyKeys(w.series)) && Fits(w.series)
    case WriterOp => true
  }

  /** The keys whose series were seeded from a file or changed. */
  ghost function Touched(w: World, touched: set<Key>, op: Op): set<Key> {
    match op
    case Load(key, _) => if LoadFile(w.disk, key).Some? then touched + {key} else touched
    case TradeOp(key, _) => if key in w.series then touched + {key} else touched
    case MergeOp(key, _, _) => touched + {key}
    case _ => touched
  }

  /** The file of `key` holds exactly the acceptable bars of `s`. */
  ghost predicate Holds(disk: Disk, key: Key, s: Series) {
    LoadFile(disk, key) == Some(Accepted(s.bars))
  }

  /** A touched series that is clean is already safe: the disk, once the queued
      writes have run, holds it. */
  ghost predicate Safe(w: World, touched: set<Key>) {
    && touched <= w.series.Keys
    && forall k :: k in touched && !w.series[k].dirty ==> Holds(Drained(w.disk, w.queue), k, w.series[k])
  }

  ghost predicate Sound(w: World, touched: set<Key>, keys: set<Key>) {
    Safe(w, touched) && w.series.Keys <= keys && BinQueue(w.queue)
  }

  // ---- what queued writes do to a file

  lemma WrittenFile(disk: Disk, path: Path, bars: seq<Bar>, key: Key)
    requires path.ext == "bin"
    ensures path == FilePath(key) ==> LoadFile(Written(disk, path, bars), key) == ReadBack(bars)
    ensures path != FilePath(key) ==> LoadFile(Written(disk, path, bars), key) == LoadFile(disk, key)
  {
    hide Decode, Encode, Lower, Stem;
    assert TmpPath(path).ext == "tmp" && FilePath(key).ext == "bin";
  }

  lemma ReadBackAccepted(bars: seq<Bar>)
    requires |bars| < COUNT_LIMIT
    ensures ReadBack(bars) == Some(Accepted(bars))
  {
    hide Decode, Encode, Accepted;
    DecodeEncode(bars);
  }

  /** Once the queue is drained, a file loads as the latest list queued for it. */
  lemma {:induction false} DrainedFile(disk: Disk, queue: seq<BarWriteCmd>, key: Key)
    requires BinQueue(queue)
    ensures var last := LastQueued(queue, FilePath(key));
      LoadFile(Drained(disk, queue), key) == if last.Some? then ReadBack(last.value) else LoadFile(disk, key)
    decreases |queue|
  {
    hide LoadFile, FilePath, Written, ReadBack;
    if queue != [] {
      var init, cmd := queue[..|queue| - 1], queue[|queue| - 1];
      assert queue == init + [cmd];
      DrainedFile(disk, init, key);
      DrainedAppend(disk, init, [cmd]);
      DrainedSingle(Drained(disk, init), cmd);
      if cmd.Write? {
        WrittenFile(Drained(disk, init), cmd.path, cmd.bars, key);
      }
    }
  }

  /** One more queued write, as the key that owns the file and the others see it. */
  lemma DrainedOneMore(disk: Disk, queue: seq<BarWriteCmd>, path: Path, bars: seq<Bar>, key: Key)
    requires path.ext == "bin"
    ensures var disk' := Drained(disk, queue + [Write(path, bars)]);
      && (path == FilePath(key) && |bars| < COUNT_LIMIT ==> LoadFile(disk', key) == Some(Accepted(bars)))
      && (path != FilePath(key) ==> LoadFile(disk', key) == LoadFile(Drained(disk, queue), key))
  {
    hide LoadFile, FilePath, Written, ReadBack, Accepted;
    var cmd := Write(path, bars);
    DrainedAppend(disk, queue, [cmd]);
    DrainedSingle(Drained(disk, queue), cmd);
    WrittenFile(Drained(disk, queue), path, bars, key);
    if |bars| < COUNT_LIMIT {
      ReadBackAccepted(bars);
    }
  }

  lemma DrainedSingle(disk: Disk, cmd: BarWriteCmd)
    ensures Drained(disk, [cmd]) == Execute(disk, cmd)
  {
    hide Execute;
    assert [cmd][1..] == [];
  }

  // ---- each operation keeps the invariant

  lemma SafeStore(w: World, touched: set<Key>, keys: set<Key>, key: Key, s: Series)
    requires Sound(w, touched, keys) && OwnPaths(keys) && key in w.series && s.dirty
    ensures Sound(Store(w, key, s), touched + {key}, keys)
  {
    hide LoadFile, Lower, Stem;
    var v := Store(w, key, s);
    forall k | k in touched + {key} && !v.series[k].dirty
      ensures Holds(Drained(v.disk, v.queue), k, v.series[k])
    {
      assert k != key && v.series[k] == w.series[k];
      if Overfull(s) {
        DrainedOneMore(w.disk, w.queue, FilePath(key), Rotated(s).bars, k);
      }
    }
  }

  lemma SafeCreated(w: World, touched: set<Key>, keys: set<Key>, key: Key, period: Period, capacity: nat)
    requires Sound(w, touched, keys) && key in keys
    ensures Sound(Created(w, key, period, capacity), touched, keys)
    ensures key in Created(w, key, period, capacity).series
  {
    hide Holds, Drained;
  }

  /** Seeding from a file keeps the invariant exactly when the file is current. */
  lemma SafeSeed(w: World, touched: set<Key>, keys: set<Key>, key: Key, period: Period, capacity: nat)
    requires Sound(w, touched, keys) && key in keys && LoadFile(w.disk, key).Some?
    ensures Sound(SeedApplied(w, key, LoadFile(w.disk, key).value, period, capacity), touched + {key}, keys)
            <==> FileCurrent(w, key)
  {
    hide LoadFile, FilePath, Drained, ReadBack, LastQueued;
    SafeCreated(w, touched, keys, key, period, capacity);
    DrainedFile(w.disk, w.queue, key);
    LoadFileAccepted(w.disk, key);
    var v := SeedApplied(w, key, LoadFile(w.disk, key).value, period, capacity);
    assert v.disk == w.disk && v.queue == w.queue;
    assert Holds(Drained(v.disk, v.queue), key, v.series[key]) <==> FileCurrent(w, key);
    if Sound(v, touched + {key}, keys) {
      assert key in touched + {key} && !v.series[key].dirty;
    }
  }

  lemma LoadFileAccepted(disk: Disk, key: Key)
    requires LoadFile(disk, key).Some?
    ensures Accepted(LoadFile(disk, key).value) == LoadFile(disk, key).value
  {
    hide Accepted, Decode, FilePath;
    DecodeAccepted(disk[FilePath(key)]);
  }

  lemma DecodeAccepted(data: seq<Byte>)
    requires Decode(data).Loaded?
    ensures Accepted(Decode(data).bars) == Decode(data).bars
  {
    hide Accepted, BarsOf;
    AcceptedIdempotent(BarsOf(data[HEADER_SIZE..], UnLe(data[2..6])));
  }

  lemma {:induction false} DrainedWrites(disk: Disk, queue: seq<BarWriteCmd>, series: map<Key, Series>, order: seq<Key>, key: Key)
    requires OwnPaths(series.Keys) && Fits(series) && key in series && forall k :: k in order ==> k in series
    ensures var disk' := Drained(disk, queue + Writes(series, order));
      && (key in order ==> Holds(disk', key, series[key]))
      && (key !in order ==> LoadFile(disk', key) == LoadFile(Drained(disk, queue), key))
  {
    hide LoadFile, Lower, Stem, Accepted;
    if order == [] {
      assert queue + Writes(series, order) == queue;
    } else {
      var init, last := order[..|order| - 1], order[|order| - 1];
      assert order == init + [last];
      DrainedWrites(disk, queue, series, init, key);
      assert queue + Writes(series, order) == queue + Writes(series, init) + [WriteOf(last, series[last])];
      DrainedOneMore(disk, queue + Writes(series, init), FilePath(last), series[last].bars, key);
    }
  }

  lemma {:induction false} BinWrites(series: map<Key, Series>, order: seq<Key>)
    ensures BinQueue(Writes(series, order))
  {
    hide Lower, Stem;
    if order != [] {
      BinWrites(series, order[..|order| - 1]);
    }
  }

  lemma SafeFlush(w: World, touched: set<Key>, keys: set<Key>, order: seq<Key>)
    requires Sound(w, touched, keys) && OwnPaths(keys)
    requires Lists(order, DirtyKeys(w.series)) && Fits(w.series)
    ensures Sound(Flushed(w, order), touched, keys)
    ensures forall k :: k in touched ==> Holds(Drained(w.disk, Flushed(w, order).queue), k, w.series[k])
  {
    hide LoadFile, Lower, Stem, Accepted, Drained, Writes, Fits;
    var v := Flushed(w, order);
    BinWrites(w.series, order);
    forall k | k in touched
      ensures Holds(Drained(w.disk, v.queue), k, w.series[k])
    {
      DrainedWrites(w.disk, w.queue, w.series, order, k);
      assert k in order <==> w.series[k].dirty;
    }
  }

  lemma SafeWriter(w: World, touched: set<Key>, keys: set<Key>)
    requires Sound(w, touched, keys) && w.queue != []
    ensures Sound(WriterStepped(w), touched, keys)
  {
    hide LoadFile, Lower, Stem, Accepted, Execute;
    var rest := w.queue[1..];
    assert forall i :: 0 <= i < |rest| ==> rest[i] == w.queue[i + 1];
    assert Drained(w.disk, w.queue) == Drained(Execute(w.disk, w.queue[0]), rest);
  }

  lemma SafeApply(c: Config, w: World, touched: set<Key>, keys: set<Key>, op: Op)
    requires Sound(w, touched, keys) && OwnPaths(keys) && Enabled(w, keys, op)
    ensures Sound(Apply(c, w, op), Touched(w, touched, op), keys)
  {
    hide LoadFile, FilePath, Sound, Traded, Merged, Store, SeedApplied, Created;
    match op
    case Create(key, period) =>
      SafeCreated(w, touched, keys, key, period, c.capacity);
    case Load(key, period) =>
      if LoadFile(w.disk, key).Some? {
        SafeSeed(w, touched, keys, key, period, c.capacity);
      }
    case TradeOp(key, t) =>
      if key in w.series {
        TradedDirty(c.fl, w.series[key], t);
        SafeStore(w, touched, keys, key, Traded(c.fl, w.series[key], t));
      }
    case MergeOp(key, batch, period) =>
      var v := Created(w, key, period, c.capacity);
      SafeCreated(w, touched, keys, key, period, c.capacity);
      MergedDirty(v.series[key], batch);
      SafeStore(v, touched, keys, key, Merged(v.series[key], batch));
    case FlushOp(order) =>
      SafeFlush(w, touched, keys, order);
    case WriterOp =>
      if w.queue != [] {
        SafeWriter(w, touched, keys);
      }
  }

  lemma TradedDirty(fl: Float, s: Series, t: Trade)
    ensures Traded(fl, s, t).dirty
  {
  }

  lemma MergedDirty(s: Series, batch: seq<Bar>)
    ensures Merged(s, batch).dirty
  {
  }

  // ---- whole runs

  ghost predicate AllEnabled(c: Config, w: World, keys: set<Key>, ops: seq<Op>) {
    ops != [] ==>
      && AllEnabled(c, w, keys, ops[..|ops| - 1])
      && Enabled(Run(c, w, ops[..|ops| - 1]), keys, ops[|ops| - 1])
  }

  ghost function TouchedBy(c: Config, w: World, ops: seq<Op>): set<Key> {
    if ops == [] then {}
    else Touched(Run(c, w, ops[..|ops| - 1]), TouchedBy(c, w, ops[..|ops| - 1]), ops[|ops| - 1])
  }

  /** Clean implies safe, throughout every run from an empty service. */
  lemma {:induction false} CleanImpliesSafe(c: Config, disk: Disk, keys: set<Key>, ops: seq<Op>)
    requires OwnPaths(keys) && AllEnabled(c, World(map[], disk, []), keys, ops)
    ensures var w := World(map[], disk, []);
      Sound(Run(c, w, ops), TouchedBy(c, w, ops), keys)
  {
    hide Apply, Touched, Enabled;
    if ops != [] {
      hide Sound;
      var w := World(map[], disk, []);
      var init := ops[..|ops| - 1];
      CleanImpliesSafe(c, disk, keys, init);
      SafeApply(c, Run(c, w, init), TouchedBy(c, w, init), keys, ops[|ops| - 1]);
    }
  }

  /** Keys not touched: at most an empty clean series, and their file as it was. */
  ghost predicate Untouched(w: World, touched: set<Key>, keys: set<Key>, disk: Disk) {
    forall k :: k in keys && k !in touched ==>
      && LoadFile(Drained(w.disk, w.queue), k) == LoadFile(disk, k)
      && (k in w.series ==> w.series[k].bars == [] && !w.series[k].dirty)
  }

  lemma UntouchedStore(w: World, touched: set<Key>, keys: set<Key>, disk: Disk, key: Key, s: Series)
    requires Untouched(w, touched, keys, disk) && OwnPaths(keys) && key in keys
    ensures Untouched(Store(w, key, s), touched + {key}, keys, disk)
  {
    hide LoadFile, Lower, Stem, Rotated;
    var v := Store(w, key, s);
    forall k | k in keys && k !in touched + {key}
      ensures LoadFile(Drained(v.disk, v.queue), k) == LoadFile(disk, k)
    {
      if Overfull(s) {
        DrainedOneMore(w.disk, w.queue, FilePath(key), Rotated(s).bars, k);
      }
    }
  }

  lemma UntouchedFlush(w: World, touched: set<Key>, keys: set<Key>, disk: Disk, order: seq<Key>)
    requires Untouched(w, touched, keys, disk) && OwnPaths(keys) && w.series.Keys <= keys
    requires Lists(order, DirtyKeys(w.series)) && Fits(w.series)
    ensures Untouched(Flushed(w, order), touched, keys, disk)
  {
    hide LoadFile, Lower, Stem, Accepted, Drained, Writes, Fits;
    var v := Flushed(w, order);
    forall k | k in keys && k !in touched
      ensures LoadFile(Drained(v.disk, v.queue), k) == LoadFile(disk, k)
    {
      assert k !in order;
      DrainedOthers(w.disk, w.queue, w.series, order, k, keys);
    }
  }

  lemma {:induction false} DrainedOthers(disk: Disk, queue: seq<BarWriteCmd>, series: map<Key, Series>, order: seq<Key>, key: Key, keys: set<Key>)
    requires OwnPaths(keys) && series.Keys <= keys && key in keys && key !in order
    ensures LoadFile(Drained(disk, queue + Writes(series, order)), key) == LoadFile(Drained(disk, queue), key)
  {
    hide LoadFile, Lower, Stem;
    if order == [] {
      assert queue + Writes(series, order) == queue;
    } else {
      var init, last := order[..|order| - 1], order[|order| - 1];
      assert order == init + [last];
      DrainedOthers(disk, queue, series, init, key, keys);
      if last in series {
        assert queue + Writes(series, order) == queue + Writes(series, init) + [WriteOf(last, series[last])];
        DrainedOneMore(disk, queue + Writes(series, init), FilePath(last), series[last].bars, key);
      } else {
        assert Writes(series, order) == Writes(series, init);
      }
    }
  }

  lemma UntouchedApply(c: Config, w: World, touched: set<Key>, keys: set<Key>, disk: Disk, op: Op)
    requires Untouched(w, touched, keys, disk) && Sound(w, touched, keys)
    requires OwnPaths(keys) && Enabled(w, keys, op)
    ensures Untouched(Apply(c, w, op), Touched(w, touched, op), keys, disk)
  {
    hide LoadFile, FilePath, Traded, Merged, Store, Drained, Holds, OwnPaths, BinQueue;
    match op
    case Create(key, period) =>
    case Load(key, period) =>
    case TradeOp(key, t) =>
      if key in w.series {
        UntouchedStore(w, touched, keys, disk, key, Traded(c.fl, w.series[key], t));
      }
    case MergeOp(key, batch, period) =>
      var v := Created(w, key, period, c.capacity);
      UntouchedStore(v, touched, keys, disk, key, Merged(v.series[key], batch));
    case FlushOp(order) =>
      UntouchedFlush(w, touched, keys, disk, order);
    case WriterOp =>
      if w.queue != [] {
        DrainedStep(w);
      }
  }

  lemma DrainedStep(w: World)
    requires w.queue != []
    ensures Drained(WriterStepped(w).disk, WriterStepped(w).queue) == Drained(w.disk, w.queue)
  {
    hide Execute;
  }

  lemma {:induction false} UntouchedRun(c: Config, disk: Disk, keys: set<Key>, ops: seq<Op>)
    requires OwnPaths(keys) && AllEnabled(c, World(map[], disk, []), keys, ops)
    ensures var w := World(map[], disk, []);
      Untouched(Run(c, w, ops), TouchedBy(c, w, ops), keys, disk)
  {
    hide Apply, Touched, Enabled, Sound, LoadFile;
    if ops != [] {
      hide Untouched;
      var w := World(map[], disk, []);
      var init := ops[..|ops| - 1];
      UntouchedRun(c, disk, keys, init);
      CleanImpliesSafe(c, disk, keys, init);
      UntouchedApply(c, Run(c, w, init), TouchedBy(c, w, init), keys, disk, ops[|ops| - 1]);
    }
  }

  /** Shutdown: flush the dirty series, then wait for the writer. The file of every
      series seeded from disk or changed then loads exactly its acceptable bars.
      A series that was only created is empty and leaves its file alone, so it is
      held only if the file already loaded as empty. */
  lemma ShutdownIsDurable(c: Config, disk: Disk, keys: set<Key>, ops: seq<Op>, order: seq<Key>)
    requires OwnPaths(keys) && AllEnabled(c, World(map[], disk, []), keys, ops)
    requires var end := Run(c, World(map[], disk, []), ops);
      Lists(order, DirtyKeys(end.series)) && Fits(end.series)
    ensures var w := World(map[], disk, []);
      var end := Run(c, w, ops);
      && TouchedBy(c, w, ops) <= end.series.Keys <= keys
      && forall k :: k in end.series ==>
           (Holds(Synced(Flushed(end, order)).disk, k, end.series[k])
            <==> k in TouchedBy(c, w, ops) || LoadFile(disk, k) == Some([]))
  {
    hide Apply, Touched, Enabled, Drained, Writes, Run, TouchedBy, AllEnabled, LoadFile, OwnPaths, Fits, BinQueue;
    var w := World(map[], disk, []);
    var end, touched := Run(c, w, ops), TouchedBy(c, w, ops);
    CleanImpliesSafe(c, disk, keys, ops);
    UntouchedRun(c, disk, keys, ops);
    SafeFlush(end, touched, keys, order);
    UntouchedFlush(end, touched, keys, disk, order);
    assert Accepted([]) == [];
  }

  /** Two keys that share a file cannot both be held unless their acceptable bars are
      the same: why the keys of a service must own their paths. */
  lemma SharedFileHoldsOne(disk: Disk, a: Key, b: Key, s: Series, t: Series)
    requires FilePath(a) == FilePath(b) && Holds(disk, a, s)
    ensures Holds(disk, b, t) <==> Accepted(t.bars) == Accepted(s.bars)
  {
    hide Decode, Stem, Lower, Accepted;
  }

  // ---- crash

  /** What can be read of a key's file is what the file held at the start, or what its
      series held after some first part of the run. */
  ghost predicate FromRun(c: Config, w: World, ops: seq<Op>, key: Key, read: Option<seq<Bar>>) {
    || read == LoadFile(w.disk, key)
    || exists m :: 0 <= m <= |ops| && HeldAfter(c, w, ops, m, key, read)
  }

  ghost predicate HeldAfter(c: Config, w: World, ops: seq<Op>, m: nat, key: Key, read: Option<seq<Bar>>)
    requires m <= |ops|
  {
    var v := Run(c, w, ops[..m]);
    key in v.series && read == ReadBack(v.series[key].bars)
  }

  lemma FromRunMore(c: Config, w: World, ops: seq<Op>, op: Op, key: Key, read: Option<seq<Bar>>)
    requires FromRun(c, w, ops, key, read)
    ensures FromRun(c, w, ops + [op], key, read)
  {
    hide LoadFile, ReadBack, Run;
    if m :| 0 <= m <= |ops| && HeldAfter(c, w, ops, m, key, read) {
      assert (ops + [op])[..m] == ops[..m];
      assert HeldAfter(c, w, ops + [op], m, key, read);
    }
  }

  /** The bars a series holds now. */
  lemma FromNow(c: Config, w: World, ops: seq<Op>, key: Key)
    requires key in Run(c, w, ops).series
    ensures FromRun(c, w, ops, key, ReadBack(Run(c, w, ops).series[key].bars))
  {
    hide LoadFile, ReadBack, Run;
    assert ops[..|ops|] == ops;
    assert HeldAfter(c, w, ops, |ops|, key, ReadBack(Run(c, w, ops).series[key].bars));
  }

  ghost predicate QueueFrom(c: Config, w: World, ops: seq<Op>, keys: set<Key>, queue: seq<BarWriteCmd>) {
    forall i, k :: 0 <= i < |queue| && queue[i].Write? && k in keys && queue[i].path == FilePath(k) ==>
      FromRun(c, w, ops, k, ReadBack(queue[i].bars))
  }

  ghost predicate DiskFrom(c: Config, w: World, ops: seq<Op>, keys: set<Key>, disk: Disk) {
    forall k :: k in keys ==> FromRun(c, w, ops, k, LoadFile(disk, k))
  }

  lemma QueueFromMore(c: Config, w: World, ops: seq<Op>, op: Op, keys: set<Key>, queue: seq<BarWriteCmd>)
    requires QueueFrom(c, w, ops, keys, queue)
    ensures QueueFrom(c, w, ops + [op], keys, queue)
  {
    hide FromRun, ReadBack, FilePath;
    forall i, k | 0 <= i < |queue| && queue[i].Write? && k in keys && queue[i].path == FilePath(k)
      ensures FromRun(c, w, ops + [op], k, ReadBack(queue[i].bars))
    {
      FromRunMore(c, w, ops, op, k, ReadBack(queue[i].bars));
    }
  }

  lemma DiskFromMore(c: Config, w: World, ops: seq<Op>, op: Op, keys: set<Key>, disk: Disk)
    requires DiskFrom(c, w, ops, keys, disk)
    ensures DiskFrom(c, w, ops + [op], keys, disk)
  {
    hide FromRun, LoadFile;
    forall k | k in keys
      ensures FromRun(c, w, ops + [op], k, LoadFile(disk, k))
    {
      FromRunMore(c, w, ops, op, k, LoadFile(disk, k));
    }
  }

  lemma QueueFromAppend(c: Config, w: World, ops: seq<Op>, keys: set<Key>, a: seq<BarWriteCmd>, b: seq<BarWriteCmd>)
    requires QueueFrom(c, w, ops, keys, a) && QueueFrom(c, w, ops, keys, b)
    ensures QueueFrom(c, w, ops, keys, a + b)
  {
    hide FromRun, ReadBack, FilePath;
  }

  /** A write of the bars a series holds. */
  lemma OneWriteFrom(c: Config, w: World, ops: seq<Op>, keys: set<Key>, key: Key, s: Series)
    requires OwnPaths(keys) && key in keys && FromRun(c, w, ops, key, ReadBack(s.bars))
    ensures QueueFrom(c, w, ops, keys, [WriteOf(key, s)])
  {
    hide FromRun, ReadBack, FilePath;
  }

  lemma {:induction false} WritesFrom(c: Config, w: World, ops: seq<Op>, keys: set<Key>, series: map<Key, Series>, order: seq<Key>)
    requires OwnPaths(keys) && series.Keys <= keys
    requires forall k :: k in series ==> FromRun(c, w, ops, k, ReadBack(series[k].bars))
    ensures QueueFrom(c, w, ops, keys, Writes(series, order))
  {
    if order != [] {
      hide FromRun, ReadBack, QueueFrom, WriteOf, OwnPaths;
      var init, key := order[..|order| - 1], order[|order| - 1];
      WritesFrom(c, w, ops, keys, series, init);
      if key in series {
        OneWriteFrom(c, w, ops, keys, key, series[key]);
        QueueFromAppend(c, w, ops, keys, Writes(series, init), [WriteOf(key, series[key])]);
      } else {
        assert Writes(series, init) + [] == Writes(series, init);
      }
    }
  }

  /** What one call adds to the queue comes from the run. */
  lemma QueueFromStep(c: Config, w: World, ops: seq<Op>, op: Op, keys: set<Key>)
    requires OwnPaths(keys) && Run(c, w, ops).series.Keys <= keys && Apply(c, Run(c, w, ops), op).series.Keys <= keys
    requires QueueFrom(c, w, ops, keys, Run(c, w, ops).queue)
    ensures QueueFrom(c, w, ops + [op], keys, Apply(c, Run(c, w, ops), op).queue)
  {
    hide FromRun, ReadBack, QueueFrom, OwnPaths, Traded, Merged, Rotated, LoadFile, Run, Overfull;
    var v := Run(c, w, ops);
    RunMore(c, w, ops, op);
    QueueFromMore(c, w, ops, op, keys, v.queue);
    match op
    case Create(_, _) =>
    case Load(_, _) =>
    case TradeOp(key, t) =>
      if key in v.series {
        StoredWrite(c, w, ops + [op], keys, v.queue, key, Traded(c.fl, v.series[key], t));
      }
    case MergeOp(key, batch, period) =>
      var u := Created(v, key, period, c.capacity);
      StoredWrite(c, w, ops + [op], keys, v.queue, key, Merged(u.series[key], batch));
    case FlushOp(order) =>
      forall k | k in v.series
        ensures FromRun(c, w, ops + [op], k, ReadBack(v.series[k].bars))
      {
        FromNow(c, w, ops, k);
        FromRunMore(c, w, ops, op, k, ReadBack(v.series[k].bars));
      }
      WritesFrom(c, w, ops + [op], keys, v.series, order);
      QueueFromAppend(c, w, ops + [op], keys, v.queue, Writes(v.series, order));
    case WriterOp =>
      if v.queue != [] {
        QueueFromRest(c, w, ops + [op], keys, v.queue);
      }
  }

  lemma RunMore(c: Config, w: World, ops: seq<Op>, op: Op)
    ensures Run(c, w, ops + [op]) == Apply(c, Run(c, w, ops), op)
  {
    hide Apply;
    assert (ops + [op])[..|ops|] == ops;
  }

  lemma QueueFromRest(c: Config, w: World, ops: seq<Op>, keys: set<Key>, queue: seq<BarWriteCmd>)
    requires queue != [] && QueueFrom(c, w, ops, keys, queue)
    ensures QueueFrom(c, w, ops, keys, queue[1..])
  {
    hide FromRun, ReadBack, FilePath;
    assert forall i :: 0 <= i < |queue| - 1 ==> queue[1..][i] == queue[i + 1];
  }

  lemma StoredWrite(c: Config, w: World, ops: seq<Op>, keys: set<Key>, queue: seq<BarWriteCmd>, key: Key, s: Series)
    requires OwnPaths(keys) && key in keys && QueueFrom(c, w, ops, keys, queue)
    requires key in Run(c, w, ops).series && Run(c, w, ops).series[key] == Rotated(s)
    ensures QueueFrom(c, w, ops, keys, if Overfull(s) then queue + [WriteOf(key, Rotated(s))] else queue)
  {
    hide FromRun, ReadBack, QueueFrom, OwnPaths, Rotated, Run, WriteOf, Overfull;
    FromNow(c, w, ops, key);
    OneWriteFrom(c, w, ops, keys, key, Rotated(s));
    QueueFromAppend(c, w, ops, keys, queue, [WriteOf(key, Rotated(s))]);
  }

  /** Executing commands from the run keeps the files from the run. */
  lemma {:induction false} DrainedFrom(c: Config, w: World, ops: seq<Op>, keys: set<Key>, disk: Disk, queue: seq<BarWriteCmd>)
    requires BinQueue(queue) && DiskFrom(c, w, ops, keys, disk) && QueueFrom(c, w, ops, keys, queue)
    ensures DiskFrom(c, w, ops, keys, Drained(disk, queue))
    decreases |queue|
  {
    if queue != [] {
      hide FromRun, DiskFrom, QueueFrom;
      QueueFromRest(c, w, ops, keys, queue);
      ExecutedFrom(c, w, ops, keys, disk, queue);
      DrainedFrom(c, w, ops, keys, Execute(disk, queue[0]), queue[1..]);
    }
  }

  lemma ExecutedFrom(c: Config, w: World, ops: seq<Op>, keys: set<Key>, disk: Disk, queue: seq<BarWriteCmd>)
    requires queue != [] && BinQueue(queue) && DiskFrom(c, w, ops, keys, disk) && QueueFrom(c, w, ops, keys, queue)
    ensures DiskFrom(c, w, ops, keys, Execute(disk, queue[0]))
  {
    hide FromRun, ReadBack, LoadFile, FilePath, Written;
    match queue[0]
    case Write(path, bars) =>
      forall k | k in keys
        ensures FromRun(c, w, ops, k, LoadFile(Written(disk, path, bars), k))
      {
        WrittenFile(disk, path, bars, k);
      }
    case Flush =>
  }

  /** Files and queued writes of a run come from it. */
  lemma {:induction false} FilesFromRun(c: Config, disk: Disk, keys: set<Key>, ops: seq<Op>)
    requires OwnPaths(keys) && AllEnabled(c, World(map[], disk, []), keys, ops)
    ensures var w := World(map[], disk, []);
      DiskFrom(c, w, ops, keys, Run(c, w, ops).disk) && QueueFrom(c, w, ops, keys, Run(c, w, ops).queue)
  {
    if ops != [] {
      hide FromRun, DiskFrom, QueueFrom, Apply, Touched, Enabled, OwnPaths, Safe;
      var w := World(map[], disk, []);
      var init, op := ops[..|ops| - 1], ops[|ops| - 1];
      assert ops == init + [op];
      FilesFromRun(c, disk, keys, init);
      CleanImpliesSafe(c, disk, keys, init);
      CleanImpliesSafe(c, disk, keys, ops);
      QueueFromStep(c, w, init, op, keys);
      DiskFromStep(c, w, init, op, keys);
    } else {
      hide LoadFile;
    }
  }

  lemma DiskFromStep(c: Config, w: World, ops: seq<Op>, op: Op, keys: set<Key>)
    requires BinQueue(Run(c, w, ops).queue)
    requires DiskFrom(c, w, ops, keys, Run(c, w, ops).disk) && QueueFrom(c, w, ops, keys, Run(c, w, ops).queue)
    ensures DiskFrom(c, w, ops + [op], keys, Apply(c, Run(c, w, ops), op).disk)
  {
    hide FromRun, DiskFrom, QueueFrom, Run, LoadFile, Rotated, Traded, Merged;
    var v := Run(c, w, ops);
    DiskFromMore(c, w, ops, op, keys, v.disk);
    if op.WriterOp? && v.queue != [] {
      QueueFromMore(c, w, ops, op, keys, v.queue);
      ExecutedFrom(c, w, ops + [op], keys, v.disk, v.queue);
    }
  }

  lemma QueueFromPrefix(c: Config, w: World, ops: seq<Op>, keys: set<Key>, queue: seq<BarWriteCmd>, m: nat)
    requires m <= |queue| && QueueFrom(c, w, ops, keys, queue)
    ensures QueueFrom(c, w, ops, keys, queue[..m])
  {
    hide FromRun, ReadBack, FilePath;
  }

  /** A crash at any step of the writer's work, after any run: every file loads as it
      did at the start, or as bars that its series held at some time in the run; below
      2^32 bars those are the acceptable bars of that time. */
  lemma CrashLosesNoFile(c: Config, disk: Disk, keys: set<Key>, ops: seq<Op>, n: nat)
    requires OwnPaths(keys) && AllEnabled(c, World(map[], disk, []), keys, ops)
    requires n <= |QueueSteps(Run(c, World(map[], disk, []), ops).queue)|
    ensures var w := World(map[], disk, []);
      var end := Run(c, w, ops);
      DiskFrom(c, w, ops, keys, DoAll(end.disk, QueueSteps(end.queue)[..n]))
  {
    hide FromRun, QueueFrom, Run, AllEnabled, LoadFile, QueueSteps, Drained, OwnPaths, Safe, TouchedBy;
    var w := World(map[], disk, []);
    var end := Run(c, w, ops);
    FilesFromRun(c, disk, keys, ops);
    CleanImpliesSafe(c, disk, keys, ops);
    var m := CrashLoads(end.disk, end.queue, n);
    QueueFromPrefix(c, w, ops, keys, end.queue, m);
    DrainedFrom(c, w, ops, keys, end.disk, end.queue[..m]);
  }

  /** The file of `key` loads as exactly those bars of `s` stamped from 1_000_000_000 to
      9_999_999_999, in their order. */
  ghost predicate KeepsBars(disk: Disk, key: Key, s: Series, idx: seq<nat>) {
    && FilePath(key) in disk && Decode(disk[FilePath(key)]).Loaded?
    && var read := Decode(disk[FilePath(key)]).bars;
       && Picks(s.bars, read, idx, InBounds(s.bars))
       && (forall b :: b in read <==> b in s.bars && 1_000_000_000 <= b.timestamp <= 9_999_999_999)
       && ((forall k :: 0 <= k < |s.bars| ==> 1_000_000_000 <= s.bars[k].timestamp <= 9_999_999_999) ==> read == s.bars)
  }

  lemma HeldKeepsBars(disk: Disk, key: Key, s: Series) returns (idx: seq<nat>)
    requires Holds(disk, key, s)
    ensures KeepsBars(disk, key, s, idx)
  {
    hide Decode, FilePath, Accepted, Picks, InBounds;
    idx := AcceptedPicks(s.bars);
    AcceptedBounds(s.bars);
    if forall k :: 0 <= k < |s.bars| ==> 1_000_000_000 <= s.bars[k].timestamp <= 9_999_999_999 {
      AcceptedFixpoint(s.bars);
    }
  }

  /** What a shutdown keeps, bar by bar, of a series that was seeded or changed. */
  lemma ShutdownKeepsBars(c: Config, disk: Disk, keys: set<Key>, ops: seq<Op>, order: seq<Key>, key: Key) returns (idx: seq<nat>)
    requires OwnPaths(keys) && AllEnabled(c, World(map[], disk, []), keys, ops)
    requires var end := Run(c, World(map[], disk, []), ops);
      Lists(order, DirtyKeys(end.series)) && Fits(end.series)
    requires key in TouchedBy(c, World(map[], disk, []), ops)
    ensures var end := Run(c, World(map[], disk, []), ops);
      key in end.series && KeepsBars(Synced(Flushed(end, order)).disk, key, end.series[key], idx)
  {
    hide Run, TouchedBy, AllEnabled, OwnPaths, Fits, Lists, Flushed, Synced, Holds, KeepsBars, DirtyKeys;
    var end := Run(c, World(map[], disk, []), ops);
    ShutdownIsDurable(c, disk, keys, ops, order);
    idx := HeldKeepsBars(Synced(Flushed(end, order)).disk, key, end.series[key]);
  }

  // ---- restart

  ghost predicate AllLoads(ops: seq<Op>) {
    forall i :: 0 <= i < |ops| ==> ops[i].Load?
  }

  /** Loading files into a fresh service leaves the disk alone; each series is clean and
      is what its file loads as. */
  lemma {:induction false} LoadsRun(c: Config, disk: Disk, ops: seq<Op>)
    requires AllLoads(ops)
    ensures var w := Run(c, World(map[], disk, []), ops);
      && w.disk == disk && w.queue == []
      && (forall k :: k in w.series ==> LoadFile(disk, k) == Some(w.series[k].bars) && !w.series[k].dirty)
      && (forall i :: 0 <= i < |ops| && LoadFile(disk, ops[i].key).Some? ==> ops[i].key in w.series)
  {
    hide LoadFile, FilePath, Drained, Enabled;
    if ops != [] {
      LoadsRun(c, disk, ops[..|ops| - 1]);
    }
  }

  lemma NothingToFlush(w: World, order: seq<Key>)
    requires DirtyKeys(w.series) == {} && Lists(order, DirtyKeys(w.series)) && w.queue == []
    ensures Synced(Flushed(w, order)).disk == w.disk
  {
    NoneListed(order, DirtyKeys(w.series));
    assert Writes(w.series, []) == [];
  }

  /** Restart: after a shutdown, files loaded into a fresh service, in any order and
      number, give back the acceptable bars of every series that was seeded or changed;
      shutting down again changes no file. */
  lemma RestartKeepsBars(c: Config, disk: Disk, keys: set<Key>, ops: seq<Op>, order: seq<Key>,
                         loads: seq<Op>, order': seq<Key>, key: Key)
    requires OwnPaths(keys) && AllEnabled(c, World(map[], disk, []), keys, ops)
    requires var end := Run(c, World(map[], disk, []), ops);
      Lists(order, DirtyKeys(end.series)) && Fits(end.series)
    requires AllLoads(loads) && key in TouchedBy(c, World(map[], disk, []), ops)
    requires exists i :: 0 <= i < |loads| && loads[i].key == key
    requires var saved := Synced(Flushed(Run(c, World(map[], disk, []), ops), order)).disk;
      Lists(order', DirtyKeys(Run(c, World(map[], saved, []), loads).series))
    ensures var end := Run(c, World(map[], disk, []), ops);
      var saved := Synced(Flushed(end, order)).disk;
      var again := Run(c, World(map[], saved, []), loads);
      && key in end.series && key in again.series
      && again.series[key].bars == Accepted(end.series[key].bars)
      && Synced(Flushed(again, order')).disk == saved
  {
    hide Apply, Touched, Enabled, Flushed, Synced, Lists, Run, TouchedBy, AllEnabled, LoadFile, OwnPaths, Fits, Accepted, DirtyKeys;
    var end := Run(c, World(map[], disk, []), ops);
    var saved := Synced(Flushed(end, order)).disk;
    var again := Run(c, World(map[], saved, []), loads);
    ShutdownIsDurable(c, disk, keys, ops, order);
    LoadsRun(c, saved, loads);
    AllClean(again.series);
    NothingToFlush(again, order');
  }

  lemma AllClean(series: map<Key, Series>)
    requires forall k :: k in series ==> !series[k].dirty
    ensures DirtyKeys(series) == {}
  {
  }

  // ---- a load that is not safe

  /** A run in which a load is not safe: an empty file is loaded, a trade arrives, the
      series is flushed, and the file is loaded again before the writer gets to it. */
  lemma LoadBehindQueueUnsafe(c: Config, disk: Disk, key: Key, period: Period, t: Trade)
    requires c.capacity >= 1 && LoadFile(disk, key) == Some([]) && InWindow(OpenBar(Bucket(Secs(t), period), t))
    ensures var w := World(map[], disk, []);
      var ops := [Load(key, period), TradeOp(key, t), FlushOp([key])];
      var end := Run(c, w, ops + [Load(key, period)]);
      && AllEnabled(c, w, {key}, ops) && !FileCurrent(Run(c, w, ops), key)
      && key in end.series && !end.series[key].dirty && !Holds(Drained(end.disk, end.queue), key, end.series[key])
  {
    hide LoadFile, FilePath, Written, Accepted, ReadBack, Bucket, Secs, Apply, Enabled, FileCurrent, Run, AllEnabled, Lists, Drained;
    var w := World(map[], disk, []);
    var bar := OpenBar(Bucket(Secs(t), period), t);
    var s1 := NewSeries(c.capacity, period);
    var s2 := Traded(c.fl, s1, t);
    var cmd := Write(FilePath(key), [bar]);
    var w1, w2 := World(map[key := s1], disk, []), World(map[key := s2], disk, []);
    var w3 := World(map[key := Clean(s2)], disk, [cmd]);
    FirstLoad(c, disk, key, period);
    FirstTrade(c, disk, key, s1, t);
    FirstFlush(c, disk, key, s2, bar);
    LoadBehind(c, disk, key, period, Clean(s2), bar);
    RunFour(c, w, Load(key, period), TradeOp(key, t), FlushOp([key]), Load(key, period));
    EnabledThree(c, w, {key}, Load(key, period), TradeOp(key, t), FlushOp([key]));
  }

  lemma FirstLoad(c: Config, disk: Disk, key: Key, period: Period)
    requires LoadFile(disk, key) == Some([])
    ensures Enabled(World(map[], disk, []), {key}, Load(key, period))
    ensures Apply(c, World(map[], disk, []), Load(key, period)) == World(map[key := NewSeries(c.capacity, period)], disk, [])
  {
    hide LoadFile, ReadBack, FilePath;
  }

  lemma FirstTrade(c: Config, disk: Disk, key: Key, s: Series, t: Trade)
    requires s.bars == [] && s.capacity >= 1
    ensures Enabled(World(map[key := s], disk, []), {key}, TradeOp(key, t))
    ensures Apply(c, World(map[key := s], disk, []), TradeOp(key, t)) == World(map[key := Traded(c.fl, s, t)], disk, [])
    ensures Traded(c.fl, s, t).bars == [OpenBar(Bucket(Secs(t), s.period), t)] && Traded(c.fl, s, t).dirty
  {
    hide FilePath, Bucket, Secs;
    assert map[key := s][key := Traded(c.fl, s, t)] == map[key := Traded(c.fl, s, t)];
  }

  lemma FirstFlush(c: Config, disk: Disk, key: Key, s: Series, bar: Bar)
    requires s.bars == [bar] && s.dirty
    ensures Enabled(World(map[key := s], disk, []), {key}, FlushOp([key]))
    ensures Apply(c, World(map[key := s], disk, []), FlushOp([key]))
         == World(map[key := Clean(s)], disk, [Write(FilePath(key), [bar])])
  {
    hide FilePath, Flushed, Lists, DirtyKeys;
    FlushSingle(World(map[key := s], disk, []), key, s);
  }

  lemma LoadBehind(c: Config, disk: Disk, key: Key, period: Period, s: Series, bar: Bar)
    requires LoadFile(disk, key) == Some([]) && InWindow(bar)
    ensures var w := World(map[key := s], disk, [Write(FilePath(key), [bar])]);
      var end := Apply(c, w, Load(key, period));
      && !FileCurrent(w, key) && key in end.series && !end.series[key].dirty
      && !Holds(Drained(end.disk, end.queue), key, end.series[key])
  {
    hide LoadFile, FilePath, Accepted, ReadBack, Drained, LastQueued;
    var cmd := Write(FilePath(key), [bar]);
    BinPath(key);
    DrainedFile(disk, [cmd], key);
    ReadBackAccepted([bar]);
    SingleAccepted(bar);
    LastQueuedSingle(cmd);
  }

  lemma FlushSingle(w: World, key: Key, s: Series)
    requires w.series == map[key := s] && s.dirty && w.queue == []
    ensures Flushed(w, [key]) == World(map[key := Clean(s)], w.disk, [WriteOf(key, s)])
    ensures Lists([key], DirtyKeys(w.series))
  {
    assert [key][..0] == [] && Writes(w.series, []) == [];
    assert Writes(w.series, [key]) == [WriteOf(key, s)];
  }

  lemma SingleAccepted(bar: Bar)
    requires InWindow(bar)
    ensures Accepted([bar]) == [bar] && Accepted([]) == []
  {
    assert [bar][1..] == [];
  }

  lemma LastQueuedSingle(cmd: BarWriteCmd)
    requires cmd.Write?
    ensures LastQueued([cmd], cmd.path) == Some(cmd.bars)
  {
  }

  lemma RunFour(c: Config, w: World, a: Op, b: Op, d: Op, e: Op)
    ensures Run(c, w, [a]) == Apply(c, w, a)
    ensures Run(c, w, [a, b]) == Apply(c, Apply(c, w, a), b)
    ensures Run(c, w, [a, b, d]) == Apply(c, Apply(c, Apply(c, w, a), b), d)
    ensures Run(c, w, [a, b, d] + [e]) == Apply(c, Apply(c, Apply(c, Apply(c, w, a), b), d), e)
  {
    hide Apply;
    assert [a][..0] == [] && [a, b][..1] == [a] && [a, b, d][..2] == [a, b] && ([a, b, d] + [e])[..3] == [a, b, d];
    assert Run(c, w, []) == w;
  }

  lemma EnabledThree(c: Config, w: World, keys: set<Key>, a: Op, b: Op, d: Op)
    requires Enabled(w, keys, a) && Enabled(Run(c, w, [a]), keys, b) && Enabled(Run(c, w, [a, b]), keys, d)
    ensures AllEnabled(c, w, keys, [a, b, d])
  {
    hide Enabled, Run;
    assert [a][..0] == [] && [a, b][..1] == [a] && [a, b, d][..2] == [a, b];
    assert Run(c, w, []) == w by { RunNone(c, w); }
    assert AllEnabled(c, w, keys, []);
    assert AllEnabled(c, w, keys, [a]);
    assert AllEnabled(c, w, keys, [a, b]);
  }

  lemma RunNone(c: Config, w: World)
    ensures Run(c, w, []) == w
  {
  }

  lemma BinPath(key: Key)
    ensures FilePath(key).ext == "bin"
  {
  }

  /** The exact condition for the files of a service to be its own. */
  lemma OwnPathsExactly(keys: set<Key>)
    requires forall k :: k in keys ==> PlainTail(k)
    ensures OwnPaths(keys) <==> forall a, b :: a in keys && b in keys && SharePath(a, b) ==> a == b
  {
    hide FilePath, SharePath;
    forall a, b | a in keys && b in keys
      ensures FilePath(a) == FilePath(b) <==> SharePath(a, b)
    {
      SharedPathsExactly(a, b);
    }
  }

  /** No two symbols are replaced by the same one, and none by what stands in the files
      of another account's symbol. */
  predicate SafeApart(a: Key, b: Key) {
    && (SafeSymbol(a.symbol) == SafeSymbol(b.symbol) ==> a.symbol == b.symbol)
    && (Spot(a) && !Spot(b) ==> SafeSymbol(a.symbol) != SafeSymbol(b.symbol) + "_" + b.accountType)
  }

  /** Keys with one name for the spot account and exchange names that differ by more
      than case own their files, with slashes and colons in symbols too, as long as the
      replaced symbols do not collide. */
  lemma PlainKeysOwnPaths(keys: set<Key>)
    requires forall k :: k in keys ==> PlainTail(k) && k.accountType != ""
    requires forall a, b :: a in keys && b in keys && Lower(a.exchange) == Lower(b.exchange) ==> a.exchange == b.exchange
    requires forall a, b :: a in keys && b in keys ==> SafeApart(a, b)
    ensures OwnPaths(keys)
  {
    hide SafeSymbol, Lower, OwnPaths;
    OwnPathsExactly(keys);
    forall a, b | a in keys && b in keys && SharePath(a, b)
      ensures a == b
    {
      assert SafeApart(a, b) && SafeApart(b, a);
    }
  }

  /** Plain symbols never collide. */
  lemma PlainSafeApart(a: Key, b: Key)
    requires PlainKey(a) && PlainKey(b)
    ensures SafeApart(a, b)
  {
    SafePlain(a.symbol);
    SafePlain(b.symbol);
    HasUnderscore(b.symbol, b.accountType);
  }
}
