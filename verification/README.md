# Chart terminal: a verified model

This project models five parts of a desktop charting application and proves what
they are for. `dafny verify dfyconfig.toml` checks everything.

1. **The OHLCV bar pipeline.** Trades are folded into candles in a bounded series,
   REST batches are merged in by timestamp, dirty series go through a writer queue to
   checksummed files, and files are read back at startup. `BarService` is the object
   with its shared series and store handle, method by method; `BarSeries` and
   `BarPipeline` say what each operation does to the state; `Aggregation` relates the
   stream of trades to grouping the whole list; `Durability` is about whole runs, up to
   what is on disk after shutdown. `BarFormat`, `Checksum`, `LittleEndian` and
   `SampleFile` are the file format, `BarStore` the file names, queue and disk,
   `BarMerge` the merge and `Gaps` the gap detection.
2. **Alerts.** `Alerts` is the manager with its two checkers; `AlertRuns` covers ids,
   trigger limits and the independence of windows; `AlertHistory` shows that an alert
   fires at exactly the ticks at which the price crosses its level.
3. **The GPU hand-off.** `GpuPipeline` is the protocol between main and render thread
   as a step relation: channels, pending flag, double-buffered scenes, timed and
   blocking waits, window drop and shutdown.
4. **Sub-panes.** `SubPanes` re-synchronises the panes of each window with the
   indicator instances.
5. **Screenshots and cleanup.** `Calendar` takes second counts apart for file names,
   `Screenshot` strips row padding and crops, `Cleanup` evicts cached files.

Code that changes state step by step is imperative here too: a method is proved
against a function of the old state, and the properties are proved of that function.

## Conventions

- In the bar pipeline a 64-bit float is its bit pattern, and the two operations used
  (`>` and `+`) are parameters (`Float`), so the results hold for IEEE arithmetic as it
  is. Only `Aggregation.ExtremesCorrect` asks that the prices compared are ordered, as
  numbers other than NaN are. In the alerts, prices, levels and bars are reals.
- Integer division is Rust's, which cuts toward zero; `BarSeries.CutForward` names the
  seconds before the epoch for which this matters. Bar counts on disk are 32 bits,
  timestamps in files 64 bits in two's complement.
- The iteration order of hash maps is a parameter (`order`, or a choice), so the
  results hold for every order. Clocks, the result of the file scan, and which removals
  fail are parameters too.
- The disk is a map from paths to bytes, the writer a queue. The checksum is CRC-32 of
  section 8 of RFC 1952.
- Render and main thread are interleaved step by step; scenes are numbers.

## Where the code and its comments differ

The model follows the code.

- One rotation runs per operation, so a merge can leave a series over capacity
  (`crates/bar-service/src/service.rs:358-380`); `BarSeries.TradesRecoverBound` says how
  trades work the excess off, `BarSeries.SmallCapacityKeepsExcess` when they do not.
- Rotated bars are trimmed from the file as well; nothing archives them. A rotation
  does not count as a version and leaves the series dirty. `oldest_rotated_ts` is the
  oldest bar of the latest rotation only.
- A trade older than the last candle is folded into that candle.
- A series that was only created is empty and clean, even beside an old file; so the
  durability theorem is about series that were seeded or changed.
- A gap is reported as soon as one whole candle is missing.
- `update` and `update_full` keep the remembered level
  (`crates/alerts/src/manager.rs:116-159`), so an edit can fake or hide a crossing:
  `AlertHistory.EditFakesCrossing`, and exactly when, `AlertHistory.EditHarmless`.
- `OncePerBar` is not enforced: it behaves as `EveryTime`. Range, moving and
  pair conditions never fire. 0.0 means "no previous value".
- The timed wait clears the pending flag without an acknowledgement
  (`crates/chart-app-vello/src/main.rs:1653-1664`). The counting theorem gives the exact
  drift, and `GpuPipeline.SwapWhileBusy` a run in which scenes are swapped under the
  render thread.
- A stale file that cannot be removed is counted as removed and no longer counts
  toward the size limit (`crates/bar-store/src/cleanup.rs:86-95`), so a cache can stay
  over it: `Cleanup.BytesLeft`.

## Model

| member | source | states |
|---|---|---|
| Durability.ShutdownIsDurable | crates/bar-service/src/service.rs:277-301 | After any run of create, load, trade, merge, flush and writer steps from an empty service, flushing the dirty series in any order and draining the writer leaves the file of a series in memory decoding to exactly its acceptable bars if and only if the series was seeded from its file or changed, or its file already loaded as empty |
| Durability.ShutdownKeepsBars | crates/bar-service/src/service.rs:277-301 | Bar by bar: after such a shutdown the file of a series that was seeded or changed loads as exactly its bars stamped from 1_000_000_000 to 9_999_999_999, in their order, and as all of them when all are |
| Durability.CleanImpliesSafe | crates/bar-service/src/service.rs:130-296 | The inductive invariant of every run: a seeded or changed series that is marked clean is already held by the disk once the queued writes have run |
| Durability.SafeApply | crates/bar-service/src/service.rs:155-296 | Each single operation keeps that invariant, rotation writes that leave the series dirty included |
| Durability.UntouchedRun | crates/bar-service/src/service.rs:130-142 | Throughout every run a key that was neither seeded nor changed has at most an empty clean series, and its file loads as it did at the start |
| Durability.OrderIsInvariant | crates/bar-service/src/service.rs:155-296 | From a disk of strictly ordered files, every series in memory, every queued write and every file stays strictly ordered by timestamp in every run, with late trades, unordered batches, rotations and reloads |
| Durability.RestartKeepsBars | crates/bar-service/src/service.rs:267-301 | Restart: after a shutdown, loading files into a fresh service, in any order and number, gives back exactly the acceptable bars of every series that was seeded or changed, and shutting down again changes no file |
| Durability.SafeSeed | crates/bar-service/src/service.rs:267-272 | Seeding a series from its file keeps the invariant if and only if no write to the file is queued or the latest queued one reads back as what the file holds |
| Durability.DrainedFile | crates/bar-store/src/store.rs:26-42 | Once any queue is drained a file loads as the latest list queued for it, or as before if there is none |
| Durability.LoadBehindQueueUnsafe | crates/bar-service/src/service.rs:267-296 | A run from the empty service (load, trade, flush, load again before the writer) after which a clean series is not what the disk will hold |
| Durability.OwnPathsExactly | crates/bar-store/src/store.rs:52-60 | For timeframes and account labels without underscore and any symbols, no two keys of a service share a file if and only if no two agree in exchange up to case, timeframe and replaced symbol with account |
| Durability.PlainKeysOwnPaths | crates/bar-store/src/store.rs:52-60 | So keys with one spelling of the spot account and exchanges that differ by more than case own their files, symbols with slashes and colons included, as long as the replaced symbols do not collide |
| Durability.PlainSafeApart | crates/bar-store/src/store.rs:52-60 | Symbols without slash, colon and underscore never collide |
| Durability.SharedFileHoldsOne | crates/bar-service/src/service.rs:277-296 | Why keys must own their paths: of two keys with one file, both are held only if their acceptable bars are the same |
| Durability.CrashLosesNoFile | crates/bar-service/src/service.rs:277-296 | After any run and a crash at any step of the work still queued, the file of every key loads as at the start of the run or as bars its series held at some time in it |
| Durability.DrainedWrites | crates/bar-service/src/service.rs:277-296 | Behind any queue, the writes of a flush leave each flushed key with its own bars and every other file of the service as it was |
| BarService.BarService.GetOrCreate | crates/bar-service/src/service.rs:130-142 | An existing series is returned untouched; otherwise a fresh empty one with the default capacity is added, sharing nothing with the others |
| BarPipeline.CreateChanges | crates/bar-service/src/service.rs:130-142 | A new series is empty, clean, at version 0 and of the given shape; an existing one stays as it is |
| BarService.BarService.ApplyTrade | crates/bar-service/src/service.rs:155-226 | The whole new state after a trade, with the queued rotation write, and the event told to the caller; an unknown key changes nothing and gives no event |
| BarService.EventTells | crates/bar-service/src/service.rs:189-220 | The event of a trade carries the bar the series grew by, made of the trade alone and the newest in memory, or else tells that the last bar took the trade in and all others stayed |
| BarPipeline.TradeChanges | crates/bar-service/src/service.rs:155-226 | A trade counts as one version, makes the series dirty, records its second, and queues the series exactly when the bars exceeded the capacity; other series, capacity and period stay; an unknown key changes nothing |
| BarService.BarService.MaybeRotate | crates/bar-service/src/service.rs:358-380 | One block of the oldest bars leaves an overfull series and the trimmed series is queued for writing; nothing else changes |
| BarService.BarService.MergeRestBatch | crates/bar-service/src/service.rs:232-261 | The series, created if missing, becomes the timestamp merge and is rotated; the event counts the batch as it was given |
| BarPipeline.BatchChanges | crates/bar-service/src/service.rs:232-261 | A batch counts as one version, makes the series dirty, leaves the last trade second, and queues the series exactly when the merged bars exceeded the capacity; a missing series is created for it |
| BarService.BarService.SeedFromDisk | crates/bar-service/src/service.rs:267-272 | The series, created if missing, holds the given bars and is clean; version and capacity are untouched |
| BarPipeline.SeedChanges | crates/bar-service/src/service.rs:267-272 | A seed replaces the bars and makes the series clean; version, last trade second, rotation mark, shape and queue stay |
| BarService.BarService.FlushDirty | crates/bar-service/src/service.rs:277-296 | Whatever the iteration order, exactly the dirty series are queued, once each, with their present bars, and all series are clean |
| BarPipeline.FlushChanges | crates/bar-service/src/service.rs:277-296 | A flush queues each dirty series once, with its bars, leaves nothing dirty and changes no other field; a second flush queues nothing |
| BarService.BarService.FlushSync | crates/bar-service/src/service.rs:299-301 | Every queued write has run, in order, and the queue is empty |
| BarService.BarService.SaveBars | crates/chart-app-vello/src/main.rs:1926-1929 | The shutdown step: flush the dirty series, then drain the writer |
| BarService.BarService.HasAnyDirty | crates/bar-service/src/service.rs:305-310 | True exactly when some series is dirty |
| BarService.BarService.QueryGap | crates/bar-service/src/service.rs:338-354 | True exactly when the series exists and the trade starts at least two periods after its last bar |
| BarService.SharedSeries.TakeTrade | crates/bar-service/src/service.rs:165-221 | In-place form of a trade: a trade before the end of the last candle, late ones included, is folded into it; any other opens a candle |
| BarService.SharedSeries.Rotate | crates/bar-service/src/service.rs:358-367 | Drops a tenth of the capacity, at least one bar, when overfull, and marks the oldest dropped timestamp |
| BarSeries.TradeKeepsOrder | crates/bar-service/src/service.rs:165-223 | One trade keeps strict timestamp order whatever its time, without assuming the bars are aligned to the period |
| BarSeries.MergeKeepsOrder | crates/bar-service/src/service.rs:250-258 | A merge makes the series strictly ordered whatever it held before |
| BarSeries.TradeBound | crates/bar-service/src/service.rs:223-364 | One trade never drops the newest bar, stays within capacity if it started there, and else removes a whole block |
| BarSeries.RotatedExactly | crates/bar-service/src/service.rs:358-367 | An overfull series drops its oldest bars, a tenth of the capacity rounded down, or one for capacities below 20, and marks the timestamp of the first; one within capacity stays as it is; no other field changes |
| BarSeries.TradesRecoverBound | crates/bar-service/src/service.rs:358-364 | n trades bring an excess down by n times one less than the block size (capacity / 10, at least 1), or within the bound |
| BarSeries.SmallCapacityKeepsExcess | crates/bar-service/src/service.rs:358-364 | A trade shrinks an overfull series if and only if the capacity is at least 20 or the trade opens no candle |
| BarSeries.TradeOnlyRun | crates/bar-service/src/service.rs:155-226 | After any run of trades alone: within capacity, strictly ordered, the rotation mark strictly below every bar, one version per trade, dirty from the first, the last trade second recorded |
| BarSeries.BucketOrder | crates/bar-service/src/service.rs:176-187 | Candle starts grow with time in whole periods, before the epoch too; a later second leaves the candle exactly when its own candle starts later, if and only if it is not cut forward by division before the epoch |
| BarSeries.SecsInMs | crates/bar-service/src/service.rs:167 | The second of a trade is its milliseconds cut by a thousand toward the epoch |
| BarSeries.OpenedCandleSpans | crates/bar-service/src/service.rs:176-213 | A candle opened since the epoch starts at a whole number of periods and spans the milliseconds of its trade |
| BarSeries.FoldedBeforeEnd | crates/bar-service/src/service.rs:176-187 | A trade is folded into the last candle exactly when its milliseconds come before the end of it |
| BarSeries.GapInMs | crates/bar-service/src/service.rs:346-351 | A gap is reported exactly when a whole period has passed since the end of the last candle, in milliseconds |
| Aggregation.StreamingRefinesBatch | crates/bar-service/src/service.rs:165-223 | For any trade list in any arrival order of which no trade is cut forward, the bars in memory are the newest candles of the list obtained by grouping trades by the bucket of the running maximum second: all of them while they fit, and never fewer than a full series keeps when it drops a block |
| Aggregation.StreamingRefinesExactly | crates/bar-service/src/service.rs:165-223 | That holds throughout a run if and only if no trade of it is cut forward: raises the latest second, to within the candle of the second before, yet has a later candle of its own |
| Aggregation.SinceEpochNeverCut | crates/bar-service/src/service.rs:165-187 | Trades at or after the epoch are never cut forward |
| Aggregation.BatchNewCandle | crates/bar-service/src/service.rs:203-219 | A trade past the last candle adds exactly one candle to the grouping |
| Aggregation.BatchSameCandle | crates/bar-service/src/service.rs:190-202 | Any other trade changes only the last candle of the grouping, by folding |
| Aggregation.OrderedTradesOwnBucket | crates/bar-service/src/service.rs:176-187 | For non-decreasing times every trade is grouped under its own candle |
| Aggregation.BucketsEach | crates/bar-service/src/service.rs:176-187 | Each trade is grouped under the candle of the latest second up to it |
| Aggregation.MaxSecsIsMax | crates/bar-service/src/service.rs:176-187 | The latest second is that of some trade, and none is later |
| Aggregation.MembersPick | crates/bar-service/src/service.rs:190-219 | The trades of a grouped candle are exactly those filed under it, in arrival order |
| Aggregation.DistinctOnce | crates/bar-service/src/service.rs:203-219 | No grouped candle starts twice |
| Aggregation.VolumeIsSum | crates/bar-service/src/service.rs:198 | Wherever addition is exact, the volume of a grouped candle is the sum of its quantities |
| Aggregation.ExtremesCorrect | crates/bar-service/src/service.rs:192-199 | High and low of a grouped candle are prices of it that no other price exceeds or undercuts |
| Gaps.GapMeansSkippedCandle | crates/bar-service/src/service.rs:338-354 | On an aligned series a gap is reported exactly when the trade opens a candle at least two periods after the last, if and only if the trade is not cut forward |
| Gaps.GapStep | crates/bar-service/src/service.rs:338-354 | A trade leaves candles consecutive only if no gap is reported; where none is, exactly when it does not skip a candle unseen (cut forward over it, before the epoch) |
| Gaps.NoGapsConsecutive | crates/bar-service/src/service.rs:338-354 | A trade-built series for which no gap was ever reported, and no candle skipped unseen, has consecutive candles one period apart; while nothing was rotated out, consecutive candles mean that none was reported |
| Gaps.NoGapsExactly | crates/bar-service/src/service.rs:338-354 | With capacity at least 2, silence means consecutive candles throughout a run if and only if nothing is skipped unseen before the first report |
| Gaps.SinceEpochNoneUnseen | crates/bar-service/src/service.rs:338-354 | Trades at or after the epoch skip nothing unseen |
| BarMerge.MergeBarsSorted | crates/bar-service/src/service.rs:385-394 | The map-building loops compute the in-order values of the map of both lists |
| BarMerge.MergeIsOverride | crates/bar-service/src/service.rs:385-394 | The merge is strictly ascending and denotes map override: new beats existing |
| BarMerge.ToMapIsLastBar | crates/bar-service/src/service.rs:385-394 | What a list denotes: at each timestamp its last bar, so a later duplicate beats an earlier one |
| BarMerge.SortedValuesCorrect | crates/bar-service/src/service.rs:393 | The values of the ordered map ascend strictly and lose nothing |
| BarMerge.AscendingUnique | crates/bar-service/src/service.rs:385-394 | A strictly ascending list is determined by what it denotes |
| BarMerge.MergeEmpty | crates/bar-service/src/service.rs:385-394 | An empty batch leaves a strictly ascending list as it is |
| BarMerge.MergeAssociative | crates/bar-service/src/service.rs:385-394 | Merging is associative |
| BarMerge.MergeIdempotent | crates/bar-service/src/service.rs:385-394 | Applying a batch twice is applying it once |
| BarMerge.MergeOrderIndependent | crates/bar-service/src/service.rs:385-394 | Two batches may be applied in either order if and only if they agree on the timestamps they share |
| BarFormat.WriteBars | crates/bar-store/src/format.rs:43-57 | The bytes written: magic, version, bar count modulo 2^32, checksum and records |
| BarFormat.ReadBars | crates/bar-store/src/format.rs:75-109 | The reader, check by check in its order, with its error values, and the timestamp window at the end |
| BarFormat.BarToBytes | crates/bar-store/src/format.rs:12-21 | The in-place array fill gives the 48-byte little-endian record |
| BarFormat.BarRoundTrip | crates/bar-store/src/format.rs:12-33 | Reading a written record gives the bar back |
| BarFormat.BarBytesOnto | crates/bar-store/src/format.rs:12-33 | Every 48 bytes are the record of exactly one bar |
| BarFormat.DecodeEncode | crates/bar-store/src/format.rs:36-110 | Below 2^32 bars a written file loads exactly the bars in the accepted window; in general it loads, as the list cut to the count field, if and only if the cut records have the checksum of all |
| BarFormat.WrittenBarsRead | crates/bar-store/src/format.rs:36-110 | Below 2^32 bars, exactly the bars stamped from 1_000_000_000 to 9_999_999_999 survive a write and a read, in their order; a list wholly inside reads back as itself |
| BarFormat.HeaderErrors | crates/bar-store/src/format.rs:75-83 | A short file is reported as truncated before anything else, then a wrong magic byte, then a wrong version, with the byte found |
| SampleFile.SampleFileBytes | crates/bar-store/src/format.rs:12-57 | One file byte by byte: magic, version, count, checksum and six little-endian fields, and what it reads as |
| BarFormat.EncodeDecode | crates/bar-store/src/format.rs:36-110 | A file that loads without dropping a bar is, up to trailing bytes, the one file that writing those bars produces |
| BarFormat.DecodeEncodeAscending | crates/bar-store/src/format.rs:36-110 | A strictly ordered list is still strictly ordered after write and read |
| BarFormat.CorruptionDetected | crates/bar-store/src/format.rs:71-97 | Changing any one byte outside the count field makes the read fail, with the error its place calls for |
| BarFormat.CountCorruption | crates/bar-store/src/format.rs:82-97 | A changed count: larger is always truncation; smaller is accepted if and only if the shorter payload has the same checksum |
| BarFormat.PrefixTruncated | crates/bar-store/src/format.rs:75-92 | Every proper prefix of a written file fails as truncated, with the expected count it reports |
| BarFormat.TrailingBytesIgnored | crates/bar-store/src/format.rs:86-97 | Extra bytes never change the outcome of a file that is not truncated |
| BarFormat.Retain | crates/bar-store/src/format.rs:107 | The final filter keeps the bars in the accepted window, in order |
| Bars.AcceptedMembers | crates/bar-store/src/format.rs:107 | The filter keeps exactly the bars whose timestamp lies in the window |
| Bars.AcceptedPicks | crates/bar-store/src/format.rs:107 | The bars kept are those stamped from 1_000_000_000 to 9_999_999_999, every one of them and in their order |
| Bars.AcceptedIdempotent | crates/bar-store/src/format.rs:107 | Filtering twice is filtering once, so a reload drops nothing more |
| Checksum.CrcByteInjective | crates/bar-store/src/format.rs:51 | Each byte step of CRC-32 (section 8 of RFC 1952) is injective in the register |
| Checksum.CrcByteDistinguishes | crates/bar-store/src/format.rs:51 | Each byte step is injective in the byte |
| Checksum.Crc32DetectsByteChange | crates/bar-store/src/format.rs:94-97 | Changing one byte of any input changes its checksum |
| Checksum.Crc32CheckValue | crates/bar-store/src/format.rs:51 | The published CRC-32 check value of 123456789 |
| LittleEndian.UnLeLe | crates/bar-store/src/format.rs:82-83 | Little-endian bytes read back as the number |
| LittleEndian.LeUnLe | crates/bar-store/src/format.rs:12-33 | Bytes are the little-endian form of the number they read as |
| BarStore.SharedPathsExactly | crates/bar-store/src/store.rs:52-60 | For timeframes and account labels without underscore and any symbols, two keys have one path if and only if exchanges agree up to case, timeframes agree, and the replaced symbols, each with its account label unless spot, agree |
| BarStore.PlainPathsDistinct | crates/bar-store/src/store.rs:52-60 | So plain keys with one path agree in everything but the case of the exchange and the two spellings of the spot account |
| BarStore.SharedPaths | crates/bar-store/src/store.rs:52-60 | Two pairs of keys that do share a file: an underscore, and a slash beside a dash |
| BarStore.FileNames | crates/bar-store/src/store.rs:52-60 | The paths of some keys, letter by letter |
| BarStore.ReplaceEach | crates/bar-store/src/store.rs:53 | Replacing in symbols goes character by character |
| BarStore.LowerEach | crates/bar-store/src/store.rs:59 | Capital letters of the exchange become small ones, all else stays |
| BarStore.WriteAtomic | crates/bar-store/src/format.rs:59-65 | After a crash at any step of the write, byte by byte into the temporary file and then the rename, every bar file is as before, or all is as after the write |
| BarStore.WriteIsItsSteps | crates/bar-store/src/format.rs:59-65 | All the steps together are the whole write |
| BarStore.CrashLeavesWholeWrites | crates/bar-store/src/store.rs:26-42 | A crash at any step of any queue leaves the bar files as if some of the oldest commands had run in full and no other |
| BarStore.CrashLoads | crates/bar-store/src/store.rs:80-108 | So each file then loads as before or as a whole list that was written to it |
| BarStore.DrainedAppend | crates/bar-store/src/store.rs:26-42 | The writer is first in, first out: draining two queues in turn is draining their concatenation |
| BarStore.BarStoreHandle.WriteAsync | crates/bar-store/src/store.rs:63-73 | One write for the path of the key joins the end of the queue |
| BarStore.BarStoreHandle.RunWriter | crates/bar-store/src/store.rs:26-42 | The writer executes the oldest command; a flush is answered without touching the disk |
| BarStore.BarStoreHandle.FlushSync | crates/bar-store/src/store.rs:134-139 | When the flush is answered every earlier write has run |
| BarStore.BarStoreHandle.LoadMany | crates/bar-store/src/store.rs:80-108 | Exactly the keys whose file loads, in the order asked, with the bars of their files |
| BarStore.LoadableExact | crates/bar-store/src/store.rs:80-108 | Exactly the keys asked for whose file is there and reads well are returned, with what it reads as |
| BarStore.LoadableAppend | crates/bar-store/src/store.rs:80-108 | In the order asked |
| Alerts.AlertManager.CheckCrossingsDynamic | crates/alerts/src/manager.rs:301-393 | The in-place loop is the tick step: every alert is checked against the same previous price, fired ids in list order, the price remembered at the end |
| Alerts.AlertManager.CheckSignalAlerts | crates/alerts/src/manager.rs:410-496 | The in-place loop is the signal step |
| Alerts.CheckItem | crates/alerts/src/manager.rs:313-390 | One alert at one tick: skipped when inactive, foreign or without level; else compared, its level remembered, and counted if it fires |
| Alerts.CheckSignalItem | crates/alerts/src/manager.rs:421-493 | One alert at one batch: fires at most once, if any event matches |
| Alerts.LineThroughPoints | crates/alerts/src/manager.rs:224-265 | The resolved level is on the straight line through both points, in and beyond them, and each extend mode cuts it exactly at its ends |
| Alerts.IndicatorLevel | crates/alerts/src/manager.rs:266-276 | The level of an indicator alert is the latest value of the first entry for its output, and none when there is no entry or that one has no value |
| Alerts.DrawingLevel | crates/alerts/src/manager.rs:224-265 | The level of a drawing alert comes from the first entry for its drawing: none without one or without points, the price of a single point, the first price of a line within one bar, else that of the line |
| Alerts.OtherLevels | crates/alerts/src/manager.rs:223-283 | The level of a price alert is its price; pairs and signals have none |
| Alerts.MatchesFilled | crates/alerts/src/types.rs:505-553 | An alert matches exactly the windows its own names spell, the empty ones filled in; a price alert goes by the symbol of its source |
| Alerts.AlertManager.Create | crates/alerts/src/manager.rs:76-88 | A new alert with the next id joins the list |
| AlertRuns.Created | crates/alerts/src/types.rs:421-458 | The created alert is the last of the list, with the next id: active, for one firing, shown as a popup, not fired, with no level remembered |
| Alerts.AlertManager.Update | crates/alerts/src/manager.rs:116-131 | The first alert with the id gets new core fields and keeps its remembered level; tells whether there is one |
| Alerts.AlertManager.UpdateFull | crates/alerts/src/manager.rs:134-159 | The first alert with the id gets all editable fields; tells whether there is one |
| AlertRuns.EditSets | crates/alerts/src/manager.rs:116-159 | Field by field, what each edit sets on the alert with the id and what it leaves; all other alerts stay |
| Alerts.AlertManager.Remove | crates/alerts/src/manager.rs:166-170 | Exactly the alerts with the id go; tells whether any went |
| Alerts.AlertManager.RemoveAlertsForDrawing | crates/alerts/src/manager.rs:183-187 | Exactly the alerts attached to the drawing go |
| Alerts.AlertManager.RemoveAlertsForIndicator | crates/alerts/src/manager.rs:193-201 | Exactly the indicator and signal alerts of the indicator go |
| AlertRuns.Removals | crates/alerts/src/manager.rs:166-201 | By each removal exactly the alerts with the id, on the drawing, or on the indicator by value or signal are gone; the others stay as they are and in order |
| Alerts.AlertManager.Clear | crates/alerts/src/manager.rs:173-177 | Back to the state of a new manager |
| Alerts.AlertManager.Restore | crates/alerts/src/manager.rs:508-512 | The given list, the next id past its maximum, no remembered prices |
| AlertRuns.ClearedIsNew | crates/alerts/src/manager.rs:173-177 | A cleared manager goes through every further run as a new one does |
| AlertRuns.RestoredIsList | crates/alerts/src/manager.rs:508-512 | A restored manager depends on the list alone; the next id is the one after the largest, or 1 |
| AlertRuns.ForgottenPrices | crates/alerts/src/manager.rs:173-177 | After a clear or a restore no crossing is reported by the next tick of any window |
| AlertRuns.RunKeepsIds | crates/alerts/src/manager.rs:76-201 | Ids stay distinct and below the next id in every run in which restored lists are themselves distinct |
| AlertRuns.OwnSnapshotRestores | crates/alerts/src/manager.rs:503-512 | Restoring a snapshot taken in any run keeps ids distinct |
| AlertRuns.StepOnItem | crates/alerts/src/manager.rs:311-383 | A call that does not edit an alert acts on it alone, and reports its id exactly when it fired |
| AlertRuns.SignalReported | crates/alerts/src/manager.rs:410-496 | An alert is reported by a signal batch exactly when it is an active signal alert of the window and some event is of its indicator, above zero for bullish and below for bearish, formed if it asks for that, and of its kind if it names one |
| AlertRuns.FiringLeaves | crates/alerts/src/manager.rs:363-372 | What either checker leaves on an alert: a stamp and one more in the count when it fired, and by a tick the level; no other field but the status changes |
| AlertRuns.TriggerAccounting | crates/alerts/src/manager.rs:369-493 | Over both checkers: after any run without edits of the alert, its count grew by its number of firings, it is active exactly as long as its mode allows, and nothing else of it changed but the remembered level and the stamp |
| AlertRuns.FiringLimits | crates/alerts/src/manager.rs:374-382 | OneShot fires at most once, TimesN(n) at most n times and turns triggered at exactly the n-th, EveryTime stays active |
| AlertRuns.OneCheckerOnly | crates/alerts/src/manager.rs:276-421 | No alert can be fired by both checkers |
| AlertRuns.NonInterference | crates/alerts/src/manager.rs:313-391 | An alert bound to symbol, exchange and account ends, in any interleaved run, exactly as in the run of the ticks of its own price key and the signal batches of its window alone, fires at the same events and at no other call; nothing is asked of other windows |
| AlertRuns.WindowRunAlone | crates/alerts/src/manager.rs:313-391 | For names without colons, and no tick that spells the key as a symbol, the same with the calls for its window alone: same final state, same firings, none at another call |
| AlertRuns.EditOnItem | crates/alerts/src/manager.rs:116-159 | An edit reaches the alert with the id, fires nothing and leaves the last prices alone |
| AlertRuns.WindowKeyUnique | crates/alerts/src/manager.rs:329-333 | Two windows share a price key if and only if they are equal or one spells the whole key as a symbol without exchange |
| AlertHistory.ManagerFiringsAreEvents | crates/alerts/src/manager.rs:301-393 | Sound and complete inside the manager: in any interleaved run, edits of the alert included, a new price alert or drawing alert of fixed geometry is reported at a tick if and only if its event happens there unhidden by a zero and its mode is not used up; and it is reported at exactly its events if and only if none of those due directly follows a zero price or level |
| AlertHistory.ManagerFiringsExact | crates/alerts/src/manager.rs:301-393 | What is reported in any run, without any condition on prices, levels, geometry or other windows: the ticks of the price key at which the condition holds against the previous price of the key and the latest level, until the mode is used up |
| AlertHistory.FiringsExact | crates/alerts/src/manager.rs:336-383 | The same for a history, with the active flag, count and remembered level it leaves |
| AlertHistory.FiringsAreDetections | crates/alerts/src/manager.rs:336-367 | Where levels are contiguous these are exactly the crossings since the tick before, and the ticks beyond the level, that follow no zero |
| AlertHistory.ZeroesLoseEvents | crates/alerts/src/manager.rs:336-361 | The alert reports exactly its events if and only if none of those due directly follows a zero price or level |
| AlertHistory.ZeroHidesCrossing | crates/alerts/src/manager.rs:336-343 | A run from the new manager in which a price of zero makes the alert miss its event |
| AlertHistory.FiringsAreEvents | crates/alerts/src/manager.rs:336-367 | In particular when no price and no level is zero |
| AlertHistory.RunsAsAlone | crates/alerts/src/manager.rs:301-393 | Among any other calls the alert behaves as it would if only the ticks of its price key and its own edits existed, and fires at no other call |
| AlertHistory.SteadyContiguous | crates/alerts/src/manager.rs:224-265 | With fixed drawings and non-decreasing bars the ticks that have a level are contiguous, in every extend mode |
| AlertHistory.SignChangeFires | crates/alerts/src/manager.rs:336-361 | Between any two ticks of an EveryTime alert on different sides of its level, however far apart, the manager reports it, or a zero hides the crossing |
| AlertHistory.UpFiringsSeparated | crates/alerts/src/manager.rs:337-343 | Between two upward reports of the manager some tick was strictly below the level |
| AlertHistory.EventIsStatelessCheck | crates/alerts/src/crossing.rs:9-24 | For a price alert not edited in between the event is the stateless crossing check on consecutive ticks |
| AlertHistory.EditJudgesNextTick | crates/alerts/src/manager.rs:116-159 | After an edit of its price by either call, and perhaps of its condition and other fields, a crossing alert reports the next tick as the stateless check at the new price would, if and only if a stated condition on the four prices holds |
| AlertHistory.EditHarmless | crates/alerts/src/manager.rs:116-131 | That condition holds for every next tick if and only if the last price lies on the same side of the old and the new price, which can be checked before the edit |
| AlertHistory.EditFakesCrossing | crates/alerts/src/manager.rs:116-131 | A run from the new manager in which an edit makes an alert report a crossing while the market stands still |
| AlertHistory.IntruderHarmless | crates/alerts/src/manager.rs:329-391 | A tick of another window with the price key of an alert makes no difference to any next tick of the alert if and only if the last price and the price of the tick lie on the same side of the remembered level, as far as the condition looks and counting zero as none: to be checked before the tick |
| AlertHistory.IntrudedTick | crates/alerts/src/manager.rs:329-367 | What a given next tick is compared with after such a tick, and without it |
| AlertHistory.SharedKeyHidesCrossing | crates/alerts/src/manager.rs:329-391 | A run in which such a tick hides a crossing, beside the run without it |
| GpuPipeline.OutstandingIsPendingPlusTimeouts | crates/chart-app-vello/src/main.rs:1642-1690 | In every run the submits not yet acknowledged are one if a frame is pending plus one for each timed-out wait |
| GpuPipeline.HandOffSafe | crates/chart-app-vello/src/main.rs:4214-4321 | At every swap, send, window drop and at closing, both channels are empty and the render thread is not working if and only if no wait ever timed out; then the capacity-1 send cannot block |
| GpuPipeline.HarmlessAfterTimeout | crates/chart-app-vello/src/main.rs:1653-1664 | After timeouts the render thread holds nothing at such a point if and only if as many acknowledgements have come in as waits have timed out |
| GpuPipeline.WaitsEnd | crates/chart-app-vello/src/main.rs:1672-1765 | Whenever the main thread is blocked the render thread has work left, and in timeout-free runs its next step is enabled: there is no deadlock |
| GpuPipeline.StoppedIsQuiet | crates/chart-app-vello/src/main.rs:2725-2743 | When the main thread has stopped the render thread is gone, the command channel is empty, and only the acknowledgements of timed-out waits were never taken |
| GpuPipeline.WholeLife | crates/chart-app-vello/src/main.rs:2725-2780 | A run from the first window to the end of both threads: a frame is drawn and acknowledged, the window dropped, the shutdown taken and joined |
| GpuPipeline.RenderStepsEnd | crates/chart-app-vello/src/main.rs:1715-1760 | Each step of the render thread uses up one unit of its remaining work, so every wait ends |
| GpuPipeline.PipelinedRun | crates/chart-app-vello/src/main.rs:4293-4364 | In timeout-free runs every scene made for a window is drawn, in flight or on the CPU side, in this order, each once |
| GpuPipeline.RenderingRefinesBuilding | crates/chart-app-vello/src/main.rs:4293-4364 | In timeout-free runs, under any pattern of minimising, the scenes drawn are the initial scene and then the built ones in build order, one frame late, none skipped or repeated; and the render thread only holds live windows |
| GpuPipeline.SwapWhileBusy | crates/chart-app-vello/src/main.rs:1653-1664 | A concrete run: after a timed-out wait the main thread may swap scenes that the render thread is reading |
| SubPanes.SyncWindow | crates/chart-app/src/lib.rs:5205-5338 | The three passes and the renumbering, for one window |
| SubPanes.PaneHost.SyncSubPanesFromManager | crates/chart-app/src/lib.rs:5183-5344 | In whatever order the leaves come, the window of every chart shown is synchronised with its instances outside the main pane and with what was pending for it, every other window is untouched, and nothing is pending afterwards |
| SubPanes.InSubPanesMembers | crates/chart-app/src/lib.rs:5211-5226 | The instances of a window are exactly those listed for its chart that exist with a pane above zero, with their price ranges |
| SubPanes.WindowInstances | crates/chart-app/src/lib.rs:5186-5226 | The instances of a window are those listed for its chart, with price ranges over the visible bars that exist |
| SubPanes.InSubPanesAppend | crates/chart-app/src/lib.rs:5211-5226 | In the order listed |
| SubPanes.SyncOrder | crates/chart-app/src/lib.rs:5281-5337 | The panes are the surviving ids of the saved order, else of the present order, then the newcomers in instance order; index equals position |
| SubPanes.SyncExact | crates/chart-app/src/lib.rs:5281-5331 | The panes are exactly the instances, and without duplicates if and only if the starting order names no instance twice |
| SubPanes.KeepInAppend | crates/chart-app/src/lib.rs:5281-5317 | The pass over the starting order keeps what is still there in order |
| SubPanes.KeepOutAppend | crates/chart-app/src/lib.rs:5319-5331 | The pass over the instances adds what is new in order |
| SubPanes.SyncFields | crates/chart-app/src/lib.rs:5248-5275 | A surviving pane keeps every field but its index and what was pending for it; a new one starts from its price range |
| SubPanes.NewcomerFields | crates/chart-app/src/lib.rs:5256-5278 | All fields of a newcomer: those of a new pane, with the price range of its instance, its position, and the pending height ratio and flag |
| SubPanes.PendingApplied | crates/chart-app/src/lib.rs:5229-5234 | The panes of a window show the height ratios, flags and order that were pending for that window |
| SubPanes.SyncIdempotent | crates/chart-app/src/lib.rs:5183-5344 | A second sync changes nothing, for all panes, instances and saved orders, repeated ids included |
| SubPanes.SyncTwice | crates/chart-app/src/lib.rs:5229-5338 | Nor does a second sync before the pending restore is forgotten, as when two leaves show one chart |
| SubPanes.SyncFixpoint | crates/chart-app/src/lib.rs:5281-5337 | Panes that already are the instances, numbered by position and restored, stay as they are |
| Calendar.Decompose | crates/chart-app-vello/src/screenshot.rs:27-63 | The year and month loops end in a valid Gregorian date whose Seconds Since the Epoch (section 4.16 of the POSIX.1-2017 Base Definitions) are the given count |
| Calendar.TimestampForFilename | crates/chart-app-vello/src/screenshot.rs:17-68 | The name spells the one valid date of the second count |
| Calendar.BillionthSecond | crates/chart-app-vello/src/screenshot.rs:25-67 | The date and the name of the billionth second |
| Calendar.MonthLengths | crates/chart-app-vello/src/screenshot.rs:49-55 | The length of every month |
| Calendar.NextYear | crates/chart-app-vello/src/screenshot.rs:41-48 | The closed form adds a leap day after exactly the leap years of the loop |
| Calendar.EarlierIsSmaller | crates/chart-app-vello/src/screenshot.rs:17-68 | The closed form is strictly monotone on valid dates |
| Calendar.SameSecondsSameDate | crates/chart-app-vello/src/screenshot.rs:17-68 | So the decomposition is its only inverse |
| Calendar.NamesSortByTime | crates/chart-app-vello/src/screenshot.rs:64-67 | Up to the year 9999 names sort lexicographically if and only if their times do |
| Calendar.NamesSortExactly | crates/chart-app-vello/src/screenshot.rs:64-67 | Names of all dates up to a given year sort in time order if and only if the year has at most four digits |
| Calendar.FourDigitYears | crates/chart-app-vello/src/screenshot.rs:64-67 | Those are exactly the second counts below 253402300800 |
| Calendar.Year10000Counterexample | crates/chart-app-vello/src/screenshot.rs:64-67 | At the end of 9999 the order of names breaks |
| Screenshot.CaptureScreenshot | crates/chart-app-vello/src/screenshot.rs:208-247 | The loops never index out of range nor leave 32 bits, and give the captured image; a frame without area gives none |
| Screenshot.PixelsExact | crates/chart-app-vello/src/screenshot.rs:208-246 | Output pixel (r, c) is the padded source pixel at the clamped crop origin plus (r, c), or of the full frame when there is no crop or the clamped crop is empty |
| Screenshot.CropExact | crates/chart-app-vello/src/screenshot.rs:208-246 | A crop that starts inside the frame and has an area gives the part of it that lies in the frame, each pixel (r, k) being source pixel (y + r, x + k) of the crop origin (x, y); any other crop, and none, gives the full frame |
| Screenshot.PaddedRowIs | crates/chart-app-vello/src/screenshot.rs:128-136 | A padded row is the least multiple of 256 bytes that holds four bytes a pixel |
| Screenshot.Unpad | crates/chart-app-vello/src/screenshot.rs:213-217 | The unpadding loop takes the unpadded part of every row |
| Screenshot.CropRows | crates/chart-app-vello/src/screenshot.rs:235-239 | The crop loop takes the rectangle of every row in it |
| Cleanup.BarStoreCleanup.RunCleanup | crates/bar-store/src/cleanup.rs:75-122 | What is left on disk and both counters: stale files that can be removed are gone, then what the size pass evicts |
| Cleanup.BarStoreCleanup.EvictPass | crates/bar-store/src/cleanup.rs:104-113 | The eviction loop removes exactly the evicted files and counts them |
| Cleanup.CleanupCorrect | crates/bar-store/src/cleanup.rs:85-114 | When all removals succeed: survivors are recent and fit the limit, no evicted file is newer than a survivor, and the newest evicted file would exceed it |
| Cleanup.CleanupAccounting | crates/bar-store/src/cleanup.rs:97-114 | With failing removals the total is the size of the listed files not removed, and stays over the limit only if all of them cannot be removed |
| Cleanup.BytesLeft | crates/bar-store/src/cleanup.rs:85-114 | The listed bytes a cleanup leaves on disk, whatever cannot be removed, are those the size pass keeps plus the stale files that cannot be removed; so the listed files fit the limit exactly when that sum does |
| Cleanup.StuckKeepsCacheFull | crates/bar-store/src/cleanup.rs:85-114 | An input for which nothing is evicted and the cache stays over its limit, since a stale file cannot be removed |
| Cleanup.EvictAccounting | crates/bar-store/src/cleanup.rs:104-113 | The running total is the size of the listed files not yet removed, and the pass ends when it fits or when no file left can be removed |
| Cleanup.EvictMinimal | crates/bar-store/src/cleanup.rs:104-113 | The shortest run of oldest files whose removal makes the rest fit |
| Cleanup.SortedCorrect | crates/bar-store/src/cleanup.rs:103 | The sort is oldest first, a permutation, and stable |

## Left out

- Durability.ShutdownIsDurable: assumes that writes succeed, that no file is deleted during the run, that a file is loaded only while it is current (the exact condition, by Durability.SafeSeed; the program loads at startup), that keys do not share a file (Durability.OwnPathsExactly says when), and that flushed lists are shorter than 2^32.
- BarFormat.CorruptionDetected: is about one changed byte; two or more changes can cancel in any 32-bit checksum. The four count bytes have their own statement, BarFormat.CountCorruption.
- Gaps.NoGapsExactly: asks for a capacity of at least 2, since a single bar is always consecutive.
- AlertHistory.ManagerFiringsAreEvents: is about a run in which the alert is neither removed nor edited into a signal alert or another window, and in which only ticks of its own window use its price key; AlertHistory.ManagerFiringsExact says what is reported when others do, and AlertHistory.IntruderHarmless exactly when that makes a difference. Indicator alerts are covered by AlertHistory.FiringsAreDetections when their levels are contiguous.
- Screenshot.CaptureScreenshot: asks that the padded buffer be shorter than 2^32 bytes, as the 32-bit arithmetic needs, and that the GPU delivered the whole buffer.
- SubPanes.PaneHost.SyncSubPanesFromManager: the price range of an instance over the visible bars is a parameter.
- SubPanes.SyncExact: asks for distinct instances, as a chart lists each once; a repeated id in a saved order does give a repeated pane, as it says.
- Cleanup.BarStoreCleanup.RunCleanup: files appear or vanish only through the cleanup itself while it runs; the directory scan, the clock and u64 overflow of sizes are not modelled.
- GpuPipeline.RenderingRefinesBuilding: a render thread that crashes, surfaces of zero size and the rendering itself are not modelled; every window of a submit is drawn.
- BarStore.WriteAtomic: takes the rename as one step and the steps as reaching the disk in the order of the calls; caching by the operating system is not modelled.
- Overflow of 64-bit and 32-bit counters and of timestamp sums near the ends of their range (version, trigger count, next id, last timestamp plus period) is not modelled; they are unbounded.
- Lock poisoning, the sharing of the series map with asynchronous tasks, and other access paths into the series map: the service is single-threaded, as its comments say.
- Lower-casing of exchange names in paths is modelled for ASCII letters only.
- Failing writes, `delete_file`, `remove_series` and `clear_all`: a queued write can bring a deleted file back.
- Rounding and NaN in alert prices; direct edits through `get_mut`; the alert fields that the manager never reads (creation and expiry times).
- `OncePerBar`, `expires_at`, range, moving and pair conditions: the code does not act on them.
- Text of log lines, alert delivery, display names, PNG encoding, GPU buffers, networking, key storage, profiles and the user interface.
