# Market data and order core: a verified model

A Dafny model of the market-data and order core of the brokerage service, with proofs of what its
components promise to each other. `dafny verify dfyconfig.toml` checks the whole project.

Times are integer epoch seconds, prices are reals, dictionaries keyed by timestamp are maps. Where the
program changes an object or a dictionary step by step, the model is a class or a method with loops whose
contract ties it to a function of its inputs or of its old state; what the program promises is then proved
about that function.

## What is modelled

| files | component |
|---|---|
| `Months`, `SyncModel`, `SyncInvariant`, `SyncSafety`, `SyncTheorems`, `SyncHistory`, `SyncProgress`, `SyncLimits`, `SyncManager` | The concurrent sync manager as a step system: every `await` ends a step, any number of jobs, workers and callers interleave, every fetch, write, coverage and quality outcome is free, and the process may restart at any time. `SyncManager` is the object itself, one method for the code between two suspension points. |
| `Ticks`, `TickRebuild`, `TickLog`, `CandleFeed`, `CandleAgreement`, `CandleIngest`, `CandleLimits` | The live path from polled tick to stored candle, the tick recorder's file, the offline rebuild of the candles from that file, and when the two sides agree. |
| `Aggregation` | One-minute candles to higher timeframes. |
| `OhlcvStitcher`, `OhlcvPaging` | Paginated reads over the historical and the realtime source. |
| `GapValidator`, `ReadThrough` | Gaps of a series and filling them in the response. |
| `Rollover` | Quarantine of anomalous days and the monthly merge. |
| `MarketHours` | The 24/5 calendar scan and its two counters. |
| `Indicators`, `Backtest` | EMA, RSI and ATR recurrences; the two trade simulators and the key figures. |
| `Operations`, `Orders` | The operation store with its log; opening and closing orders in the background. |
| `DataLayer`, `GateCount` | Degradation of symbols in the production data layer, and what its missing-minutes gate counts. |
| `RebuildCoverage`, `CoverageIndex` | The coverage index and its rebuild from disk. |
| `Series` | Candles, and dictionaries read back in timestamp order, shared by the above. |

## What turned out differently

The code is modelled as it is. Where a natural claim is false of it, the project proves when it holds and
gives an input for which it does not.

- The month lock of the sync manager names the timeframe, the partition does not: two jobs that differ only
  in timeframe can work on the same month at once (`SyncTheorems.OneWorkerPerMonth`, `SyncLimits.TwoTimeframesMeet`),
  and a month that passed the quality gate can be fetched and written once more (`SyncLimits.PassedMonthIsWrittenAgain`).
  That happens exactly when a worker of another timeframe was in its retry loop for the month all along
  (`SyncHistory.PassedMonthIsFetchedOnlyFromInside`); no later check by any job leads there (`SyncHistory.NoNewFetchOfAFile`).
- With `SYNC_WORKERS` at zero or below a job ends DONE with its months untouched; the accounting holds
  exactly when there is a worker or nothing to do (`SyncTheorems.AccountingNeedsAWorker`, `SyncLimits.NoWorkersNoWork`).
- The remaining-work figure behind the ETA counts empty months as left and takes out the months skipped at
  planning, which the total never contained: it is right exactly when these are equally many, and a run with
  two of four months on disk shows it negative (`SyncTheorems.RemainingIsOffBySkippedAtPlanning`,
  `SyncLimits.EstimateGoesNegative`).
- An empty mark survives only until the next rebuild of the symbol lands: a worker skips a month without a
  file exactly when it was marked and no rebuild landed since, so the next job fetches it again
  (`SyncHistory.EmptyMonthIsSkippedIff`, `SyncLimits.ConfirmedEmptyIsFetchedByTheNextJob`,
  `RebuildCoverage.OnlyFilesAreRemembered`).
- The tick recorder drops every tick that repeats the timestamp of the one before it, the service buckets it
  (`CandleFeed.FileMissesRepeats`); a tick accepted after its minute was flushed reopens the minute and the
  store refuses the second candle. Either way the live candle can differ from the one rebuilt from the file
  (`CandleLimits.RepeatedTimestampBreaksAgreement`, `CandleLimits.LateTickBreaksAgreement`), but need not
  (`CandleLimits.LateRepeatIsHarmless`). `CandleAgreement.AgreesIff` says exactly when they agree, tick by
  tick, the two calendars, the loaded range and the spike filter included.
- The poll backoff does not grow with the number of failures (`CandleIngest.IngestService.PollFailed`).
- A stitched page looks like the last one although rows remain exactly when more than a page of historical
  rows follow the cursor and every realtime row after it falls on a historical row of the page
  (`OhlcvPaging.StopsEarlyIff`). A cursor before the requested window can break the page itself: exactly when
  it is served rows before the window, or when the cut loses a window row that belongs on the page
  (`OhlcvPaging.PageIsHeadIff`, `OhlcvPaging.CursorBeforeWindowSkipsARow`).
- The read-through count is the true one for every window whose length and minutes agree when the stored
  candles lie on the minute; otherwise it is too low unless nothing is missing, and it can be exceeded by what
  is filled (`ReadThrough.MaybeFillGapsResponseOnly`, `ReadThrough.UnalignedWindowMiscounts`, `ReadThrough.OffMinuteMiscounts`).
- The closed-minute count is additive except when the cut falls inside a closed minute (`MarketHours.CountAdds`),
  and so the missing-minutes gate can be one too low; it is also lowered by every stored candle that starts on
  no open minute (`GateCount.GateCountsMissingOpenMinutes`).
- Two closes of the same position with the same client id both run unless the first has completed before the
  second is requested (`Orders.CloseIsRepeatedUnlessCompleted`, `Orders.TwoConcurrentCloses`).
- A status change whose log append failed is undone by a rehydration exactly when the lines that are read
  mention the operation (`Operations.LostUpdateSurvivesIff`).
- A month whose candles are all quarantined is not rewritten and keeps the rows of the quarantined days it
  already had (`Rollover.QuarantinedRowSurvivesIff`, `Rollover.QuarantinedRowStays`).
- The documentation of the coverage rebuild writes month directories without zero padding; with such names
  the listing is not in calendar order and holes can go unreported: those outside the done months listed first
  and last (`RebuildCoverage.HoleIsHiddenIff`, `RebuildCoverage.UnpaddedMonthsHideAHole`). The store pads them.
- A flat series has an RSI of 100, not 50, and so does its mirror image (`Indicators.RsiMirror`).

## Model

| member | source | states |
|---|---|---|
| `Months.SpanIsTheRange` | application/data/sync_manager.py:144-153 | The months of a range are exactly the calendar months between its ends, each once. |
| `Months.MonthsInRange` | application/data/sync_manager.py:144-153 | The month walk returns every month of the range in calendar order, and none for an empty range. |
| `Months.WithoutSplits` | application/data/sync_manager.py:221-223 | Removing the months found on disk splits the range: removed and remaining add up. |
| `SyncTheorems.PlanSplitsRange` | application/data/sync_manager.py:217-241 | A new job plans exactly the months of its range that are not on disk, and `skipped` counts the others. |
| `SyncTheorems.FinishedJobIsAccountedFor` | application/data/sync_manager.py:267-317 | In every interleaving, when a job ends, done + empty + failed + skipped is its range, each planned month was counted once, `failed_months` has no repeats and `failed` entries, suspect months are done, and DONE means no failure. |
| `SyncTheorems.AccountingNeedsAWorker` | application/data/sync_manager.py:297-311 | The accounting holds if and only if there is a worker or nothing was planned. |
| `SyncLimits.NoWorkersNoWork` | application/data/sync_manager.py:297-311 | A run with no workers that ends DONE with its month neither done, empty, failed nor skipped. |
| `SyncTheorems.OneRunningJobPerKey` | application/data/sync_manager.py:199-245 | In every reachable state at most one job per key is RUNNING. |
| `SyncTheorems.FinishedStaysFinished` | application/data/sync_manager.py:531-550 | A job that is no longer RUNNING never runs again, restarts included. |
| `SyncTheorems.OneWorkerPerMonth` | application/data/sync_manager.py:329-341 | Two workers inside sections of the same partition are the same worker, unless their jobs name different timeframes. |
| `SyncLimits.TwoTimeframesMeet` | application/data/sync_manager.py:506-510 | A run in which jobs for two timeframes fetch the same partition at once. |
| `SyncHistory.PassedMonthIsFetchedOnlyFromInside` | application/data/sync_manager.py:329-341 | After a month passed the gate a worker of any job can attempt to fetch or write it if and only if it has been in its retry loop for it ever since, in a job of another timeframe. |
| `SyncHistory.NoNewFetchOfAFile` | application/data/sync_manager.py:334-341 | Once the file of a month exists no check by any job, whatever the coverage index answers, leads to a fetch of it. |
| `SyncLimits.PassedMonthIsWrittenAgain` | application/data/sync_manager.py:506-510 | A run in which a month that passed the gate for one timeframe is fetched and written again by a job for another. |
| `SyncTheorems.DoneMonthsAreOnDisk` | application/data/sync_manager.py:483-496 | Every month any job reports done is on disk, now and after restarts. |
| `SyncHistory.EmptyMonthIsSkippedIff` | application/data/sync_manager.py:343-359 | A worker that finds no file and can read the index skips its month if and only if some job, or the index at the start, marked it empty and no rebuild of the symbol landed since; otherwise it fetches it. |
| `SyncHistory.OnlyTheBlindFetchConfirmed` | application/data/sync_manager.py:345-361 | A month marked empty for a timeframe since the last rebuild is in the retry loop only of a worker that could not read the index. |
| `SyncLimits.ConfirmedEmptyIsFetchedByTheNextJob` | application/data/sync_manager.py:343-359 | A run in which a month confirmed empty by one job is fetched by the next. |
| `SyncTheorems.RemainingIsOffBySkippedAtPlanning` | application/data/sync_manager.py:91-95 | For every live job of a run the figure is the months queued or in hand plus the empty ones minus those skipped at planning; when it is right, when it is negative, and when the snapshot uses it. |
| `SyncLimits.EstimateGoesNegative` | application/data/sync_manager.py:91-95 | A run in which the snapshot uses a figure of minus one while one month is left. |
| `SyncProgress.NoDeadlock` | application/data/sync_manager.py:329-341 | In every reachable state with unfinished work some task can take a step. |
| `SyncProgress.TasksRunOut` | application/data/sync_manager.py:280-298 | Without new requests only boundedly many steps follow, and a stretch that cannot go on ends with everything finished. |
| `SyncSafety.StepKeeps` | application/data/sync_manager.py:319-504 | Every step of every task keeps the invariant on jobs, counters, locks, registry, histories and files. |
| `SyncSafety.RunInv` | application/data/sync_manager.py:163-180 | The invariant holds in every state of every run. |
| `SyncManager.Manager.constructor` | application/data/sync_manager.py:163-180 | A new manager is in an initial state and valid. |
| `SyncManager.Manager.EnterStart` | application/data/sync_manager.py:199-215 | A request reuses the running job of its key or starts scanning under the global lock. |
| `SyncManager.Manager.PlanMonths` | application/data/sync_manager.py:219-223 | The months to do are those of the range not found on disk. |
| `SyncManager.Manager.LandStart` | application/data/sync_manager.py:213-215 | The rebuild thread of a waiting request rewrites the index of its symbol from disk, while others may run. |
| `SyncManager.Manager.CompleteStart` | application/data/sync_manager.py:217-253 | Registers the new job with its plan and its skipped months and releases the lock. |
| `SyncManager.Manager.LaunchJob` | application/data/sync_manager.py:267-298 | Ends an empty job at once, or fills the queue and starts as many workers as there are months, at most the configured number. |
| `SyncManager.Manager.TakeMonth` | application/data/sync_manager.py:280-289 | A worker takes the next month of the queue or leaves. |
| `SyncManager.Manager.AcquireMonth` | application/data/sync_manager.py:329-330 | A worker enters the section of its month only when nobody holds its lock. |
| `SyncManager.Manager.CheckMonth` | application/data/sync_manager.py:334-359 | Skips a month on disk or marked empty; an unreadable index leads to a fetch. |
| `SyncManager.Manager.AttemptReturned` | application/data/sync_manager.py:375-470 | One attempt of the retry loop: fetch, empty answer, write, quality gate, and where the loop goes next. |
| `SyncManager.Manager.CommitUpdate` | application/data/sync_manager.py:472-504 | A counter update under the global lock, the coverage mark before it, and the release of the month lock. |
| `SyncManager.Manager.LandFinal` | application/data/sync_manager.py:300-305 | The thread of the final rebuild rewrites the index of the symbol from disk. |
| `SyncManager.Manager.FinishJob` | application/data/sync_manager.py:300-317 | After the final rebuild, landed or raised, the status is DONE exactly when nothing failed. |
| `SyncManager.Manager.PersistJobs` | application/data/sync_manager.py:516-529 | Saves some of the jobs as they are. |
| `SyncManager.Manager.LoadJobs` | application/data/sync_manager.py:531-550 | After a restart saved RUNNING jobs are INTERRUPTED and no key refers to a job. |
| `SyncManager.Manager.StaysValid` | application/data/sync_manager.py:156-180 | Every method keeps the manager valid. |
| `TickRebuild.MedianWithinRange` | application/tools/ostium_rebuild_candles_from_ticks.py:121-135 | The median lies between the smallest and the largest price. |
| `TickRebuild.MedianSplits` | application/tools/ostium_rebuild_candles_from_ticks.py:121-135 | At least half of the prices reach the median and at least half do not exceed it. |
| `TickRebuild.FilterKeepsHalf` | application/tools/ostium_rebuild_candles_from_ticks.py:121-135 | With a factor of at most one and non-negative prices the filter keeps at least half of a minute's prices. |
| `TickRebuild.FilterInactive` | application/tools/ostium_rebuild_candles_from_ticks.py:121-135 | The spike filter changes a bucket if and only if some price is below the threshold and some is not. |
| `TickRebuild.FallbackNeverNeeded` | application/tools/ostium_rebuild_candles_from_ticks.py:121-135 | With a factor of at most one and non-negative prices the filter keeps exactly the prices at or above the threshold. |
| `TickRebuild.BucketTicks` | application/tools/ostium_rebuild_candles_from_ticks.py:98-109 | The buckets are the minutes with ticks, each with its prices in arrival order. |
| `TickRebuild.RebuildCandles` | application/tools/ostium_rebuild_candles_from_ticks.py:138-213 | The loop returns the rebuild of the ticks, and every counter is what its name says. |
| `TickRebuild.RebuildIs` | application/tools/ostium_rebuild_candles_from_ticks.py:138-213 | Exactly one candle per open minute of the range with ticks, in time order. |
| `CandleFeed.RunKeeps` | application/services/ostium_candle_ingest_service.py:284-456 | Every run of polls and flushes, crashes in the middle of a flush included, keeps the invariant on buckets, accepted ticks, order, contents and cover. |
| `CandleFeed.StoredInOrder` | application/services/ostium_candle_ingest_service.py:415-456 | Candles are appended in strictly increasing time order, nothing stored is replaced, and each is the bar of the ticks that had arrived. |
| `CandleFeed.FlushRemovesClosedMinutes` | application/services/ostium_candle_ingest_service.py:452-456 | A flush removes exactly the buckets before the current minute, and all of them are stored. |
| `CandleFeed.FileInOrder` | application/services/ostium_tick_recorder.py:75-105 | In every run the recorder's file is strictly increasing in time, so the tool's sort changes nothing. |
| `CandleFeed.FileMissesRepeats` | application/services/ostium_tick_recorder.py:80-88 | While its writes succeed the file misses exactly the accepted ticks that repeat the timestamp before them, or are not after 1970. |
| `TickLog.StoryIs` | application/tools/ostium_rebuild_candles_from_ticks.py:67-135 | Marking each accepted tick of a minute by whether it was recorded, loaded and kept by the filter tells both the service's prices and the tool's. |
| `TickLog.SameBarIff` | application/tools/ostium_rebuild_candles_from_ticks.py:171-191 | The candle stored after some ticks and the candle of the used ticks are equal if and only if first and last price agree, no unused stored tick leaves the range of the used ones and no late used tick leaves that of the candle. |
| `CandleAgreement.AgreesIff` | application/tools/ostium_rebuild_candles_from_ticks.py:138-213 | Over every drained run from an empty store, the candles stored in a range equal the rebuild of the file if and only if the calendars agree on every minute with a used tick or a stored candle and each minute's ticks satisfy that condition. |
| `CandleAgreement.LiveEqualsBatch` | application/services/ostium_candle_ingest_service.py:336-358 | When each minute's ticks arrive before its first flush, no timestamp repeats, writes succeed, and within a range ending on a minute the calendars agree and the filter is inactive, live and rebuilt candles are equal. |
| `CandleIngest.IngestService.AcceptTickTimestamp` | application/services/ostium_candle_ingest_service.py:396-413 | Accepts a tick that is not stale, not from the future and not older than the last one, and records it. |
| `CandleIngest.IngestService.RecordTick` | application/services/ostium_tick_recorder.py:75-105 | A line is written exactly for a tick newer than the last line whose write succeeds; anything else leaves the file as it is. |
| `CandleIngest.IngestService.PollTick` | application/services/ostium_candle_ingest_service.py:328-358 | A polled price performs the feed's poll for its symbol, bucket and recorder's file included, and leaves every other symbol alone; only transient degradation recovers. |
| `CandleIngest.IngestService.PollFailed` | application/services/ostium_candle_ingest_service.py:359-366 | From the third failure on the backoff is twice the base whatever it was before. |
| `CandleIngest.IngestService.AggregateTicks` | application/services/ostium_candle_ingest_service.py:61-79 | The closed minutes become candles in time order. |
| `CandleIngest.IngestService.FlushClosedMinutes` | application/services/ostium_candle_ingest_service.py:415-456 | A flush performs the feed's flush for its symbol, also when an append raises, and leaves every other symbol alone. |
| `CandleLimits.RepeatedTimestampBreaksAgreement` | application/services/ostium_tick_recorder.py:84-86 | A run with every tick in time whose live candle closes at 2 and whose rebuilt candle closes at 1, because the second tick repeats a timestamp. |
| `CandleLimits.LateTickBreaksAgreement` | application/services/ostium_candle_ingest_service.py:401-405 | A run in which a late tick reopens a flushed minute, the store refuses its second candle, and the stored candle differs from the rebuilt one. |
| `CandleLimits.LateRepeatIsHarmless` | application/services/ostium_tick_recorder.py:84-86 | A run with a late tick that repeats a timestamp, in which both sides agree. |
| `Aggregation.AggregateToTf` | application/tools/aggregation_report.py:40-65 | The bucket loop computes the aggregation. |
| `Aggregation.AggregateOrdered` | application/tools/aggregation_report.py:40-65 | Bucket times strictly increase, one bar for each bucket that holds a candle. |
| `Aggregation.AggregateConservesVolume` | application/tools/aggregation_report.py:40-65 | Every aggregation, of candles in any order, conserves total volume. |
| `Aggregation.AggregateSound` | application/tools/aggregation_report.py:40-65 | Candles that keep the OHLC order aggregate to bars that keep it. |
| `Aggregation.AggregationComposes` | application/tools/aggregation_report.py:40-65 | For sorted candles, aggregating to a timeframe and then to a multiple of it equals aggregating directly. |
| `Aggregation.CheckInvariants` | application/tools/aggregation_report.py:112-128 | The check reports exactly the bars outside the tolerance, with the first three as examples. |
| `Aggregation.AggregatePassesCheck` | application/tools/aggregation_report.py:112-128 | The check passes on every aggregation of sound candles. |
| `OhlcvStitcher.StitchOhlcvMixed` | application/data/mixed_ohlcv_stitcher.py:112-187 | The stitcher returns the page, the successor and the source of the merge of its two inputs. |
| `OhlcvStitcher.CutThenMerge` | application/data/mixed_ohlcv_stitcher.py:139-154 | Cutting the historical rows to the limit before merging does not change the first `limit` rows of the merge. |
| `OhlcvStitcher.PageIsHeadOfRemaining` | application/data/mixed_ohlcv_stitcher.py:135-154 | A page is exactly the first `limit` rows after the cursor of the full overlay, realtime winning. |
| `OhlcvPaging.PageIsHeadIff` | application/data/mixed_ohlcv_stitcher.py:125-154 | For every cursor: the page is the head of the overlay if and only if, without realtime rows, the query selects no row before the window, and with them, no window row is lost to the cut or `limit` rows of the merge lie before the first one lost. |
| `OhlcvPaging.CursorBeforeWindowSkipsARow` | application/data/mixed_ohlcv_stitcher.py:146-154 | A request whose page is the realtime row while a historical row of the window is skipped. |
| `OhlcvPaging.StopsEarlyIff` | application/data/mixed_ohlcv_stitcher.py:174-175 | The exact condition under which a page announces no successor although rows remain. |
| `OhlcvPaging.NextRemaining` | application/data/mixed_ohlcv_stitcher.py:174-175 | Moving the cursor to the end of a page leaves exactly the rows after it. |
| `OhlcvPaging.FollowIsPrefix` | application/data/mixed_ohlcv_stitcher.py:152-187 | Following `next_ts` terminates and yields a strictly increasing prefix of the overlay. |
| `OhlcvPaging.FollowIsWhole` | application/data/mixed_ohlcv_stitcher.py:125-187 | It yields the whole overlay when realtime is empty or its last row is later than every historical row in range. |
| `OhlcvPaging.WalkCanStopEarly` | application/data/mixed_ohlcv_stitcher.py:174-175 | Two historical rows, one realtime row on the first and pages of one row: the walk stops after the first. |
| `GapValidator.FindGaps` | infrastructure/storage/gap_validator.py:169-231 | The loop returns the gaps before, between and after the candles. |
| `GapValidator.Validate` | infrastructure/storage/gap_validator.py:90-166 | The report's counts and gaps. |
| `GapValidator.GapsAreTheMissingMinutes` | infrastructure/storage/gap_validator.py:169-231 | For aligned candles and window the gaps are disjoint, do not touch and cover exactly the minutes without a candle. |
| `GapValidator.CleanBatch` | infrastructure/storage/gap_validator.py:139-147 | A batch without step errors is a run of consecutive minutes without duplicates. |
| `ReadThrough.FilterValidCandles` | application/services/read_through_service.py:58-72 | Keeps one candle for each valid minute that was fetched, in time order. |
| `ReadThrough.MergeCandlesByTs` | application/services/read_through_service.py:40-50 | Merges by timestamp, the stored candle winning. |
| `ReadThrough.GapsClear` | application/services/read_through_service.py:35-37 | Gaps never overlap and never contain a stored candle, whatever the window. |
| `ReadThrough.MaybeFillGapsResponseOnly` | application/services/read_through_service.py:75-210 | For every provider behaviour: stored candles are kept, only valid fetched minutes are added, the result strictly increases, and the reported missing count is the true one if and only if the window counts its minutes or nothing is missing. |
| `ReadThrough.WindowHoldsAtMostOneMore` | application/services/read_through_service.py:195-202 | When a window's length and its minutes agree, in terms of its ends alone. |
| `ReadThrough.AlignedWindowsAreHonest` | application/services/read_through_service.py:195-202 | For aligned windows with candles on the minute the reported count is the true one. |
| `ReadThrough.UnalignedWindowMiscounts` | application/services/read_through_service.py:195-202 | Ninety seconds that hold two minutes and count as one. |
| `ReadThrough.OffMinuteMiscounts` | application/services/read_through_service.py:195-202 | Two stored candles off the minute: two minutes count as missing where four are, and the gaps hold three. |
| `Rollover.QuarantineAnomalousDays` | application/tools/ostium_csv_to_parquet_rollover.py:42-69 | The loops return the bad days, the kept candles and the anomalies of the sorted input. |
| `Rollover.WholeDays` | application/tools/ostium_csv_to_parquet_rollover.py:42-69 | Every day is kept with all its candles or dropped with all of them. |
| `Rollover.NoJumpsRemain` | application/tools/ostium_csv_to_parquet_rollover.py:55-68 | No jump above the limit remains between consecutive minutes. |
| `Rollover.QuarantineIsIdempotent` | application/tools/ostium_csv_to_parquet_rollover.py:42-69 | A second quarantine finds nothing and keeps everything. |
| `Rollover.WriteMonth` | application/tools/ostium_csv_to_parquet_rollover.py:158-165 | The merge of a partition: existing rows outside the excluded days, overwritten by the new ones. |
| `Rollover.MergedIs` | application/tools/ostium_csv_to_parquet_rollover.py:158-165 | No excluded day is left, new rows win, every other existing row survives. |
| `Rollover.RunRollover` | application/tools/ostium_csv_to_parquet_rollover.py:192-256 | Exactly the partitions of months with kept candles are rewritten; a dry run changes nothing. |
| `Rollover.RepeatChangesNothing` | application/tools/ostium_csv_to_parquet_rollover.py:220-240 | Repeating the rollover on the same CSV leaves every partition unchanged. |
| `Rollover.KeptCandlesAreWritten` | application/tools/ostium_csv_to_parquet_rollover.py:220-240 | Every kept candle with a timestamp of its own ends up in its month's partition. |
| `Rollover.QuarantinedRowStays` | application/tools/ostium_csv_to_parquet_rollover.py:220-240 | A jump, its quarantined day, and the row of that day still in its partition after the rollover. |
| `Rollover.QuarantinedRowSurvivesIff` | application/tools/ostium_csv_to_parquet_rollover.py:220-240 | A stored row of a quarantined day survives if and only if its month is not rewritten. |
| `MarketHours.ClosedIff` | application/market_hours/fx_24_5.py:29-64 | The day-by-day rules close the market exactly from Friday 22:00 to Sunday 22:00 for the 24/5 symbols. |
| `MarketHours.MarketStateIs` | application/market_hours/fx_24_5.py:29-64 | The whole answer, state and reason, for every symbol and second. |
| `MarketHours.ClosedIntervalsBetween` | application/market_hours/fx_24_5.py:78-112 | The scan returns disjoint, maximal, aligned intervals covering exactly the closed seconds of the widened range. |
| `MarketHours.CountClosedMinutesBetween` | application/market_hours/fx_24_5.py:115-120 | Counts the closed minutes of the widened range. |
| `MarketHours.CountAdds` | application/market_hours/fx_24_5.py:115-120 | The count is additive, plus one exactly when the cut falls inside a closed minute. |
| `MarketHours.OneWeek` | application/market_hours/fx_24_5.py:115-120 | Every week has 2880 closed minutes, one more when it starts inside a closed minute. |
| `MarketHours.CountClosedSecondsInGap` | application/market_hours/fx_24_5.py:123-135 | The clipped total is the number of closed seconds of the gap. |
| `Indicators.Ema` | application/data/indicators_mt4_like.py:19-51 | The array holds the average of the chosen seed from its first defined index on. |
| `Indicators.SeedsConverge` | application/data/indicators_mt4_like.py:19-51 | From index period - 1 on the seeds differ by their difference there times (1 - 2/(period+1)) to the number of steps. |
| `Indicators.SeedsMeet` | application/data/indicators_mt4_like.py:19-51 | After n steps the difference is at most the first one divided by 1 + 2n/(period+1). |
| `Indicators.SeedsOnlyGetCloser` | application/data/indicators_mt4_like.py:19-51 | No step moves the two seeds apart. |
| `Indicators.EmaStaysInside` | application/data/indicators_mt4_like.py:19-51 | With either seed the average stays between the minimum and the maximum close so far. |
| `Indicators.RsiWilder` | application/data/indicators_mt4_like.py:54-81 | The array holds the index from `period` on. |
| `Indicators.IndexIsShare` | application/data/indicators_mt4_like.py:71-79 | The index is the gains' share of all movement in percent. |
| `Indicators.RsiStaysInside` | application/data/indicators_mt4_like.py:54-81 | The index lies between 0 and 100. |
| `Indicators.RsiMirror` | application/data/indicators_mt4_like.py:54-81 | The index of the mirrored series is 100 minus the index, if and only if something moved. |
| `Indicators.AtrWilder` | application/data/indicators_mt4_like.py:84-112 | The array holds the smoothed true range from period - 1 on. |
| `Indicators.TrueRangeIs` | application/data/indicators_mt4_like.py:98-104 | The true range is the bar's height stretched to reach the previous close. |
| `Indicators.AtrNonNegative` | application/data/indicators_mt4_like.py:84-112 | The average range is never negative once the first bar is sane. |
| `Indicators.WilderIsExponential` | application/data/indicators_mt4_like.py:109-110 | Wilder's smoothing is exponential smoothing with factor 1/period. |
| `Backtest.SimpleTrendSignals` | application/tools/run_backtest.py:54-73 | The string signals code the rises and falls over the lookback. |
| `Backtest.GenerateSignals` | strategies/simple_trend_df.py:26-46 | The integer signals are those codes. |
| `Backtest.RunStrategy` | application/tools/run_backtest.py:76-129 | The offline runner makes the trades of the first-signal, first-exit positions, or fails on an entry at price zero; short inputs included. |
| `Backtest.SimulateTrades` | application/tools/run_backtest_parquet.py:110-164 | The Parquet simulator does the same for any integer signals. |
| `Backtest.BothEngines` | application/tools/run_backtest_parquet.py:110-164 | Both engines return the same trades for every series, lookback and holding time. |
| `Backtest.PositionsDisjoint` | application/tools/run_backtest.py:97-127 | Positions are ordered, never overlap and last between 1 and max(hold, 1) candles. |
| `Backtest.TradesAreOrdered` | application/tools/run_backtest.py:97-127 | On increasing timestamps the trades are ordered and never overlap in time. |
| `Backtest.MaxDrawdown` | application/tools/run_backtest.py:150-160 | The one-pass figure is the maximum over all i <= j of cumulative profit at i minus at j, the start at zero included. |
| `Backtest.ComputeKpis` | application/tools/run_backtest.py:132-170 | Every figure of the offline runner. |
| `Backtest.ComputeKpisParquet` | application/tools/run_backtest_parquet.py:167-204 | Every figure of the Parquet runner, losses taken as trades minus wins. |
| `Backtest.FiguresAreDetermined` | application/tools/run_backtest_parquet.py:167-204 | The two agree on every figure, and wins and losses add up to the trades. |
| `Operations.OperationService.Create` | application/services/operation_service.py:75-97 | Stores a new operation in progress and logs it if the append succeeds. |
| `Operations.OperationService.Update` | application/services/operation_service.py:99-118 | Changes the given fields of a known operation and logs it; an unknown id changes nothing. |
| `Operations.OperationService.Rehydrate` | application/services/operation_service.py:47-69 | Replays the last lines of the log onto the store, skipping bad lines. |
| `Operations.RehydratingLiveStoreChangesNothing` | application/services/operation_service.py:47-69 | While appends succeed, rehydrating the live store changes nothing. |
| `Operations.LiveStoreIsReplay` | application/services/operation_service.py:37-45 | The live store is what was read at the start overlaid with the replay of everything logged since. |
| `Operations.LiveStoreIsWholeReplay` | application/services/operation_service.py:37-45 | From a log short enough to be read whole it is the replay of the log. |
| `Operations.RestartRecovers` | application/services/operation_service.py:47-69 | A restart recovers exactly the operations mentioned in the last lines, each in its live state. |
| `Operations.LostUpdateSurvivesIff` | application/services/operation_service.py:37-45 | An unlogged change survives rehydration if and only if the lines read do not mention the operation. |
| `Operations.LostConfirmation` | application/services/operation_service.py:37-45 | A confirmation whose append failed is back in progress after rehydration. |
| `Orders.OrderOpenService.FastAckOpen` | application/services/order_open_service.py:98-126 | Answers a repeated client id from the cache, otherwise creates an operation and starts one background open. |
| `Orders.OrderOpenService.GetCachedIdempotentResponse` | application/services/order_open_service.py:78-96 | The cached operation of a client id, when it is known and stored. |
| `Orders.OrderOpenService.RunOpenOperation` | application/services/order_open_service.py:47-76 | Records the end of a background open as confirmed or error. |
| `Orders.OneOpenPerClientId` | application/services/order_open_service.py:98-126 | In every run a non-empty client id starts at most one background open. |
| `Orders.RepeatsGetTheSameAnswer` | application/services/order_open_service.py:98-126 | Every later request with an answered client id gets the same operation id and starts nothing. |
| `Orders.OrderCloseService.StartClose` | application/services/order_close_service.py:66-77 | A cached completion is returned, otherwise a new background close starts. |
| `Orders.OrderCloseService.RunClose` | application/services/order_close_service.py:79-102 | Records the end of a background close and caches a completion. |
| `Orders.OrderCloseService.AnswerClose` | application/services/order_close_service.py:104-122 | The handler returns the result of a finished task and writes "pending" only otherwise. |
| `Orders.CloseIsRepeatedUnlessCompleted` | application/services/order_close_service.py:66-90 | A close is answered from memory if and only if an earlier close with the same key has completed; otherwise it starts another. |
| `Orders.TwoConcurrentCloses` | application/services/order_close_service.py:66-90 | A run in which two closes with the same key both complete. |
| `Orders.FinishedNeverChanges` | application/services/order_close_service.py:104-122 | With successful appends, a confirmed or failed operation keeps its record through every later step, timeouts and rehydrations included. |
| `DataLayer.DataLayerProdService.RunPrefetch` | application/services/data_layer_prod_service.py:167-202 | The prefetch loop performs the prefetch step of each symbol in turn. |
| `DataLayer.DataLayerProdService.WriteNextIfMissing` | application/services/data_layer_prod_service.py:243-275 | Validates before it appends; a failed batch degrades the symbol instead. |
| `DataLayer.DataLayerProdService.MarkDegraded` | application/services/data_layer_prod_service.py:277-296 | Adds the symbol and its reason. |
| `DataLayer.DataLayerProdService.UpdateGateMetrics` | application/services/data_layer_prod_service.py:298-401 | The gate loop performs the gate step of each symbol in turn. |
| `DataLayer.DataLayerProdService.WriterTurn` | application/services/data_layer_prod_service.py:212-223 | One turn of the writer: every healthy symbol, then the gates. |
| `DataLayer.RunKeepsKeys` | application/services/data_layer_prod_service.py:277-296 | In every run the degraded set and the reason map have the same keys. |
| `DataLayer.CondemnedForGood` | application/services/data_layer_prod_service.py:366-389 | A symbol degraded for duplicates, step errors or staleness never recovers, keeps its reason and is never written again. |
| `DataLayer.RecoversIff` | application/services/data_layer_prod_service.py:366-389 | Over every run a degraded symbol recovers at some point if and only if it was degraded for missing minutes and some gate, judged by the candles stored when it was degraded, sees both figures within their limits. |
| `DataLayer.StoredComeFromCleanBatches` | application/services/data_layer_prod_service.py:180-192 | Every stored candle was there at the start or came in a batch that passed validation. |
| `DataLayer.CleanIsConsecutive` | application/services/data_layer_prod_service.py:180-182 | A batch passes validation if and only if it is a run of consecutive minutes. |
| `DataLayer.FailedBatchIsFinal` | application/services/data_layer_prod_service.py:257-265 | A batch that fails validation condemns its symbol over every later run: it stays degraded and keeps the candles it had before. |
| `GateCount.GateCountsMissingOpenMinutes` | application/services/data_layer_prod_service.py:326-338 | For every store the gate's figure is the number of open minutes of the last day without a candle, less the stored candles on no open minute, and one less exactly when the calendar counts a closed minute outside the window. |
| `RebuildCoverage.ScanFiles` | application/data/rebuild_coverage.py:106-157 | A listed file is done exactly when it can be read and holds rows, and empty otherwise. |
| `RebuildCoverage.FindMissing` | application/data/rebuild_coverage.py:159-174 | The walk from the first to the last done month collects those not listed. |
| `RebuildCoverage.MissingOfAnyListing` | application/data/rebuild_coverage.py:159-174 | For a listing in any order the missing months are those not on disk between the done months listed first and last, each once. |
| `RebuildCoverage.HoleIsHiddenIff` | application/data/rebuild_coverage.py:108-174 | A month without a file between months with rows goes unreported if and only if it lies outside the done months listed first and last. |
| `RebuildCoverage.MissingIs` | application/data/rebuild_coverage.py:159-174 | In calendar order the missing months are exactly those not on disk with done months on both sides. |
| `RebuildCoverage.UnpaddedMonthsHideAHole` | application/data/rebuild_coverage.py:108-114 | A listing out of calendar order whose hole is not reported. |
| `RebuildCoverage.RebuildCoverageIndex` | application/data/rebuild_coverage.py:87-249 | The report and the index file after a rebuild. |
| `RebuildCoverage.SecondRebuild` | application/data/rebuild_coverage.py:198-215 | A second rebuild writes nothing, and reports no change if and only if an index existed or some month is on disk. |
| `RebuildCoverage.OnlyFilesAreRemembered` | application/data/rebuild_coverage.py:176-221 | After a rebuild the index knows exactly the listed months, done exactly when their file holds rows. |
| `RebuildCoverage.TotalsAreExact` | application/data/rebuild_coverage.py:233-249 | Done and empty months add up to the listing and the rows to those of the files. |
| `CoverageIndex.Index.MarkDone` | application/data/coverage_index.py:103-121 | Overwrites the month's entry and saves. |
| `CoverageIndex.Index.MarkFailed` | application/data/coverage_index.py:123-135 | Keeps the rows and the range that were known, so the total does not change. |
| `CoverageIndex.Index.MarkEmpty` | application/data/coverage_index.py:137-147 | Overwrites the month's entry with an empty one and saves. |
| `CoverageIndex.Index.Summarise` | application/data/coverage_index.py:163-179 | Counts each status and all rows; the counts add up to the months. |
| `CoverageIndex.TotalTakesOut` | application/data/coverage_index.py:168 | The total of rows does not depend on the order of the months. |

## Left out

- HTTP and WebSocket routes, wiring, command lines, environment parsing, venue adapters, on-chain calls, logging, metrics snapshots and sleeping times: input and output, or parameters of the model.
- Parquet, CSV, DuckDB and JSON encodings and atomic renames: partitions, stores and logs are maps and sequences. `CSVCandleStore.append` refuses a timestamp it already holds, as its code does, not one that is merely older.
- Floating point: proofs are over reals, before rounding; the per-trade rounding of the backtests is an arbitrary function applied by both engines. `NaN` prices are not modelled.
- Sync jobs: job keys and ids are the values themselves, so collisions of the SHA-1 prefix and of the eight-character ids are not modelled. Acquiring a lock is a step of its own, and persisting the jobs is an independent step that may save any twenty jobs at any time; both allow more runs than the program has.
- Sync retries: waiting times, the provider's own cache and the reason texts of the quality gate.
- Symbol spelling: `upper` and `strip` are assumed done; only the alias step of the calendar is modelled.
- Indicators.Ema: periods of zero or below, for which the arrays are indexed from the wrong end or divide by zero, are not modelled.
- Indicators.RsiWilder: periods of zero or below, for which the first averages are those of an empty slice, are not modelled.
- Indicators.AtrWilder: periods of zero or below and input arrays of different lengths, which NumPy broadcasts or rejects, are not modelled.
- The recorder's file is that of one process: days removed by the retention, lines from before a restart and half-written lines are not modelled.
- A rebuild reads the files and writes the index in one step of its own; a month written to disk between the two would lose a "done" mark that no step reads.
- Order results that raise after the status was already written, which the close service would record as an error: logging and the cache are assumed not to raise.
- Torn or blank lines at the ends of the operation log: an append either writes its whole line or nothing.
- The start of the data layer, its lifecycle status and the startup gate: the loops are modelled from the first prefetch on, as runs of their per-symbol steps in any order.
- The ingest service's metrics gate, heartbeat polls and pause bookkeeping, which touch neither buckets nor candles; a restart in the middle of a minute, which loses the buffered ticks.
- Candle symbols: the read-through relabels a foreign symbol, and the model's candles carry none.
- Correlations, percentiles, Sharpe ratios, verdict thresholds, expected-bar heuristics and gap ratios of the reports: library numerics and single comparisons.
- Calendar dates: the rollover takes the month of a timestamp as an arbitrary function, which its properties do not depend on.
