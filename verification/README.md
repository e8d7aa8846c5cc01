# Completed-candle recovery, verified

The repository is an ETL daemon that collects one-minute candles and trades from Binance, repairs gaps in the
completed candles over REST, and a dashboard that reports on it. This project models the daemon's recovery
protocol, the storage rules it rests on and the read side that must agree with it, and proves what they promise.

## How it is put together

- `Minutes.dfy`: the coverage window and the three gap detectors.
- `Tables.dfy`, `Storage.dfy`: the four tables, what each statement does to them, and the laws of the storage rules.
- `Protocol.dfy`: the daemon as a step machine. A `History` is a list of steps (committed transactions, requests,
  normal returns of a recovery, back-offs, process starts); `Allowed` is the guard of a step; `Sound` histories are
  those whose every step was allowed; `Replay` gives the table state a history leads to. The lemmas hold of every sound
  history, hence of every reachable state. A process may start after any history and with any settings, so a crash can
  follow any step and a restart may change the symbols and the days covered.
- `Effects.dfy`: what a live batch and the two marks do to the tables, said over the events and symbols themselves.
- `Recovery.dfy`, `Exchange.dfy`, `Passes.dfy`, `Connections.dfy`: what one recovery, one pass over the symbols and one
  connection may do, as data (`Path`, `Attempt`, `Connection`) with the steps it stands for, and what follows.
- `Repository.dfy`, `Collecting.dfy`: the same operations as imperative code. `Session` changes its view of the tables
  statement by statement; `World` is the database, exchange, Redis, clock and process. Each await may succeed, raise or
  be the last one (a cancellation or the death of the process); a commit may be refused, or take effect without being
  acknowledged. `Collector` is proved to do exactly the steps of some possible path, `RunForever` and `Operate` to
  produce only sound histories. `fuel` bounds how long one process lives, for termination only; it is arbitrary.
- `Dashboard.dfy`, `Health.dfy`, `Chart.dfy`: the read side.

## Where code and documentation differ

The code is followed in each case.

- A closed row need not hold the closing event's prices, although the README of the repository says so (line 61): a
  buffered open update overwrites them. `StoredPricesAreFinal` says over everything ever committed for the minute
  exactly when its row has the prices of a closing event, and `ClosedRowLosesItsPrices` gives a run in which it has not.
- The reconciliation watch raises while the latest check of a symbol is RUNNING (its finish time is formatted
  unconditionally), although `docs/metrics.md` line 20 says that a running check is merely not counted.
  `WatchShowsStreak` gives the exact condition.
- `reconnect_count` accumulates over processes, although `docs/metrics.md` line 9 says it is that of the current run;
  and a symbol configured twice is counted twice per failure. `ReconnectsInLockstep` states what holds,
  `ReconnectCountIsOfThisRun` exactly when the documented meaning does, and `ReconnectCountSurvivesRestart` a case
  where it does not.

Two things a reader might expect are not promised by the documentation and do not hold; both have their exact condition.
A FAILED run does not mean a gap (`FailedRunOverCompleteWindow`), and `last_event_time` may be set back
(`RecoverySetsEventTimeBack`).

## Model

| member | source | states |
|---|---|---|
| Minutes.FirstMissing | app/etl/collector.py:21-34 | the search returns nothing exactly when no expected minute is absent, and otherwise the earliest absent one |
| Minutes.Gaps | app/web/dashboard.py:54-63 | the list holds exactly the absent expected minutes, strictly ascending |
| Minutes.FirstMissingIsHeadOfList | app/etl/collector.py:21-34 | on every integer range the search and the list agree exactly unless the start lies inside the minute after the last one and is absent |
| Minutes.UnalignedDetectorsDiffer | app/web/dashboard.py:54-63 | the smallest range on which they differ |
| Minutes.DetectorsAgree | app/web/dashboard.py:20-29 | on an aligned range first gap = head of the list and count = its length |
| Minutes.GapsPlusPresent | app/web/dashboard.py:54-63 | expected minutes = missing + present |
| Minutes.WindowIsElapsed | app/etl/collector.py:152-156 | the window is 1440 * days aligned minutes, all fully elapsed, ending at the latest elapsed one, for every clock reading |
| Minutes.WindowMembers | app/etl/collector.py:152-156 | which minutes the window contains, said by clock minute |
| Storage.DedupIsOrderedLastEvents | app/etl/repository.py:12-17 | one event per identity, in first-seen order, each the last event of its identity |
| Storage.DedupAbsorbs | app/etl/repository.py:12-17 | idempotent, and dedup(a + b) = dedup(dedup(a) + b) |
| Storage.UpsertDeduplicatedIsBulk | app/etl/repository.py:43-87 | the one statement never names a conflict target twice, and does what the raw batch means: last data, closed if it was or the last event closes |
| Storage.BulkAgainstSequential | app/etl/repository.py:43-87 | bulk and one-at-a-time writes agree on keys and data, bulk closed implies sequential closed, and they are equal exactly when every key of the batch is settled |
| Storage.EveryCutAgrees | app/etl/repository.py:43-87 | every way of cutting a stream into batches gives the one-at-a-time table exactly when every key is settled |
| Storage.CutAgrees | app/etl/repository.py:43-87 | one given cut gives the one-at-a-time table exactly when every key the stream closes was closed before or is closed at the end of some batch |
| Storage.NeverReopenedIsSettled | app/etl/repository.py:43-47 | a key with no open event after a closed one is settled |
| Storage.ReplayedPage | app/etl/collector.py:171-174 | writing a page again changes nothing, so the overlap is harmless |
| Storage.FinalPricesNeedFinalEventLast | app/etl/repository.py:73-83 | however events are batched, a row has the data of the last event its key ever got, is closed exactly when it was or one batch ended with a closing event, and has the OHLCV of no closing event exactly when that last event is open and its OHLCV differs from that of every closing one |
| Storage.ClosedRowTakesOpenPrices | app/etl/repository.py:73-83 | the smallest case of a closed row overwritten by an open update |
| Storage.FirstTradeWins | app/etl/repository.py:89-109 | a stored trade never changes; a new one takes its first event |
| Storage.TradesIgnoreBatchingAndReplay | app/etl/repository.py:89-109 | trade batching never matters, and replaying a stored prefix changes nothing |
| Repository.Session.UpsertCandles | app/etl/repository.py:43-87 | leaves the table the raw batch means |
| Repository.Session.InsertTrades | app/etl/repository.py:89-109 | inserts row by row past stored keys: old trades unchanged, each new key takes its first trade, other tables unchanged |
| Repository.Session.UpdateCheckpoint | app/etl/repository.py:111-151 | status replaced, event time coalesced, reconnects kept or incremented, a new row starts at zero or one |
| Repository.Session.CreateRun | app/etl/repository.py:153-164 | appends a RUNNING run, or fails exactly when (symbol, type, start) is taken |
| Repository.Session.FinishRun | app/etl/repository.py:166-179 | rewrites status, rows and finish time of that run only |
| Protocol.CoverageIsForever | app/etl/collector.py:149-242 | in every sound history, once a recovery of a symbol at a time has returned normally its whole window is closed in every later state, under whatever settings later processes run |
| Protocol.ClosedForever | app/etl/repository.py:82 | a closed row stays closed through any steps |
| Protocol.LiveHasRecovery | app/etl/collector.py:72-88 | a one-minute checkpoint that reads LIVE has read so since a write that followed, in the same connection, a recovery of the symbol that returned normally |
| Effects.LiveBatchKeepsLastUpdate | app/etl/collector.py:266-270 | after a live batch a minute has the data of its last update in the batch, closed if it was or if that update closes it; without an update it is as it was |
| Effects.LiveBatchKeepsFirstTrade | app/etl/collector.py:266-271 | after a live batch a trade that was not stored has the data of its first event in the batch; a stored one is unchanged, and none appears without an event |
| Effects.LiveBatchReports | app/etl/collector.py:272-287 | a live batch leaves every checkpoint it has an event for LIVE with the time of the last event that has one, reconnects kept, and no other one changed |
| Effects.MarksReachEveryPair | app/etl/collector.py:312-331 | the two marks reach both sources of every symbol and nothing else, and keep the event time |
| Protocol.ReconnectsInLockstep | app/etl/collector.py:319-331 | each reconnect count is its value at process start plus failures since, times how often the symbol is configured |
| Protocol.ReconnectCountIsOfThisRun | app/etl/repository.py:129-136 | for a configured symbol the count is the failures of this process exactly when it was zero at the start and no failure was counted for a symbol configured twice |
| Protocol.ReconnectCountSurvivesRestart | app/etl/repository.py:129-136 | a positive count before a start is still there after it, with no failure in the new process |
| Protocol.DelayBounds | app/etl/collector.py:67 | every delay is in [2.25, 60.5], and at least 60 from the sixth failure on |
| Protocol.DelayValues | app/etl/collector.py:67 | the delays one by one: 2.25, 4.5, 8, 16.25 and 32.5 seconds, then a minute plus zero, a quarter or half a second |
| Protocol.ReconnectsWaitOut | app/etl/collector.py:57-70 | in every run, a connection that is not the first of its process begins right after the mark on its own symbols and the delay of the failures so far |
| Protocol.DistinctOccursOnce | app/etl/collector.py:319-331 | with distinct symbols each failure counts once |
| Protocol.EventTimeNeverLost | app/etl/repository.py:142-144 | a non-null event time never becomes null |
| Protocol.RunsStayConsistent | app/etl/collector.py:211-231 | in every reachable state: distinct starts per symbol and type, unfinished exactly while RUNNING, and every minute in the range of a SUCCESS run is closed |
| Recovery.SuffixIsEnough | app/etl/collector.py:163-174 | the start is the overlap before the first gap or the start of the window, whichever is later, and all window minutes before it are closed |
| Recovery.BackfillRange | app/etl/collector.py:152-174 | on every possible backfill the range ends at the latest elapsed minute and covers exactly the window minutes from the overlap before the first missing one on |
| Recovery.RequestsBounded | app/etl/collector.py:190-201 | against any exchange keeping the page contract, at most N requests for N minutes, counted in the history |
| Recovery.BackfillAsksOnly | app/etl/collector.py:190-201 | every request is for the symbol, up to the latest elapsed minute, and not before the start of the range |
| Recovery.PagesAscend | app/etl/collector.py:190-201 | no minute once fetched is fetched again: open times strictly ascend from page to page |
| Recovery.ReturnSaysWhatWasMissing | app/etl/collector.py:149-242 | a recovery returns true exactly when its window was not complete before it |
| Recovery.RunSaysWhatRan | app/etl/collector.py:183-252 | the run left behind has the symbol, type and range asked for, the status, the rows and the time it ended |
| Recovery.NoopSaysWhatRan | app/etl/collector.py:254-264 | a recorded check of a complete window adds one SUCCESS run with zero rows over the whole window and changes nothing else |
| Recovery.StepsAddOnly | app/etl/collector.py:149-188 | a recovery adds runs of the type it was asked for only |
| Recovery.NormalReturnMeansComplete | app/etl/collector.py:203-242 | returns normally only when no minute of the whole window is missing |
| Recovery.LedgerIsTruthful | app/etl/collector.py:183-252 | exactly one terminal status; SUCCESS implies a complete window; rows are the acknowledged pages, equal to all committed rows exactly when no page took effect unacknowledged |
| Recovery.RunLeftRunning | app/etl/collector.py:183-252 | a run stays RUNNING exactly when neither verdict nor handler took effect, and then it is as it was created |
| Recovery.CheckpointTellsOutcome | app/etl/collector.py:220-252 | RECOVERED with the last completed minute or FAILED, event time and reconnects otherwise kept |
| Recovery.RecoverySetsEventTimeBack | app/etl/collector.py:220-230 | the event time moves back exactly when SUCCESS took effect and the stored event was newer than the last completed minute |
| Recovery.BackfillCloses | app/etl/collector.py:190-201 | however a backfill ends, a minute is closed afterwards exactly when it was closed before or is in a page that took effect |
| Recovery.WindowClosedExactly | app/etl/collector.py:183-252 | however a backfill ends, its window is complete exactly when every missing minute is in a page that took effect |
| Recovery.SuccessIsExactlyCoverage | app/etl/collector.py:190-230 | against any exchange, with nothing else failing, SUCCESS exactly when every missing minute came in some page |
| Recovery.FailedRunOverCompleteWindow | app/etl/collector.py:203-252 | FAILED over a complete window exactly when the call did not go through although every missing minute took effect; always so once the verdict was reached, never when a gap was found |
| Recovery.StepsOnlyFor | app/etl/collector.py:149-252 | a recovery changes no candle, checkpoint, trade or existing run of another symbol, whatever fails |
| Recovery.StepsSound | app/etl/collector.py:149-252 | every possible recovery is made of allowed steps |
| Exchange.FullExchangeSucceeds | app/etl/collector.py:190-230 | with full pages and no database or Redis failure: ceil(N / 1000) requests, N rows, SUCCESS, complete window |
| Exchange.EmptyWindowIsWholeBackfill | app/etl/collector.py:152-174 | with no closed row in the window N = 1440 * days |
| Exchange.BackfillStoresOnlyElapsed | app/etl/binance.py:97-112 | with an exchange honouring endTime, backfill adds or changes only rows of fully elapsed minutes |
| Exchange.GapsOnlyShrink | app/etl/collector.py:197-201 | missing minutes of a window never grow and the first gap never moves back |
| Exchange.RetriesFinish | app/etl/collector.py:163-201 | recovery attempts, each at its own time and with its own moved window, that start with a gap in a given earlier window and get the page with their first gap stored number at most the minutes missing of that window at first, however each ends and whatever comes between |
| Exchange.FirstFullPageClosesGap | app/etl/collector.py:171-201 | one acknowledged full page holds and closes the first gap, whatever comes after it |
| Passes.PassAppendsOneRunPerSymbol | app/etl/collector.py:128-170 | with working bookkeeping a periodic pass appends exactly one terminal RECONCILIATION run per configured symbol, in order, whatever subset fails |
| Passes.PassLeavesOthersAlone | app/etl/collector.py:128-141 | a pass changes nothing of a symbol it does not reach or name |
| Passes.PassSound | app/etl/collector.py:128-141 | a pass is made of allowed steps and recovers the symbols whose attempts returned |
| Connections.ConnectionSound | app/etl/collector.py:72-126 | a connection is made of allowed steps: no LIVE mark and no batch before every symbol is recovered |
| Connections.OnlyLastFails | app/etl/collector.py:89-122 | only the last activity of a connection may have failed |
| Connections.PeriodicPassLeavesRuns | app/etl/collector.py:143-147 | a periodic pass of a connection whose bookkeeping works adds one finished RECONCILIATION run per symbol it attempts, in order, whatever fails |
| Connections.ConnectionRuns | app/etl/collector.py:84-104 | a connection adds BACKFILL runs while it opens and RECONCILIATION runs only afterwards |
| Connections.PersistedIsPrefixOfStream | app/etl/collector.py:73-126 | the events that reach the database are a prefix of the stream, in order, short of it by at most one batch, the queue and one blocked event |
| Connections.TradeTableIsStream | app/etl/collector.py:266-288 | in every state the trade table is the committed stream inserted one at a time, first write winning |
| Connections.StoredTradeIsFirst | app/etl/repository.py:89-109 | in every state a trade not there at first has the data of the first event ever committed for it |
| Connections.CandleTableIsBatches | app/etl/collector.py:190-201 | in every state the candle table is the committed pages and live batches written in the order of their commits |
| Connections.StoredPricesAreFinal | app/etl/repository.py:73-83 | the same in every state, over all pages and live batches ever committed |
| Connections.ClosedRowLosesItsPrices | app/etl/collector.py:83-84 | over any complete window, a possible connection that buffered an open update with other OHLCV leaves it in the closed row |
| Connections.BatchingLeavesNoTrace | app/etl/repository.py:43-87 | in every state, the candle table is that of one-at-a-time writes exactly when every key the committed events close was closed at first or is closed at the end of some transaction |
| Collecting.Collector.FetchPages | app/etl/collector.py:190-201 | the loop asks at the end of the previous page, commits each page, and terminates |
| Collecting.Collector.CheckAndFinish | app/etl/collector.py:203-241 | raises exactly when a minute is still missing; otherwise commits SUCCESS with the checkpoint and publishes |
| Collecting.Collector.BackfillWithHandler | app/etl/collector.py:189-252 | the try block and its handler do exactly the steps of a possible path |
| Collecting.Collector.RecoverCandles | app/etl/collector.py:149-252 | one call does exactly the steps of a possible path and ends as that path says |
| Collecting.Collector.RecordSuccessfulReconciliation | app/etl/collector.py:254-264 | one transaction creates and finishes a run with zero rows |
| Collecting.Collector.RecoverAllSymbols | app/etl/collector.py:128-141 | attempts the symbols in order, stopping at the first failure only when told to |
| Collecting.Collector.MarkAllLive | app/etl/collector.py:312-317 | both sources of every symbol in one transaction |
| Collecting.Collector.MarkAllDisconnected | app/etl/collector.py:319-331 | both sources of every symbol in one transaction, counting the failure |
| Collecting.Collector.PersistLiveBatch | app/etl/collector.py:266-310 | the whole batch in one transaction or none of it |
| Collecting.StreamBuffer.ReaderStep | app/etl/collector.py:73-79 | a reader step keeps order, loses nothing and respects the bound of 20,000 |
| Collecting.Collector.FillBatch | app/etl/collector.py:112-119 | takes events in order until 500 or an empty queue |
| Collecting.Collector.TakeBatch | app/etl/collector.py:112-122 | 1 to 500 events leave the queue in order and are committed together or not at all |
| Collecting.Collector.ConverseUntilStopped | app/etl/collector.py:89-122 | at every exit the events taken are those committed plus the batch in hand; each timeout is followed by a full pass unless the connection ends |
| Collecting.Collector.RunConnected | app/etl/collector.py:72-126 | does exactly the steps of a possible connection, conserves the stream, and returns normally only after a stop |
| Collecting.Collector.RunForever | app/etl/collector.py:57-70 | only allowed steps: each failure is counted, marked and slept off before the next connection, with the delay of the failures so far |
| Collecting.Collector.BackOff | app/etl/collector.py:64-70 | marks every checkpoint, then sleeps the delay of the failures so far |
| Collecting.Operate | app/etl/main.py:12-37 | over any number of processes on one database, each with its own settings: coverage, LIVE, SUCCESS, the trade table and the candle table keep their promises |
| Dashboard.SummaryCountsMissing | app/web/dashboard.py:234-244 | the figure is how many of the sixty latest elapsed minutes are not stored closed, shown exactly when the symbol has a candle |
| Dashboard.DetailListsMissing | app/web/dashboard.py:107-130 | the page lists in order exactly the elapsed minutes of its window that are not stored closed |
| Dashboard.DerivedStatus | app/web/dashboard.py:32-42 | STARTING without an event, STALE for a LIVE one sixteen seconds old or older, otherwise as reported, with the age in whole seconds |
| Dashboard.SummaryAgreesWithRecovery | app/web/dashboard.py:234-244 | after a recovery in minute m, a query in minute m' counts at most min(60, m' - m) missing |
| Dashboard.DetailAgreesWithRecovery | app/web/dashboard.py:107-130 | a detail window of at most 1440 * days + 1 minutes lists at most min(W - 1, m' - m) missing, none before m |
| Dashboard.LongerDetailListsOlderGap | app/web/dashboard.py:107-130 | one minute more and an older gap is listed |
| Dashboard.FailuresSinceSuccessIsStreak | app/web/dashboard.py:334-374 | the figure pieced together from queries is the one-pass streak over the history by distinct start times |
| Dashboard.WatchShowsStreak | app/web/dashboard.py:66-84 | the watch shows the last run, the finish times of the newest SUCCESS and newest FAILED run, and the streak when the last run is FAILED and 0 otherwise; it raises exactly when the last run is RUNNING |
| Dashboard.RunningLatestRaises | app/web/dashboard.py:79 | the smallest case of the watch raising |
| Dashboard.BackfillRunsInvisible | app/web/dashboard.py:343-346 | BACKFILL runs never affect the watch |
| Dashboard.HistoryExists | app/core/models.py:82-84 | under the unique constraint every symbol has a history by distinct start times |
| Dashboard.WatchHoldsInEveryState | app/web/dashboard.py:334-374 | all of that in every reachable state of the daemon |
| Dashboard.ReconciliationObservations | app/web/dashboard.py:334-374 | one observation per symbol in order, failing as a whole exactly when one of them raises |
| Health.CheckpointHealthIssues | app/etl/health.py:19-44 | one issue per unhealthy pair, in order, saying what is wrong; empty exactly when every pair is healthy |
| Health.CheckPair | app/etl/health.py:30-43 | no issue exactly for a healthy pair, otherwise the first check it fails |
| Health.PairsCoverEverySource | app/etl/health.py:29-30 | both sources of every symbol are checked and nothing else |
| Health.LastRowObserved | app/etl/health.py:26 | the last row of a key is the one that is judged, and a key without a row is missing |
| Health.UnhealthyInOrder | app/etl/health.py:29-43 | the unhealthy pairs are reported in the order of the pairs, each position once |
| Health.JustRecovered | app/etl/health.py:35-43 | a checkpoint just left by a recovery is healthy exactly when the second of the minute allows, always from a limit of 119 on and never below 60 |
| Health.LiveDashboardIsHealthy | app/web/dashboard.py:32-42 | LIVE on the dashboard for every pair implies no issue for any limit of at least 15 |
| Health.ShorterLimitDisagrees | app/core/config.py:17 | fifteen is the least such limit: below it, where the settings allow none, the two judges would differ |
| Chart.CompactCandles | app/web/static/market_detail.js:35-55 | the loop makes consecutive groups of one least size that fits the limit, each summarized, and keeps the chart |
| Chart.CompactCandlesKeepsTheChart | app/web/static/market_detail.js:35-55 | at most the limit of buckets, samples summing to n, and the aggregate of the input |
| Chart.CompactedToLeastGroups | app/web/static/market_detail.js:35-55 | the output is the input in consecutive groups of one size, the last possibly shorter, one candle each when it fits and otherwise of the least size that fits, each with its first open, last close, extremes, total volume and closedness |
| Chart.VolumeAddsUp | app/web/static/market_detail.js:49 | the volume of a group is additive and that of one candle is its own |
| Chart.BucketsTileTime | app/web/static/market_detail.js:62-64 | on gap-free input the buckets tile time exactly |
| Chart.HoverInvertsDrawing | app/web/static/market_detail.js:57-83 | a moment drawn and hovered over gives its minute back |
| Chart.TimeRunsRight | app/web/static/market_detail.js:57-68 | time runs strictly from the left edge to the right one, and a bucket is drawn midway between its start and its end |
| Chart.HoverStaysInRange | app/web/static/market_detail.js:79-83 | the hovered minute is clamped to the range, except at the right edge, where it is the minute after the last |
| Chart.NearestCandle | app/web/static/market_detail.js:85-89 | the first of the candles nearest to the pointer |

## Left out

- Collecting.World.FetchKlines: assumes of the exchange that a non-empty page is ascending and starts at or after the requested time; the five-try loop, its delays and HTTP errors are folded into one outcome.
- Collecting.Collector.WaitForWork: the deadline is any moment without an event, so the reconciliation period, of which the code gives only a lower bound on spacing, is not modelled.
- Protocol.LiveHasRecovery: assumes of the stream that it delivers a symbol's candles only to processes configured for it (`Subscribed`), as their subscription asks.
- Chart.CompactCandlesKeepsTheChart: prices and volumes are exact reals, so floating-point rounding of the browser is not modelled; nor is the rounding of stored decimals to twelve places.
- Event payloads from the websocket are taken as candles and trades; parsing them, and the stream's URL, are not modelled.
- `received_at`, `updated_at`, `last_persisted_at`, error texts and log lines decide nothing here.
- The 24-hour change, lag, trade lists and JSON shape of the dashboard are display.
- The check that the interval is `1m` is a constant of the model.
- FastAPI routes, templates, canvas drawing, migrations, compose files and backup scripts.
