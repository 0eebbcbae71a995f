# Verified model of the market scanner's stateful cores

This project models, in Dafny 4.11, the parts of the market-scanning backend whose promises span many calls, and
proves them over every input, every run or every interleaving. Prices, scores and seconds are real numbers,
milliseconds and counts are integers, tables are sequences or maps, and `await` points that matter are separate
steps of a state machine. Objects that the backend updates in place are classes proved against pure specification
functions; what the backend promises is then proved about those functions.

`dafny verify dfyconfig.toml` checks the whole project.

| files | part |
|---|---|
| `Indicators.dfy`, `FeatureCleaning.dfy` | Wilder smoothing, true range, +DI/-DI, ADX, RSI, and the clipping of bounded columns |
| `TickAggregator.dfy`, `Candles.dfy`, `MarketFeed.dfy`, `FeedHistory.dfy` | ticks to minute candles, candle validation, the pending buffer, its flush, and whole feed histories |
| `MarketClock.dfy`, `FetchLog.dfy`, `FundamentalQueue.dfy`, `QueueHistory.dfy`, `TiedHistory.dfy` | market days, the append-only fetch log, one queue run, any history of runs, and one with tied timestamps |
| `Alerts.dfy`, `Delivery.dfy`, `AlertProtocol.dfy`, `DeliveryRun.dfy`, `AlertGuarantees.dfy`, `AlertDeliveries.dfy` | alert rows, one delivery, the concurrent alert protocol, one call and one delivery as runs of it, its guarantees, and how often an alert is sent |
| `Momentum.dfy`, `MomentumEngine.dfy` | the momentum life cycle, its log and pointer, and one alert per entry |
| `FeatureRun.dfy` | the incremental daily feature run and its bulk pre-filter |
| `Pipeline.dfy` | the event stream, its consumer group and worker |
| `TradingCalendar.dfy`, `Backfill.dfy`, `SourceMerge.dfy`, `Scorer.dfy`, `Universe.dfy` | calendar walks, listing-date matching, source merging, the fundamental score, universe reconciliation |
| `Prelude.dfy` | options and small sequence functions |

## Where the code does less than its documentation says

Each of these is stated as a lemma with the exact condition, and with a concrete case.

- A restart drains at most ten pending events, not all (`Pipeline.DrainedExactlyWhen`), and an event left unacknowledged
  "for retry" is not retried before the next restart, nor is one whose read was lost (`Pipeline.StrandedUntilRestart`,
  `LostReadStrands`, `EleventhIsStranded`).
- A flush empties the buffer before it writes, so a database failure loses the buffered candles
  (`FeedHistory.CandlesAreConserved`, `FirstCandleIsLost`).
- SENT is not final: the expiry job updates by primary key the rows it read before, so a delivery recorded in between
  becomes EXPIRED, the signal may be raised again, and an alert that is also queued is sent twice
  (`AlertDeliveries.SentIsLeftExactlyWhen`, `SentIsOverwritten`, `SentTwice`).
- EXPIRED is not final: a delivery in progress turns it into SENT, FAILED or RETRYING, after which a fingerprint can
  have two live alerts (`AlertGuarantees.UniquenessBreaksExactlyWhen`, `RevivedAlertIsDuplicated`).
- Recovery reloads at most 200 undelivered alerts, and an alert whose delivery ends in an exception waits for the next
  restart unless it is also queued (`AlertGuarantees.ForgottenExactlyWhen`, `RestartForgetsAlert`, `AbortForgetsAlert`).
- The escalation counter compares timestamps and misses attempts that tie with the last success, at most one in any
  history (`FetchLog.CounterIsStreakLessTies`, `TiedHistory.RunsUndercount`, `QueueHistory.CounterMissesAtMostOne`).
- The reconciliation guard is described as measured against what was already active, but it reads the table after
  the upserts (`Universe.GuardIsStricter`, `NewSymbolBlocksReconciliation`).
- The edges from TRIGGERED and CONFIRMED to INVALIDATED are allowed and never taken (`Momentum.EdgeIsTakenExactlyWhen`).
- The backfill's populated count exceeds the number of writes when two rows mean one symbol
  (`Backfill.PopulatedCountsWrites`, `RenamedSymbolIsOverwritten`).

## Model

| member | source | states |
|---|---|---|
| Indicators.SmoothIsWeightedSum | app/features/indicators.py:28-29 | The smoothing recurrence equals the exponentially weighted sum: every observation discounted by its age, the first one standing for all before it |
| Indicators.SmoothIsZero | app/features/indicators.py:28-29 | For non-negative series the average is zero exactly when the last observation is and, unless the period is 1, all others are too |
| Indicators.SmoothBetween | app/features/indicators.py:28-29 | The average stays within any bounds of the series |
| Indicators.MoveWithinRange | app/features/indicators.py:32-35 | If the previous close lies within its bar, +DM and -DM of the next bar are non-negative and together at most the true range |
| Indicators.SmoothedMovesWithinRange | app/features/indicators.py:64-83 | For every series of bars whose closes lie within them, smoothed +DM plus smoothed -DM never exceeds the average true range |
| Indicators.MovesAt | app/features/indicators.py:32-35 | Of the rise of the high and the fall of the low only the larger one counts as +DM or -DM, and only if it is positive; the true range spans the prices of the bar and the close before it |
| Indicators.DirectionalIndicatorsAreShares | app/features/indicators.py:75-79 | +DI and -DI are the smoothed movements in hundredths of the average true range |
| Indicators.DxIsTrend | app/features/indicators.py:81-83 | DX times the sum of smoothed +DM and -DM is a hundred times their difference, free of the true range; without a reading or any movement it is zero |
| Indicators.TrendIsFullExactlyWhenOneSided | app/features/indicators.py:64-83 | With a reading DX is 100 if and only if the remembered movements are all in one direction, and 0 if and only if both averages are equal |
| Indicators.AdxAveragesTrend | app/features/indicators.py:81-86 | ADX is the exponentially weighted sum of the trend strengths up to each bar, each defined by the smoothed movements alone |
| Indicators.DirectionalIndicatorBounds | app/features/indicators.py:75-79 | +DI and -DI are missing together, exactly with too few bars or a zero range; otherwise both are percentages and their sum is at most 100 |
| Indicators.DxIsPercentage | app/features/indicators.py:81-82 | DX, with missing values filled by zero, lies in [0, 100] for all bars whose closes lie within them |
| Indicators.AdxIsPercentage | app/features/indicators.py:81-86 | ADX is available exactly from `period` bars on and lies in [0, 100] for all bars whose closes lie within them |
| Indicators.NoReadingExactlyWhenFlat | app/features/indicators.py:38-39 | With enough bars the directional indicators are missing if and only if every bar is one and the same price (with period 1: if and only if the last true range is zero) |
| Indicators.MovesWithinRangeExactlyWhen | app/features/indicators.py:32-35 | Every next bar keeps +DM plus -DM within its true range if and only if the close of this bar lies between its low and its high |
| Indicators.RsiIsGainShare | app/features/indicators.py:42-51 | RSI exists exactly with more than `period` closes, is the share of the average gain in the average change (100 without any change) and lies in [0, 100] |
| Indicators.RsiSaturates | app/features/indicators.py:42-51 | RSI is 100 if and only if none of the remembered changes is a fall |
| Indicators.MirrorSwapsDirections | app/features/indicators.py:64-86 | Turning the prices upside down swaps +DI and -DI at every bar and leaves ADX as it is |
| Indicators.MirrorComplementsRsi | app/features/indicators.py:42-51 | RSI of a series and of its mirror image add up to 100 if and only if something fell or something rose |
| FeatureCleaning.Clean | app/features/validator.py:26-33 | Every cell of every column: infinities become missing, bounded columns are clipped to their own bounds, nothing else changes |
| FeatureCleaning.CleanedCellIsNearest | app/features/validator.py:11-33 | After cleaning a column keeps to its range, [-100, 100] for the momentum score and [0, 100] for the other bounded ones, each number is the nearest to what it was, and only numbers and missing cells are left |
| FeatureCleaning.ReadingsAreTimely | app/features/indicators.py:28-29 | The rsi14 column has a number exactly from the fifteenth bar on, adx14 exactly from the fourteenth, and the other two no earlier |
| FeatureCleaning.ReadingsAreNamed | app/features/indicators.py:42-86 | At every bar each of the four columns holds the reading of its name over fourteen bars, for the bars so far |
| FeatureCleaning.CheckedBarsHoldClose | app/data/validator.py:87-101 | The OHLC check guarantees that the close lies within the bar, which is all that the range claims need |
| FeatureCleaning.CleaningKeepsMomentum | app/features/validator.py:11-24 | For every series of bars whose closes lie within them, cleaning leaves the rsi14, adx14, plus_di14 and minus_di14 columns exactly as computed |
| TickAggregator.HighAndLowAreExtremes | app/providers/tick_aggregator.py:63-79 | The high and the low of a group are the greatest and the least price of its ticks |
| TickAggregator.StreamingEqualsBatch | app/providers/tick_aggregator.py:61-86 | For time-ordered ticks the completed candles followed by the open one are exactly one candle per minute with a tick, in strictly increasing minutes; the one of minute m has the first, highest, lowest and last price and the summed quantity of the ticks from 60000 m to before 60000 (m + 1) milliseconds |
| TickAggregator.OfMinuteHas | app/providers/tick_aggregator.py:61 | The group of minute m has exactly the ticks from 60000 m to before 60000 (m + 1) milliseconds |
| TickAggregator.TicksShareCandleExactlyWhen | app/providers/tick_aggregator.py:61-68 | Two accepted ticks go into the same candle if and only if one such interval has both |
| TickAggregator.EmittedExactlyWhen | app/providers/tick_aggregator.py:48-68 | A tick completes a candle if and only if it is accepted and lies outside the minute of the accepted tick before it; the candle is that of that minute |
| TickAggregator.FirstEmitsNothing | app/providers/tick_aggregator.py:48-68 | The first tick of an instrument completes none |
| TickAggregator.AcceptedExactlyWhen | app/providers/tick_aggregator.py:51-58 | A tick is accepted if and only if it is later than every tick that its instrument has been fed before; any other leaves the accepted ticks as they are |
| TickAggregator.AcceptedIsOrdered | app/providers/tick_aggregator.py:48-58 | Accepted ticks of an instrument have strictly increasing trade times |
| TickAggregator.VolumeIsConserved | app/providers/tick_aggregator.py:63-79 | Completed candles and the open bucket together hold exactly the accepted quantity |
| TickAggregator.CandlesAreValid | app/providers/tick_aggregator.py:89-97 | Candles from non-negative prices and quantities always pass validation |
| TickAggregator.InstrumentsAreIndependent | app/providers/tick_aggregator.py:37-61 | The ticks of other instruments, however interleaved, do not change what is accepted for one |
| TickAggregator.FedAllMatches | app/providers/tick_aggregator.py:37-80 | After any feed the state kept for each instrument is that of its accepted ticks, and processed plus dropped is the number of ticks fed |
| TickAggregator.FedKeepsMatch | app/providers/tick_aggregator.py:37-80 | One tick moves the state of its own instrument by the streaming step, emits exactly the newly completed candle, counts as processed if it is accepted and as dropped if not, and leaves every other instrument alone |
| TickAggregator.OpenBucket.Add | app/providers/tick_aggregator.py:70-79 | The bucket object is updated in place by one tick |
| TickAggregator.TickAggregator.Ingest | app/providers/tick_aggregator.py:37-80 | The object moves to the next state of the value model and returns exactly the candle the tick completes |
| TickAggregator.TickAggregator.FlushOpenBuckets | app/providers/tick_aggregator.py:82-86 | A snapshot of one candle per open bucket; nothing changes |
| Candles.ValidateCandles | app/data/validator.py:49-75 | The loop over the seen timestamps keeps what the recursive definition keeps |
| Candles.KeepsFirstValid | app/data/validator.py:49-101 | A candle is kept if and only if it is the first sound one of its timestamp: finite non-negative prices between low and high, non-negative volume and VWAP; order is kept |
| Candles.CleanedIsClean | app/data/validator.py:49-101 | The result holds only such candles with distinct timestamps |
| Candles.CleaningIsIdempotent | app/data/validator.py:49-75 | Validating a second time drops nothing |
| MarketFeed.UpstoxMarketFeed.HandleMessage | app/providers/upstox_websocket.py:301-312 | A frame of ticks leaves aggregator and buffer as feeding its ticks one by one does |
| MarketFeed.WriteBatch | app/providers/upstox_websocket.py:325-333 | The transaction upserts the validated candles of every entry whose symbol is current, and counts them |
| MarketFeed.UpstoxMarketFeed.Flush | app/providers/upstox_websocket.py:314-342 | The buffer is emptied first; the table, the counter and the event follow only if the database does not fail |
| MarketFeed.PendingAddAppends | app/providers/upstox_websocket.py:308-312 | A completed candle is appended to its own key and to no other |
| MarketFeed.PendingAddDistinct | app/providers/upstox_websocket.py:308-312 | The pending buffer keeps one entry per key |
| FeedHistory.CompletedAreSound | app/providers/tick_aggregator.py:63-86 | For any sane feed the completed candles have strictly increasing timestamps and all validate, so a flush drops none |
| FeedHistory.FlushConserves | app/providers/upstox_websocket.py:314-340 | A successful flush appends exactly the waiting candles of a subscribed symbol to its rows: none dropped, none overwriting another |
| FeedHistory.CandlesAreConserved | app/providers/upstox_websocket.py:301-340 | Over any history of frames, flushes and failing flushes, every completed candle of a subscribed symbol is written or waiting, once, in order and unchanged, if and only if none was waiting whenever a flush failed |
| FeedHistory.VolumeIsAccounted | app/providers/upstox_websocket.py:301-340 | Over any history accepted volume is written, waiting, in the open bucket, or was waiting when a flush failed; the last is nothing when none waited at any failure |
| FeedHistory.FirstCandleIsLost | app/providers/upstox_websocket.py:314-340 | Two ticks of different minutes and a failing flush lose a candle |
| FeedHistory.FailedFlushLosesBuffer | app/providers/upstox_websocket.py:314-340 | When the database fails in a flush, nothing is lost for a symbol if and only if none of its candles was waiting |
| MarketClock.DayBoundsAreExact | app/core/time.py:73-101 | An instant lies in the half-open UTC bounds of a day if and only if that is its market date, and if and only if its local time lies in the 86400 seconds of that day, so the days tile the time line |
| MarketClock.LaterInstantLaterDay | app/core/time.py:73-83 | Market dates never run backwards |
| FetchLog.LatestBoundsLog | app/repositories/fundamental_fetch_log_repository.py:58-79 | In a log in any order the query finds the greatest timestamp of the rows asked for, and none exactly when there are none |
| FetchLog.CounterIsStreakLessTies | app/repositories/fundamental_fetch_log_repository.py:81-99 | The counter read by timestamps is the real streak of rate limits less the attempts whose timestamp ties with the success before them |
| FetchLog.StrictStampsDoNotTie | app/repositories/fundamental_fetch_log_repository.py:81-99 | With strictly increasing timestamps there are no ties, so the counter is exact |
| FetchLog.TiedStampsUndercount | app/repositories/fundamental_fetch_log_repository.py:81-99 | With a tie the counter is too low: a concrete log |
| FetchLog.StreakLastsExactlyWhen | app/repositories/fundamental_fetch_log_repository.py:81-99 | A streak lasts if and only if some rate-limited attempt has no success after it |
| FetchLog.PausedExactlyInStreak | app/repositories/fundamental_fetch_log_repository.py:58-79 | There is a rate limit to pause for if and only if a streak lasts, or the last success carries the timestamp of a rate-limited attempt before it |
| TiedHistory.RunsUndercount | app/fundamentals/queue_service.py:120-265 | Two clocked runs that leave a log with a streak of two of which the counter counts one |
| FetchLog.StreakAnchorsPause | app/repositories/fundamental_fetch_log_repository.py:58-79 | While only failures follow, the pause is anchored at the newest rate-limited attempt |
| FundamentalQueue.SortIsStable | app/fundamentals/queue_service.py:286-318 | The pending list is ordered by tier and falling score, and candidates of equal priority keep their number and order |
| FundamentalQueue.PendingIsPrioritised | app/fundamentals/queue_service.py:286-318 | The pending list has exactly the rows of a candidate scanner without a successful fetch younger than the TTL: confirmed breakouts, momentum, pre-breakouts, rejected ones, the rest, and within each the higher score first |
| FundamentalQueue.FinishAnswers | app/fundamentals/queue_service.py:161-205 | The symbols handled are the resolvable ones of the chosen prefix, in order, and all of them unless the run stopped at a rate limit, which is then its last row |
| FundamentalQueue.RunAccounting | app/fundamentals/queue_service.py:143-205 | processed = rows logged = succeeded + cached + failed + (1 if rate-limited), at most the run limit and at most what is left of the day |
| FundamentalQueue.TallyReports | app/fundamentals/queue_service.py:360-376 | The counters of the report are the numbers of log rows of each status |
| FundamentalQueue.FundamentalQueueService.RunQueue | app/fundamentals/queue_service.py:120-205 | Lock, cooldown and budget gates, then the batches: the log grows by exactly the rows of the run specification, and the report is the tally of those rows |
| FundamentalQueue.FundamentalQueueService.ProcessBatches | app/fundamentals/queue_service.py:165-205 | The nested batch loops write what one pass over the list writes, stopping at once on a rate limit |
| FundamentalQueue.FundamentalQueueService.ProcessOne | app/fundamentals/queue_service.py:324-376 | One request: one log row and one counter |
| QueueHistory.RunAnswersPending | app/fundamentals/queue_service.py:120-205 | A run does nothing if the lock is taken, while paused, or when the budget of its day is used up; otherwise it answers the resolvable ones of as many pending candidates as its limit and the rest of the day allow, all of them unless it stops at a rate limit |
| QueueHistory.RunKeepsDailyBudget | app/fundamentals/queue_service.py:143-159 | One more run keeps every market day within its maximum, also when it runs past midnight |
| QueueHistory.DailyBudgetHolds | app/fundamentals/queue_service.py:143-159 | Over any history of serialised runs no market day has more log rows than the daily maximum |
| QueueHistory.HistoryIsSpaced | app/fundamentals/queue_service.py:241-265 | Over any history the attempt after the k-th counted one of a streak comes at least min(cooldown times multiplier^(k-1), cap) later, less the lag of the row timestamps |
| QueueHistory.CooldownEscalates | app/fundamentals/queue_service.py:251-265 | The first cooldown is the base, each after it is the one before times the multiplier up to the cap, and for a multiplier above 1 each is strictly longer than the one before exactly until the cap is reached |
| QueueHistory.PausedExactlyUntil | app/fundamentals/queue_service.py:241-265 | In a streak of k counted attempts a run is paused if and only if it comes before the newest rate-limited attempt plus min(cooldown times multiplier^(k-1), cap), and until then |
| QueueHistory.PausedOutsideStreakExactlyWhen | app/fundamentals/queue_service.py:241-265 | Outside a streak a run is paused if and only if the last success ties with a rate limit before it and the base cooldown has not passed since |
| QueueHistory.CounterMissesAtMostOne | app/repositories/fundamental_fetch_log_repository.py:81-99 | Over any clocked history the escalation counter is exact or one too low |
| QueueHistory.RateLimitedAttemptsSpanCooldowns | app/fundamentals/queue_service.py:241-265 | Over any clocked history two rate-limited attempts without a success between are apart by at least the waits min(cooldown times multiplier^(k-1), cap) of the attempts in between, each less the lag of the timestamps, counted from the first attempt that does not tie with the success before the streak; at most one does |
| QueueHistory.RateLimitedAttemptsAreFew | app/fundamentals/queue_service.py:251-265 | Over any clocked history a window holds at most one such attempt, and one more for each shortest cooldown, less the lag, that fits into it |
| Alerts.DuplicatesExactlyWhen | app/alerts/deduplicator.py:20-41 | Two decisions have one fingerprint if and only if they agree on symbol, scanner, signal, level (the breakout level if given and not zero, else the resistance level) and day (that of the snapshot if given, else of the timestamp) |
| Alerts.SuppressedExactlyWhen | app/alerts/manager.py:89-122 | A decision to alert adds no alert if and only if the newest alert of a duplicate decision is not EXPIRED, or one of the same symbol and signal was created within the cooldown |
| Alerts.DeliveredSignalReturns | app/alerts/deduplicator.py:25-51 | A delivered signal that comes again after the cooldown is suppressed if and only if it is of the same day |
| Alerts.UnblockedMeansFree | app/alerts/throttler.py:23-36 | When neither check suppresses, every alert of the symbol and signal is older than the cooldown and the newest one of the fingerprint is EXPIRED |
| Alerts.ExpiryEventsAre | app/scheduler/alert_jobs.py:31-33 | The expiry job logs EXPIRED for exactly the alerts it writes |
| Alerts.AlertStore.Process | app/alerts/manager.py:76-173 | One decision without interference: verdict, duplicate check, cooldown; then a PENDING row with the decision's symbol, scanner, signal, level and day, the CREATED and QUEUED events and the queue entry, or the SUPPRESSED event of the alert that blocks |
| Alerts.AlertStore.Record | app/repositories/alert_repository.py:133-135 | A status update and its event change one row and append one event |
| Alerts.AlertStore.ReadStale | app/repositories/alert_repository.py:137-147 | The query returns the ids of exactly the undelivered rows past their expiry |
| Alerts.AlertStore.WriteExpired | app/scheduler/alert_jobs.py:26-36 | The update by primary key makes exactly these rows EXPIRED, whatever they are by then, and logs one event for each |
| Alerts.AlertStore.ExpireStale | app/repositories/alert_repository.py:137-150 | When nothing happens between the two, exactly the stale undelivered rows become EXPIRED |
| Delivery.NotificationManager.DeliverNow | app/notifications/manager.py:78-159 | An exception-free delivery logs attempts 1..n with n at most max_retries, has n-1 RETRYING events, and ends SENT or FAILED as the last answer says |
| Delivery.LastAttemptIsFirstFinal | app/notifications/manager.py:101-157 | n is the first attempt answered by a success or by a failure that is not retryable, or the last allowed |
| Delivery.SleptInTotal | app/notifications/manager.py:159 | Before attempt n+1 the sleeps add up to delay times (2^n - 1) |
| DeliveryRun.ProcessIsRun | app/alerts/manager.py:76-173 | One call of the alert manager without interference leaves the tables that the producer's check, creation and `put` leave, and these steps are enabled |
| DeliveryRun.DeliveryIsRun | app/notifications/manager.py:78-159 | Taking an alert and answering its sends step by step ends in the tables that the delivery loop leaves, and every step on the way is enabled |
| AlertProtocol.KeepsInv | app/alerts/manager.py:83-173 | Every step of every interleaving of two producers, consumer, expiry query, expiry update, crash and restart keeps the invariant: ids known, expired rows logged, no SENT row in delivery, same signals apart, fingerprints back only after expiry |
| AlertProtocol.KeepsCleared | app/alerts/manager.py:89-122 | What a producer found in its checks stays true until it creates the row, because the other path raises other signals and scanners |
| AlertGuarantees.AlertsAreSeparated | app/alerts/manager.py:89-122 | In every execution two alerts of one symbol and signal are created more than the cooldown apart, and a fingerprint comes back only after every earlier alert of it was recorded EXPIRED |
| AlertDeliveries.SentIsLeftExactlyWhen | app/repositories/alert_repository.py:137-150 | A step takes an alert out of SENT if and only if it is the expiry job's update and the job had read the alert |
| AlertDeliveries.SentIsLoggedExactlyWhen | app/notifications/manager.py:126-137 | A step logs a SENT event for an alert if and only if it records its delivery |
| AlertDeliveries.SentIsAccounted | app/notifications/manager.py:83-137 | In every execution an alert has one SENT event for each time its delivery was overwritten, and one more if it is SENT |
| AlertDeliveries.SentIsFinal | app/notifications/manager.py:78-92 | SENT is final in every execution in which no delivery is recorded for an alert that the expiry job has read and not yet written |
| AlertDeliveries.SentIsLoggedOnce | app/notifications/manager.py:126-137 | Then an alert has exactly one SENT event once it is SENT, and none before |
| AlertDeliveries.SentIsOverwritten | app/repositories/alert_repository.py:137-150 | Otherwise not: a concrete execution in which a recorded delivery becomes EXPIRED |
| AlertDeliveries.DeliveredSignalIsUnblocked | app/alerts/deduplicator.py:43-51 | Neither check then blocks the same signal once the cooldown has passed, although it was delivered |
| AlertDeliveries.SentTwice | app/notifications/manager.py:83-92 | And when the alert is also queued it is sent again: an execution with two SENT events |
| AlertGuarantees.UniquenessBreaksExactlyWhen | app/notifications/manager.py:83-92 | A step breaks "at most one live alert per fingerprint" if and only if it answers for an alert that expired in flight and has a live twin, or creates beside a revived one |
| AlertGuarantees.UniqueWithoutRevival | app/alerts/deduplicator.py:43-51 | As long as no expired alert is delivered after all, a fingerprint never has two live alerts |
| AlertGuarantees.RevivedAlertIsDuplicated | app/notifications/manager.py:78-92 | Otherwise it can: a concrete execution |
| AlertGuarantees.ForgottenExactlyWhen | app/notifications/manager.py:60-76 | A step makes the system forget an undelivered alert if and only if an exception ends the delivery of one that is not waiting elsewhere, or a restart finds one that nothing holds behind 200 or more older undelivered ones |
| AlertGuarantees.QuietRestartForgetsExactlyWhen | app/notifications/manager.py:60-76 | A restart with nothing in progress forgets no alert if and only if at most 200 are undelivered |
| AlertGuarantees.AbortForgetsAlert | app/notifications/manager.py:46-55 | A concrete execution in which an exception makes the system forget an alert |
| AlertGuarantees.RestartForgetsAlert | app/repositories/alert_repository.py:122-131 | A concrete execution in which a restart with 201 undelivered alerts forgets one |
| AlertGuarantees.NoAlertForgotten | app/notifications/manager.py:46-76 | Without exceptions, and with at most 200 undelivered alerts at each restart, every undelivered alert is always still going to be delivered |
| Momentum.ProposalsArePermitted | app/momentum/state_machine.py:52-96 | Every proposed transition is an allowed edge, or a permitted first state |
| Momentum.EdgeIsTakenExactlyWhen | app/momentum/momentum_models.py:33-46 | Every state but the two final ones may be invalidated, and some score takes an edge if and only if it is allowed and not one of the two from TRIGGERED or CONFIRMED to INVALIDATED |
| Momentum.EdgesRaiseRank | app/momentum/momentum_models.py:33-59 | Every transition moves forward in the life cycle |
| Momentum.LogIsChain | app/repositories/momentum_state_repository.py:23-57 | For any scores the log is a chain of allowed edges starting from nothing whose last target is the pointer, and no state comes back |
| Momentum.ChainIsShort | app/momentum/momentum_models.py:33-55 | So a symbol has at most six log rows |
| Momentum.StateFromScores | app/momentum/state_machine.py:52-96 | The state after any scores, by the scores alone: the step that triggers is the first score at the threshold after the activation, the activation the first in the upper third after WATCH; SETUP lasts one evaluation, WATCH and ACTIVATING mean that no later score is below a third of the threshold, CONFIRMED that every score since the trigger is at the threshold |
| MomentumEngine.MomentumStateEngine.Evaluate | app/momentum/momentum_engine.py:61-142 | Log, pointer and alerts move as the value model says; an unknown symbol or no transition changes nothing, and entering any state but TRIGGERED and CONFIRMED leaves the alerts alone |
| MomentumEngine.FirstEntryIsUnblocked | app/alerts/manager.py:89-122 | A state entered now was never entered before, so neither duplicate check nor cooldown suppresses its alert |
| MomentumEngine.OneAlertPerEntry | app/momentum/momentum_engine.py:80-142 | From an empty alert table, for each symbol and each of TRIGGERED and CONFIRMED: alerts of that signal plus entries cut off by a crash between the two commits equal the entries, of which there is at most one |
| MomentumEngine.EvaluationRaises | app/momentum/momentum_engine.py:98-142 | After any history an evaluation that enters TRIGGERED or CONFIRMED adds exactly one PENDING alert of that signal, scanner and market day, and one that enters any other state, or none, adds no alert |
| FeatureRun.RanksAreUnique | app/repositories/market_repository.py:199-222 | No two rows of a symbol have the same rank |
| FeatureRun.BulkAgreesWithSingle | app/repositories/feature_repository.py:46-105 | The bulk query at rank one answers exactly what the single-row latest query answers, for every symbol |
| FeatureRun.History | app/repositories/market_repository.py:262-271 | Each bar of the history is the stored one of its date |
| FeatureRun.HistoryIsMostRecent | app/repositories/market_repository.py:262-271 | The history has the most recent `limit` dates, in increasing order: any other stored date is earlier |
| FeatureRun.BenchmarkIsMostRecent | app/features/engine.py:230-238 | The benchmark given to the calculation is its most recent bars within the lookback, in order, and absent exactly without a benchmark symbol or any such bar |
| FeatureRun.FeatureEngine.RunDaily | app/features/engine.py:118-161 | With the bulk pre-filter the run ends in the same store, counts and errors as the loop over all symbols |
| FeatureRun.FeatureEngine.NeedingWork | app/features/engine.py:135-150 | The pre-filter keeps, in order, exactly the symbols that are not up to date |
| FeatureRun.FeatureEngine.RunDailyForSymbol | app/features/engine.py:240-270 | One symbol: nothing when up to date or with fewer than two bars, nothing when the calculation raises, otherwise the rows after the last feature date |
| FeatureRun.SkippingIsExact | app/features/engine.py:126-150 | Skipping the symbols that are up to date before the run changes nothing, although the run changes the store as it goes |
| FeatureRun.NewRowsAreTheNewBars | app/features/engine.py:255-267 | The new rows of a symbol are exactly those computed for the bars of its history dated after its last feature |
| FeatureRun.RunExtends | app/features/engine.py:259-267 | No run rewrites or removes a row, or adds one at or before the last feature date of its symbol |
| FeatureRun.RunCounts | app/features/engine.py:152-161 | A run adds exactly as many rows as it reports, at least one for each symbol reported as updated |
| FeatureRun.SymbolIsIdleAfterwards | app/features/engine.py:240-270 | A symbol whose calculation does not raise has nothing left to do |
| FeatureRun.SecondRunWritesNothing | app/features/engine.py:118-161 | An immediate second run changes no row, reports no update and reports the same errors |
| Pipeline.RedisPipelineEventQueue.Publish | app/pipeline/queue.py:65-73 | Publishing adds one event |
| Pipeline.RedisPipelineEventQueue.Read | app/pipeline/queue.py:75-91 | The first read returns the oldest pending entries and ends the drain whatever it finds; every other read delivers new ones |
| Pipeline.RedisPipelineEventQueue.Ack | app/pipeline/queue.py:93-94 | Acknowledging removes one entry from the pending ones |
| Pipeline.PipelineWorker.HandleBatch | app/pipeline/worker.py:65-75 | A round processes and acknowledges entry by entry; a failure leaves that entry pending and does not stop the others |
| Pipeline.RoundIsRun | app/pipeline/worker.py:65-75 | Every round of the worker is a possible run of the protocol actions with the same outcome |
| Pipeline.KeepsInv | app/pipeline/worker.py:54-75 | Every action keeps: delivered entries are pending or acknowledged, never both, and acknowledged ones were completely processed |
| Pipeline.ReachableInv | app/pipeline/worker.py:54-75 | This holds in every interleaving of publish, read, lost read, process, failure, acknowledgement and restart |
| Pipeline.RedeliveredBeforeNew | app/pipeline/queue.py:48-91 | After a restart nothing new is delivered or processed before the first successful read, which returns the oldest pending entries |
| Pipeline.StrandedUntilRestart | app/pipeline/queue.py:75-91 | A pending entry outside the batch is not processed again before another restart |
| Pipeline.LostReadStrands | app/pipeline/queue.py:75-91 | The entries of a live read whose answer is lost stay pending and are not processed before another restart |
| Pipeline.EleventhIsStranded | app/pipeline/queue.py:75-91 | A concrete run: eleven delivered events are not processed, and after the restart the eleventh stays pending short of another restart |
| Pipeline.LeftOutStays | app/pipeline/queue.py:75-91 | Without failures exactly the entries that the drain left out stay pending beside the batch |
| Pipeline.DrainedExactlyWhen | app/pipeline/queue.py:75-91 | A failure-free drain leaves exactly the entries beyond the first ten pending: none if and only if at most ten were |
| Pipeline.ProcessedAtMost | app/pipeline/worker.py:65-75 | In any run an event is completely processed at most once more than there are restarts |
| TradingCalendar.GetHoliday | app/market_calendar/calendar.py:54-64 | The first holiday of the day that applies to the segment, or the unverified year |
| TradingCalendar.WeekdaysCycle | app/market_calendar/calendar.py:74-80 | The weekdays follow one another from Monday to Sunday, and 1 January 1970 was a Thursday |
| TradingCalendar.TradesExactlyWhen | app/market_calendar/calendar.py:74-80 | A day trades if and only if it is a weekday of a verified year on which no holiday closes the segment |
| TradingCalendar.NextTradingDay | app/market_calendar/calendar.py:96-106 | The nearest later trading day, or the unverified year met on the way, or none within thirty days |
| TradingCalendar.PreviousTradingDay | app/market_calendar/calendar.py:83-93 | The nearest earlier trading day, or the unverified year met on the way, or none within thirty days |
| TradingCalendar.NextIsUnique | app/market_calendar/calendar.py:96-106 | The answer is determined |
| TradingCalendar.PreviousIsUnique | app/market_calendar/calendar.py:83-93 | The answer is determined |
| TradingCalendar.PreviousInvertsNext | app/market_calendar/calendar.py:83-106 | If a day trades and its next trading day exists, going back from there returns to it, without error |
| TradingCalendar.NextInvertsPrevious | app/market_calendar/calendar.py:83-106 | Likewise the other way round |
| TradingCalendar.NextIsMonotone | app/market_calendar/calendar.py:96-106 | The walk forward is monotone wherever it succeeds |
| TradingCalendar.PreviousIsMonotone | app/market_calendar/calendar.py:83-93 | The walk back is monotone wherever it succeeds |
| Backfill.IndexByIsin | scripts/backfill_ipo_listing_dates.py:150-152 | The index lists under each ISIN exactly the symbols recorded under it |
| Backfill.MatchRows | scripts/backfill_ipo_listing_dates.py:133-205 | Writes and report are those of the row outcomes, each decided by the symbols seen before it |
| Backfill.MatchRow | scripts/backfill_ipo_listing_dates.py:160-203 | The branches for one row, in their order |
| Backfill.CandidatesAreRecorded | scripts/backfill_ipo_listing_dates.py:150-152 | A symbol is a candidate for an ISIN if and only if that is its recorded ISIN |
| Backfill.MatchesAreConfident | scripts/backfill_ipo_listing_dates.py:174-199 | A match is a known symbol whose recorded ISIN does not contradict the row; by ISIN it is the only symbol with it |
| Backfill.RowsArePartitioned | scripts/backfill_ipo_listing_dates.py:157-203 | Every row is in exactly one class, and populated = matched by ISIN + matched by symbol |
| Backfill.WrittenExactlyWhen | scripts/backfill_ipo_listing_dates.py:202-203 | A symbol is written if and only if a row populates it, with the date of the last such row |
| Backfill.WritesAreConfident | scripts/backfill_ipo_listing_dates.py:133-205 | Every write is for a known symbol, from a row that repeats no earlier one and whose ISIN agrees |
| Backfill.PopulatedCountsWrites | scripts/backfill_ipo_listing_dates.py:202-203 | The populated count equals the number of writes if and only if no two first-of-their-symbol, dated, not excluded rows mean one symbol: one carrying the ISIN recorded for it alone, the other the same ISIN, or its name and no ISIN |
| Backfill.RenamedSymbolIsOverwritten | scripts/backfill_ipo_listing_dates.py:174-203 | A renamed symbol listed under both names counts twice and is written once |
| SourceMerge.MergeField | app/fundamentals/orchestrator.py:136-164 | The first source that has the field wins; the alternates are exactly the later differing values, in order |
| SourceMerge.MergeIsUnique | app/fundamentals/orchestrator.py:136-164 | The merge is determined by the sources |
| SourceMerge.LowerPriorityOnlyAdds | app/fundamentals/orchestrator.py:136-164 | Appending lower-priority sources fills a gap or adds alternates, and changes nothing else |
| SourceMerge.MergeRiskNotes | app/fundamentals/orchestrator.py:167-177 | The loop over the seen notes collects the notes in order of first appearance |
| SourceMerge.NotesAreUnion | app/fundamentals/orchestrator.py:167-177 | A note of any source is there exactly once, and more sources never remove or move one |
| SourceMerge.GetFundamentalsWithStatus | app/fundamentals/orchestrator.py:82-133 | The first answer with data; without any, RATE_LIMITED if and only if some source was, with the error of the last such; otherwise what the last source said |
| Scorer.BandsAreMonotone | app/fundamentals/scorer.py:37-48 | Falling bands score monotonically, whatever their thresholds |
| Scorer.HigherReachesBandExactlyWhen | app/fundamentals/scorer.py:37-48 | With falling thresholds and scores a figure scores as much as a band if and only if it reaches the threshold of the band, or the band is the last |
| Scorer.LowerReachesBandExactlyWhen | app/fundamentals/scorer.py:37-48 | Likewise with rising thresholds where less is better |
| Scorer.HigherFiguresCountLimits | app/fundamentals/scorer.py:51-99 | In the factors where more is better the sub-score grows by a fixed amount with each limit reached, with the limits as listed |
| Scorer.LowerFiguresCountLimits | app/fundamentals/scorer.py:51-99 | Likewise where less is better, and a P/E of zero or less scores 50 |
| Scorer.WeightsAreShared | app/fundamentals/scorer.py:207-253 | The shares of the factors of a category are equal and add up to the weight of the category |
| Scorer.OverallIsWeightedMean | app/fundamentals/scorer.py:207-253 | The score is the mean of the known sub-scores weighted by their factors, and there is one if and only if the known weight is positive |
| Scorer.BetterFiguresScoreNoLess | app/fundamentals/scorer.py:51-99 | In each one-directional factor a better figure never scores less |
| Scorer.PeIsNotMonotone | app/fundamentals/scorer.py:85-91 | The P/E has no direction |
| Scorer.Totals | app/fundamentals/scorer.py:207-253 | The loop accumulates the weights and contributions of the known factors |
| Scorer.Score | app/fundamentals/scorer.py:192-281 | Completeness is the percentage of the fourteen figures known; the score is withheld below the completeness limit; a score of 55 or more is the good tier |
| Scorer.ScoreIsBetween | app/fundamentals/scorer.py:249-253 | The score lies between any bounds of the known sub-scores |
| Scorer.ScoreIsMonotone | app/fundamentals/scorer.py:207-253 | A better figure in a known one-directional factor never lowers the score |
| Scorer.NewFactorAttracts | app/fundamentals/scorer.py:207-253 | A newly known factor moves the score toward its sub-score and never past it |
| Universe.SymbolTable.Upsert | app/repositories/market_repository.py:74-94 | Upserting a symbol makes it active |
| Universe.SymbolTable.DeactivateMissing | app/repositories/market_repository.py:103-122 | Exactly the active symbols that are not current become inactive |
| Universe.MarketDataCollector.CollectSymbols | app/data/collector.py:144-172 | A run leaves active either exactly the confirmed symbols or all that were active and the confirmed ones, as the guard decides |
| Universe.MarketDataCollector.UpsertAll | app/data/collector.py:157-168 | Every valid symbol is upserted and confirmed, the others are counted as failed |
| Universe.MarketDataCollector.Reconcile | app/data/collector.py:174-205 | Deactivation happens if and only if enough of the active symbols are confirmed |
| Universe.DeactivatesAtMost | app/data/collector.py:189-200 | A run deactivates at most the untrusted fraction of the active symbols |
| Universe.GuardIsStricter | app/data/collector.py:174-196 | The check made is stricter than the one described exactly when the new symbols raise the bar above the number confirmed |
| Universe.NewSymbolBlocksReconciliation | app/data/collector.py:174-196 | A concrete universe on which the two differ |

## Left out

- Indicators: floating-point rounding; numbers are exact. SMA, EMA, MACD, Bollinger and Keltner bands, OBV, swing points and pivots, which have no guaranteed range.
- FeatureCleaning: the composite scores of the other bounded columns; only the four indicator columns are computed here.
- FeatureRun: the calculators are one unknown function of history and benchmark; equality with a full-history recompute is not claimed, because the lookback window is truncated.
- FeatureRun: session features, whose pre-filter uses the same condition as the per-symbol query; database errors while rows are written.
- TickAggregator: decoding of frames and records without a trade; the conversion of prices from floats.
- MarketFeed: a flush is one step, and ticks that arrive while it writes count as arriving after it; they go to a fresh buffer.
- MarketFeed: reconnects that change the subscribed symbols, and the REST backfill that writes to the same price table.
- FeedHistory: candles of keys without a current symbol, which the flush drops; no caller of `flush_open_buckets` is known, so open buckets stay a separate term.
- FundamentalQueue: writing figures, snapshots and statuses back into the candidate rows (the table is an input of each run), the pauses between batches, malformed stored scores and dates.
- FundamentalQueue: the run limit is a natural number; a negative one, which would slice from the other end, is not modelled.
- QueueHistory: one clock that never runs backwards is assumed. The spacing results allow rows to be stamped earlier than the instants their run read, by a lag that must be shorter than the shortest cooldown; the daily budget is stated without a lag, because a row stamped before midnight by a run that read the clock after it counts for the wrong day.
- Alerts: the SHA-256 fingerprint is the tuple of its fields; prices, quality, reasons and delivery category of an alert.
- AlertProtocol: putting an alert on the queue and logging QUEUED are one step; database failures other than those that end a delivery.
- Delivery: a row deleted during its delivery, and the message formatting that can end one early.
- Momentum: queries for dashboards; entry times and scores of the pointer beyond what the log needs.
- Pipeline: trimming of the stream by its length limit, malformed stream entries, heartbeats; reads return as many entries as there are up to ten.
- TradingCalendar: the year of a date is a parameter, and the ends of the date range are not modelled; the actual holiday data.
- Backfill: parsing of the CSV file and the database update.
- SourceMerge: assembling the merged record from its fields, and the period and date of a snapshot.
- Scorer: factor reasons and risk flags, which are formatting and three threshold tests.
- Universe: the columns a symbol upsert overwrites besides its activity; database errors.
- MarketClock: zones with daylight saving; the offset is fixed.
- HTTP, WebSocket, Telegram and MCP clients, routes, dashboards, digests, logging, schemas and migrations, decision rules, candidate scanners and sanity checks: input and output, or readings of one branch.
