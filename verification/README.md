# pearl-algo verification

A Dafny model of the accounting, simulation and protocol cores of a futures
trading bot and its research and operations tools. The parts share one
vocabulary: fills, lots, bars, signals, trades and stops. `dafny verify
dfyconfig.toml` checks the whole project.

| file | models |
|---|---|
| `Fifo.dfy`, `FifoTheorems.dfy` | pairing broker fills into round-trip trades; its refinement of a queue of single contracts; its accounts |
| `Attribution.dfy`, `AttributionTheorems.dfy` | greedy matching of trades to signals, and how good it is |
| `Rebuild.dfy`, `RebuildTheorems.dfy` | merging fill-backed rows into the performance file; running it again |
| `CircuitBreaker.dfy`, `BreakerTheorems.dfy` | the backtest circuit breaker as an object; its counters, answers and pauses as functions of any sequence of calls |
| `Engine.dfy`, `EngineTheorems.dfy`, `EngineAdmission.dfy`, `EngineProvenance.dfy` | the bar-by-bar backtester; whole-run safety; what becomes of each signal; where each result comes from |
| `Metrics.dfy` | the drawdown of a list of results |
| `Scoring.dfy`, `Replay.dfy`, `ReplayTheorems.dfy`, `ReplayProvenance.dfy` | the replay gate: one-pass scorecard, concurrency slots, slippage; which signals are taken and how each trade leaves |
| `Exposure.dfy` | the sweep over entry and exit events against the brute-force maximum |
| `Dedup.dfy` | the bounded, expiring duplicate filter against its acceptance log |
| `Backfill.dfy`, `BackfillProgress.dfy` | the checkpointed download as a protocol that can be killed anywhere; what one run does in full |
| `BtcTrend.dfy`, `BtcProvenance.dfy` | the BTC position state machine, its equity, and exactly which trades it makes |
| `Reconnect.dfy`, `ReconnectProgress.dfy` | the WebSocket hook under every interleaving of its events; when and how often it retries |
| `Candles.dfy` | merging pages of candles, and paging back through the archive |
| `Common.dfy`, `StableSort.dfy` | sequences, sums, and the contract of a stable sort |

Code that loops or mutates is a method or a class whose contract equates its
result, or its new state, with a function of its inputs and its old state. The
theorems are about those functions: over every input, every run, or every
sequence of events. Automatic induction is off in every lemma, so each proof is
its own body.

## What the proofs found

- **Rebuild can refuse to write.** A row whose exit time does not parse sorts by a
  time-zone-aware fallback, while parsed times are naive. Sorting a list that
  holds both raises, and the file stays as it was
  (`UnparseableRowBlocksRebuild`). `RebuildWritesExactlyWhen` is the exact
  condition; the rebuild is idempotent in either case.
- **A re-attributed trade can be listed twice.** A fill row keeps its tag, so a row
  under an id that a later run no longer produces survives. Two fills rebuilt
  before and after their signal is known are listed under both ids
  (`OneTradeListedTwice`). No stale row is left exactly when the later run
  accounts for every earlier id (`NoneStaleExactlyWhen`); batches of later fills
  always do (`IncrementalRebuild`).
- **Greedy attribution is within a factor two of the best matching, and no better**
  (`AttributionIsHalfOptimal`, `HalfIsAttained`).
- **A backfill can pass over a failed chunk for good.** The script's header says a
  re-run resumes cleanly; a fetch that raises is skipped, and the next saved chunk
  moves the checkpoint past it (`RaisedChunkLeavesGap`). Re-runs at one time are
  complete exactly when none of them saves a chunk after one that raised and was
  never fetched (`RerunsAreCompleteExactlyWhen`). A chunk fetched just before a
  kill still counts, so a raise alone does not decide it. A point a chunk's
  length behind the checkpoint stays missing in every later run
  (`GapIsForGood`).
- **The reported drawdown ignores the starting balance.** The running maximum starts
  at the first trade, so an opening loss is not a drawdown
  (`FirstLossIsInvisible`). It covers falls from the start exactly when every dip
  below the start is matched by a fall as deep between two trades
  (`DrawdownCoversStartExactlyWhen`).
- **A rolling-win-rate block never ends.** Only a closed trade can lift it and none
  can open, on any later day either (`LockoutIsPermanent`). A rolling window below
  two divides by zero until the first trade (`RaisesExactlyWhen`); a backtest with
  one never trades, and the first signal to reach that check ends it
  (`SmallWindowNeverTrades`).
- **Panning left can leave a gap.** The hook's header speaks of the next older
  window; the archive answers with its oldest bars. The history is complete
  exactly when the older bars fit in one page (`PagingIsCompleteExactlyWhen`).
- **A ping timer and an open socket can outlive the unmount**
  (`OrphanOutlivesUnmount`). A ping timer does exactly when an open handler once
  ran while one was set (`PingsStopExactlyWhen`); a socket does exactly when a
  connect replaced it while it was connecting and nothing closed it since
  (`SocketOutlivesExactlyWhen`). Reconnect timers never do.

## Model

| member | source | states |
|---|---|---|
| Fifo.MatchLots | scripts/ops/backfill_performance_from_fills.py:105-132 | The matching loop closes against the oldest lots and leaves the lots and the remainder of the value-level match |
| Fifo.PairFills | scripts/ops/backfill_performance_from_fills.py:73-137 | Pairing any list of fills yields exactly the trades of the value-level run over the readable fills in time order; unreadable, empty and non-trade rows are skipped |
| FifoTheorems.RunShape | scripts/ops/backfill_performance_from_fills.py:85-135 | The open lots are always on one side, of positive quantity and oldest first; trades have positive size and no two neighbours join the same two fills |
| FifoTheorems.PairingRefinesQueue | scripts/ops/backfill_performance_from_fills.py:101-135 | Lot-level pairing is the queue of single contracts: the same contracts wait and the same contracts are paired, in the same order, flips included |
| FifoTheorems.TradesAreQueueGroups | scripts/ops/backfill_performance_from_fills.py:83-137 | The trades are exactly the (entry fill, exit fill, quantity) groups of contract-by-contract pairing of the time-ordered fills |
| FifoTheorems.TradesDescribeFills | scripts/ops/backfill_performance_from_fills.py:109-127 | Every trade's sides, times, prices, id, result and exit reason are those of its own two fills, entry first, on opposite sides |
| FifoTheorems.PairingBalances | scripts/ops/backfill_performance_from_fills.py:87-137 | Twice the traded size plus the open quantity is all quantity filled; profit is sales less purchases plus the cost still open; n readable fills give at most n - 1 trades |
| Attribution.FindBest | scripts/ops/backfill_performance_from_fills.py:280-298 | The scan of the remaining candidates finds the one that is least by time, then price, then position, and none only when none is eligible |
| Attribution.AttributeOne | scripts/ops/backfill_performance_from_fills.py:279-299 | One trade takes the best free candidate and exactly that one leaves the list |
| Attribution.AttributeTrades | scripts/ops/backfill_performance_from_fills.py:263-308 | The two returned lists are those of the greedy choices, in trade order |
| AttributionTheorems.ChoiceIsBest | scripts/ops/backfill_performance_from_fills.py:280-299 | Each trade gets the nearest candidate that is eligible and not yet used, and none exactly when there is none |
| AttributionTheorems.EveryChoiceIsFirstLeft | scripts/ops/backfill_performance_from_fills.py:267-299 | In plain numbers: each trade takes, by time, then price, then position, the first signal of its side and size within two points and three minutes that no earlier trade took, and none exactly when there is none |
| AttributionTheorems.AttributionIsMatching | scripts/ops/backfill_performance_from_fills.py:281-299 | No signal is attributed twice and every attribution is eligible |
| AttributionTheorems.AttributionIsMaximal | scripts/ops/backfill_performance_from_fills.py:267-306 | Every signal an unattributed trade could have had is used |
| AttributionTheorems.AttributionIsHalfOptimal | scripts/ops/backfill_performance_from_fills.py:263-308 | No assignment of distinct eligible signals attributes more than twice as many trades |
| AttributionTheorems.HalfIsAttained | scripts/ops/backfill_performance_from_fills.py:263-308 | Four fills whose two trades, with two signals, greedy gives one attribution where two are possible |
| AttributionTheorems.AttributionPartitionsTrades | scripts/ops/backfill_performance_from_fills.py:264-308 | Every trade is returned exactly once, attributed or not |
| Rebuild.BuildFillRows | scripts/ops/backfill_performance_from_fills.py:345-368 | One fill-matched row per trade, and the set of exactly their ids |
| Rebuild.KeepRows | scripts/ops/backfill_performance_from_fills.py:370-381 | The old rows whose id no fill accounts for are kept, in order, retagged unless fill-matched |
| Rebuild.RebuildRows | scripts/ops/backfill_performance_from_fills.py:331-387 | Pairing, attribution, merge and sort together give the value-level result, or the error the sort raises |
| RebuildTheorems.RowsStateTheirTrades | scripts/ops/backfill_performance_from_fills.py:345-368 | One fill row per trade and no other; every field of a row is that of the trade's two fills and of the signal attributed to it, with the source's defaults |
| RebuildTheorems.RebuildLosesNothing | scripts/ops/backfill_performance_from_fills.py:345-387 | What is written is, counted with multiplicity, the fill rows and the unaccounted old rows, in exit-time order |
| RebuildTheorems.RebuildWritesExactlyWhen | scripts/ops/backfill_performance_from_fills.py:383-387 | The file is written exactly when the exit times that go into it do not mix texts that parse with texts that do not |
| RebuildTheorems.SecondRun | scripts/ops/backfill_performance_from_fills.py:345-387 | A second run over the file of a first, in full: its own rows, the first run's rows it does not account for, and the old rows neither accounts for |
| RebuildTheorems.UnparseableRowBlocksRebuild | scripts/ops/backfill_performance_from_fills.py:383-387 | Two fills and any old row without an id whose exit time does not parse, for which the sort raises and the file stays |
| RebuildTheorems.StaleRowSurvives | scripts/ops/backfill_performance_from_fills.py:373-381 | A fill row whose id a later run does not produce stays in the file |
| RebuildTheorems.NothingCarriedExactlyWhen | scripts/ops/backfill_performance_from_fills.py:373-381 | A run carries over none of an earlier run's fill rows exactly when it accounts for all their ids |
| RebuildTheorems.NoneStaleExactlyWhen | scripts/ops/backfill_performance_from_fills.py:345-387 | After two runs every fill-backed row belongs to the second exactly when it accounts for every id of the first and the two for every fill-backed row before them |
| RebuildTheorems.OneTradeListedTwice | scripts/ops/backfill_performance_from_fills.py:298-387 | Two fills make one trade; rebuilt before and after its signal is known, the file holds that trade under both ids and nothing else |
| RebuildTheorems.RunsAbsorb | scripts/ops/backfill_performance_from_fills.py:345-387 | If the second run accounts for every id of the first, the result is as if only the second had run |
| RebuildTheorems.RebuildIsIdempotent | scripts/ops/backfill_performance_from_fills.py:331-387 | On the same fills and signals a second run leaves the identical file, whether the first wrote it or failed |
| RebuildTheorems.IncrementalRebuild | scripts/ops/backfill_performance_from_fills.py:331-387 | Rebuilding after each of any number of batches of later fills, failed rebuilds included, ends as one rebuild over all of them does |
| CircuitBreaker.BacktestCircuitBreaker.RecordBlock | scripts/backtesting/backtest_engine.py:110-112 | Both block counters rise by one, for that reason only |
| CircuitBreaker.BacktestCircuitBreaker.StartDay | scripts/backtesting/backtest_engine.py:125-132 | A new day clears the counters and the cooldown; the same day changes nothing |
| CircuitBreaker.BacktestCircuitBreaker.RollingBlocked | scripts/backtesting/backtest_engine.py:167-171 | The win-count loop decides whether the rolling win rate is under its floor |
| CircuitBreaker.BacktestCircuitBreaker.CheckLimits | scripts/backtesting/backtest_engine.py:143-174 | The checks from the loss streak on answer in the source's order, with that check's pause and block count |
| CircuitBreaker.BacktestCircuitBreaker.ShouldAllow | scripts/backtesting/backtest_engine.py:114-200 | Answer and whole new state of one question, with the block counters, and the division by zero as an outcome |
| CircuitBreaker.BacktestCircuitBreaker.RecordTrade | scripts/backtesting/backtest_engine.py:202-215 | The whole new state after a trade: streak, both P&L counters and the trimmed buffer |
| CircuitBreaker.BufferIsHistorySuffix | scripts/backtesting/backtest_engine.py:202-215 | After any calls the buffer is the end of the full trade history and daily P&L equals session P&L |
| CircuitBreaker.TrimmingChangesNoDecision | scripts/backtesting/backtest_engine.py:167-174 | For every window, the rolling check decides on the trimmed buffer as on the full history |
| CircuitBreaker.LockedUntilNextTrade | scripts/backtesting/backtest_engine.py:125-174 | Once the rolling rate is under the floor nothing is allowed, across any questions and days, until a trade is recorded |
| CircuitBreaker.RaisesExactlyWhen | scripts/backtesting/backtest_engine.py:168-170 | A question divides by zero exactly for a window below two with no trade recorded and no earlier check answering |
| BreakerTheorems.CountersFollowCalls | scripts/backtesting/backtest_engine.py:125-215 | After any calls the loss streak and both P&L counters are those of the trades recorded since the last question that turned the day |
| BreakerTheorems.StreakIsTrailingLosses | scripts/backtesting/backtest_engine.py:204-207 | That streak is the losses at the end of those trades: all of them losses, with a win or nothing in front |
| BreakerTheorems.AnswerIsExact | scripts/backtesting/backtest_engine.py:114-200 | After any calls, exactly when a question gets each of its ten answers, in terms of the calls, the trades recorded and the configured limits |
| BreakerTheorems.PauseLastsExactly | scripts/backtesting/backtest_engine.py:134-174 | A block that pauses answers `Cooldown` for exactly its seconds on that day, whatever is asked or recorded meanwhile |
| Engine.CheckOpenTrades | scripts/backtesting/backtest_engine.py:529-638 | The exit loop over open trades, with the breaker object, computes the value-level exits in order |
| Engine.ConsiderSignal | scripts/backtesting/backtest_engine.py:659-738 | One signal goes through cooldown, open-trade, time-of-day and breaker checks in order, counting what blocked it |
| Engine.ReplayBar | scripts/backtesting/backtest_engine.py:517-738 | One bar of the loop: exits, then signals, up to a division by zero in the breaker |
| Engine.CloseRemaining | scripts/backtesting/backtest_engine.py:740-781 | Every trade still open is closed at the last close, in order |
| Engine.RunBacktest | scripts/backtesting/backtest_engine.py:439-791 | For any breaker, the whole loop and the end-of-data close yield the results, counters and breaker state of the value-level run, or no results when the breaker divides by zero |
| EngineAdmission.SignalMeetsItsFate | scripts/backtesting/backtest_engine.py:659-738 | A signal opens its trade if and only if the run goes on, none of its side was taken within a minute, none is open, time of day leaves it confident enough and the breaker passes it; otherwise exactly the first failing cause is counted |
| EngineAdmission.FatesAddUp | scripts/backtesting/backtest_engine.py:517-738 | Over every run the counters are the numbers of signals that met each fate, and results and open trades together are as many as the signals taken |
| EngineAdmission.TakenSignalIsTraded | scripts/backtesting/backtest_engine.py:659-781 | In a run that does not crash every signal taken is the origin of a result |
| EngineAdmission.ResultsAreSignalsTaken | scripts/backtesting/backtest_engine.py:659-781 | And there are exactly as many results as signals taken |
| EngineAdmission.PauseFollowsTrades | scripts/backtesting/backtest_engine.py:664-668 | With bars in time order the one-minute pause stops a signal exactly when a trade of its side, open or closed, was entered less than a minute before |
| EngineAdmission.BreakerHearsEveryResult | scripts/backtesting/backtest_engine.py:626-632 | In every run the breaker was told of exactly the results so far, each once and in order, with their dollars and sign |
| EngineTheorems.TrailOnlyTightens | scripts/backtesting/backtest_engine.py:537-568 | A bar moves a stop only in the trade's favour, exactly when it sets a phase, and changes nothing else but the best price |
| EngineTheorems.RunStaysSound | scripts/backtesting/backtest_engine.py:517-738 | At most one trade per direction is open, no stop is looser than at entry, and the session can afford to lose every open trade and stay within two risks of its limit |
| EngineTheorems.SessionFloorHolds | scripts/backtesting/backtest_engine.py:125-738 | After every single exit and every single signal, session P&L is at least -(max drawdown + 2 risk), and daily P&L equals it |
| EngineTheorems.TrailedTradesWin | scripts/backtesting/backtest_engine.py:537-781 | With such phases and positive ATR, every trade that ever got a phase closes with a profit, by stop, target or end of data; no stop exit is worse than the original stop |
| EngineTheorems.DefaultTrailedTradesWin | scripts/backtesting/backtest_engine.py:1203-1260 | With the command line's default phases every trade that ever got one returns a positive amount of dollars |
| EngineTheorems.LockoutIsPermanent | scripts/backtesting/backtest_engine.py:167-738 | A run that is flat while the rolling win rate is under its floor never trades again |
| EngineTheorems.SmallWindowNeverTrades | scripts/backtesting/backtest_engine.py:168-738 | A rolling window of two or more never ends a run by a division by zero; with a smaller one a run takes no trade at all |
| EngineProvenance.TrailRatchets | scripts/backtesting/backtest_engine.py:537-568 | One bar's trailing update moves the stop to where the levels of all bars since entry put it |
| EngineProvenance.StopIsTightest | scripts/backtesting/backtest_engine.py:549-568 | That stop is the tightest of the original stop and every trailing level reached since entry |
| EngineProvenance.ActivePhaseIsLastReached | scripts/backtesting/backtest_engine.py:549-568 | The phase that trails a stop is the last of the list whose activation the move has reached, and none exactly when none is reached |
| EngineProvenance.EveryResultIsExplained | scripts/backtesting/backtest_engine.py:517-781 | Every result is a signal some bar offered, closed by the first later bar reaching its target or its stop as trailed by then (the stop on ties) or at the last close, with the excursions of exactly the bars in between |
| Metrics.DrawdownIsWorstDip | scripts/backtesting/backtest_engine.py:818-822 | The reported drawdown is the worst change between any two trades in order, and some pair attains it |
| Metrics.DrawdownCoversStartExactlyWhen | scripts/backtesting/backtest_engine.py:818-822 | It bounds every fall, those from the starting zero too, exactly when every dip below the start is matched by a fall at least as deep between two trades |
| Metrics.FirstLossIsInvisible | scripts/backtesting/backtest_engine.py:818-822 | One losing trade alone is reported as no drawdown, although the total fell |
| Scoring.Scorecard.RecordTrade | scripts/ops/backtest_config.py:85-135 | The whole new card after one trade, and the net points returned; an unresolved trade changes nothing |
| Scoring.DrawdownIsLargestFall | scripts/ops/backtest_config.py:114-116 | The one-pass drawdown is the largest fall of the running total from zero or any earlier point, and is attained |
| Scoring.TotalsAddUp | scripts/ops/backtest_config.py:91-112 | Total is gross wins plus gross losses, entries are wins plus losses, and timeouts are among the entries |
| Scoring.TotalIsSalesLessPurchases | scripts/ops/backtest_config.py:61-93 | The total is all that was sold for, less all that was bought for, less one commission a trade |
| Scoring.WonByReasonAndMove | scripts/ops/backtest_config.py:95-112 | A trade is won exactly when it left at its target, or timed out having moved its way by at least the commission |
| Scoring.WinsAndLossesAreExact | scripts/ops/backtest_config.py:95-112 | Wins, losses and timeouts count exactly those trades, and the gross points are exactly their sums |
| Scoring.ExtremesAreExact | scripts/ops/backtest_config.py:95-112 | The largest win and largest loss are those of the winning and the losing trades, or zero |
| Scoring.TalliesPartition | scripts/ops/backtest_config.py:118-134 | Each trigger's row counts and sums exactly its own trades, by sign; each hold bucket counts exactly the trades held that long |
| Scoring.TriggersSumToTotals | scripts/ops/backtest_config.py:118-127 | Summed over any listing of the triggers, the rows give the card's entries and points |
| Scoring.BucketsSumToEntries | scripts/ops/backtest_config.py:129-134 | The hold buckets sum to the number of trades |
| Scoring.BucketsByHeldSeconds | scripts/ops/backtest_config.py:129-185 | A trade is in the bucket with the latest start, in seconds held, that it reached |
| Replay.SimulateExit | scripts/ops/backtest_config.py:188-251 | The scan returns the first decided exit, or the last close, or nothing without candles |
| Replay.AdmitSignals | scripts/ops/backtest_config.py:451-486 | One row's signals are admitted in order while slots last; the scorecard and the net points follow the trades taken |
| Replay.RunReplay | scripts/ops/backtest_config.py:394-507 | The whole replay: too few candles, a raising signal source, or the trades, net points, signal count and scorecard of the value-level run |
| ReplayProvenance.ExitIsFirstTouch | scripts/ops/backtest_config.py:209-251 | From the candles alone: the exit is on the first later candle that reaches the stop, the target or the deadline, at the stop if it is reached, else the target, each with slippage, else the close; with none, at the last close |
| ReplayProvenance.SignalTakenExactlyWhen | scripts/ops/backtest_config.py:445-486 | A signal is taken exactly when it has a stop and a target, a candle follows, and fewer than the cap of the trades taken leave after its row; its trade then has its own fields and that exit |
| ReplayProvenance.EveryTradeIsExplained | scripts/ops/backtest_config.py:430-486 | Every trade of a replay is some row's signal, left on the first of all later candles that ends it |
| ReplayTheorems.BoundedWindowIsEnough | scripts/ops/backtest_config.py:209-422 | With candles at least one timeframe apart, the bounded window gives the exit of the whole remaining history |
| ReplayTheorems.BoundedReplayIsFullReplay | scripts/ops/backtest_config.py:419-486 | So the bounded replay takes the same trades with the same exits as one that scans everything |
| ReplayTheorems.ConcurrencyNeverExceedsCap | scripts/ops/backtest_config.py:430-486 | At every instant at most the cap of the trades taken is held, for any signals, on strictly increasing times |
| ReplayTheorems.ReplayTradesAreClosed | scripts/ops/backtest_config.py:476-486 | Every trade taken has an exit, so the scorecard's identities apply |
| ReplayTheorems.SlippageCostsExactly | scripts/ops/backtest_config.py:203-251 | Slippage changes no decision of a whole replay: the same trades, times and reasons, each poorer by one slippage for entry and one for a stop or target |
| Exposure.Sweep | src/pearlalgo/analytics/incident_analysis.py:260-267 | The fold over sorted events returns the highest running total, at least zero |
| Exposure.RecordEvents | src/pearlalgo/analytics/incident_analysis.py:224-234 | One record adds the events of its position and risk spans and its stop distance, as far as it has an entry time, a stop and a price |
| Exposure.ComputeExposure | src/pearlalgo/analytics/incident_analysis.py:218-272 | Both sweeps run over the events of exactly the records with an entry time, and with a stop and a price; the stop statistics are those of every record with a stop and a price |
| Exposure.PercentileIsBracketed | src/pearlalgo/analytics/incident_analysis.py:62-77 | A percentile lies between the two values its rank falls between |
| Exposure.PercentileSplitsValues | src/pearlalgo/analytics/incident_analysis.py:62-77 | At a percentile of rank r at least floor(r) + 1 values are no larger and all but floor(r) + 1 are no smaller |
| Exposure.SweepIsMaxActive | src/pearlalgo/analytics/incident_analysis.py:236-267 | For spans that do not end before they start, with weights not negative, the sweep is the maximum over all instants of the weight with entry <= t < exit |
| Exposure.ExposureIsExact | src/pearlalgo/analytics/incident_analysis.py:218-272 | Concurrent positions and stop risk are both those true maxima |
| Exposure.ListsAreOfTheirRecords | src/pearlalgo/analytics/incident_analysis.py:224-234 | The positions are those of exactly the records with an entry time, the risks those that also have a stop and a price, each from the lower to the higher price times tick value and size |
| Exposure.StopStatsAreExact | src/pearlalgo/analytics/incident_analysis.py:250-257 | Count, minimum, maximum and mean are those of the stop distances of exactly the records with a stop and a price |
| Dedup.EvictExpired | alerts/tv_to_discord.py:188-190 | The loop drops exactly the expired entries in front, and what is left is an end of the acceptance log |
| Dedup.EvictSurplus | alerts/tv_to_discord.py:195-196 | At most 2048 entries are kept, the latest |
| Dedup.DedupCache.IsDuplicate | alerts/tv_to_discord.py:187-197 | A key is a duplicate exactly when it was accepted at most the TTL ago among the last 2048 acceptances; otherwise it is logged; the map stays the fresh and recent end of the log |
| Dedup.SplitIsExact | alerts/tv_to_discord.py:187-197 | The remembered entries are exactly those both within the TTL and among the last 2048 |
| Dedup.AcceptancesFarApart | alerts/tv_to_discord.py:187-197 | Two acceptances of one key are more than the TTL apart or have at least 2048 acceptances between them |
| Dedup.EveryCallIsCovered | alerts/tv_to_discord.py:187-197 | At every call its key has been accepted, then or at most the TTL before |
| Backfill.PlanChunks | scripts/ops/backfill_ibkr_historical.py:87-103 | The planning loop computes the recursive plan |
| Backfill.PlanTiles | scripts/ops/backfill_ibkr_historical.py:87-103 | The chunks tile the lookback window from start to end without gaps, oldest first, none longer than the size |
| Backfill.BackfillState.RunBackfill | scripts/ops/backfill_ibkr_historical.py:182-258 | One run, killed anywhere, leaves the store of the value-level resume |
| BackfillProgress.RunIsExact | scripts/ops/backfill_ibkr_historical.py:182-258 | A run archives, or marks as raised, exactly the chunks it gets to before it is killed, and leaves the checkpoint at the end of the last one saved |
| BackfillProgress.QuietRunFinishes | scripts/ops/backfill_ibkr_historical.py:182-258 | A run in which every fetch is answered brings the checkpoint to the present and fetches all of its window beyond the old checkpoint |
| Backfill.CheckpointIsCovered | scripts/ops/backfill_ibkr_historical.py:194-254 | Over any sequence of killed and resumed runs every point from the window start to the checkpoint was in a chunk fetched or raised |
| Backfill.CheckpointIsFetched | scripts/ops/backfill_ibkr_historical.py:230-254 | While no fetch has raised, everything from the window start to the checkpoint was fetched |
| Backfill.FirstRunIsCompleteExactlyWhen | scripts/ops/backfill_ibkr_historical.py:230-254 | A first run has fetched everything up to its checkpoint exactly when it saved no chunk after one that raised |
| Backfill.RerunsAreCompleteExactlyWhen | scripts/ops/backfill_ibkr_historical.py:194-254 | Over any re-runs at one time, everything up to the checkpoint was fetched exactly when no run saved a chunk after one that raised and that no run had fetched |
| Backfill.PassedPointIsNeverFetched | scripts/ops/backfill_ibkr_historical.py:194-254 | A point behind the checkpoint that the runs so far have not fetched is fetched by no re-run at that time |
| Backfill.GapIsForGood | scripts/ops/backfill_ibkr_historical.py:194-254 | A point at least a chunk's length behind the checkpoint that was not fetched stays missing over any later runs, at whatever times |
| Backfill.FailedChunkIsNotRetried | scripts/ops/backfill_ibkr_historical.py:194-198 | A chunk that ends behind the checkpoint is not planned again |
| Backfill.RaisedChunkLeavesGap | scripts/ops/backfill_ibkr_historical.py:35-241 | Two days in one-day chunks, the first raising: the checkpoint passes points never fetched, against the header's promise |
| BtcTrend.Backtest | scripts/ops/backtest_btc_trend_defender.py:121-184 | The loop computes the equity, trades and position of the value-level run |
| BtcTrend.RunIsOrderly | scripts/ops/backtest_btc_trend_defender.py:136-182 | A position excludes a pending order, no trade exits on its entry bar, none opens on a bar that closed one |
| BtcTrend.EquityIsStartPlusPnl | scripts/ops/backtest_btc_trend_defender.py:147-163 | Equity is the start plus the profit of the closed trades |
| BtcTrend.LongEquityCompounds | scripts/ops/backtest_btc_trend_defender.py:146-171 | With solvent long trades, equity is the start times the product of (exit / entry)(1 - f) - f |
| BtcProvenance.EveryTradeIsExplained | scripts/ops/backtest_btc_trend_defender.py:136-182 | Every trade follows a breakout, enters on the first ready bar after it, and leaves on the first bar that touches the level trailed from the extreme since entry, or runs out of time; a position still held was entered alike and no bar ends it |
| BtcProvenance.EveryBreakoutIsTraded | scripts/ops/backtest_btc_trend_defender.py:165-180 | Every breakout on a bar that leaves nothing held opens a position of its side on the first ready bar after it |
| BtcProvenance.EntersExactlyWhen | scripts/ops/backtest_btc_trend_defender.py:165-180 | A bar opens a position exactly when it is the first ready bar after such a breakout |
| BtcProvenance.PnlIsExact | scripts/ops/backtest_btc_trend_defender.py:146-171 | A trade's profit is its price move on all equity at the time over its entry price, less the fee on both amounts |
| Reconnect.UseWebSocket.Clear | apps/pearl-algo-app/hooks/useWebSocket.ts:78-87 | Only the two referenced timers are cleared |
| Reconnect.UseWebSocket.StartSocket | apps/pearl-algo-app/hooks/useWebSocket.ts:89-162 | Nothing while open; otherwise timers cleared and a new socket referenced, unless the constructor raises |
| Reconnect.UseWebSocket.HandleOpen | apps/pearl-algo-app/hooks/useWebSocket.ts:101-122 | Attempts reset and a ping timer set, overwriting the reference |
| Reconnect.UseWebSocket.HandleClose | apps/pearl-algo-app/hooks/useWebSocket.ts:137-152 | Timers cleared and, with attempts to spare, one reconnect timer set |
| Reconnect.UseWebSocket.HandleTimer | apps/pearl-algo-app/hooks/useWebSocket.ts:144-150 | A live timer of a mounted hook counts an attempt and connects |
| Reconnect.UseWebSocket.Reconnect | apps/pearl-algo-app/hooks/useWebSocket.ts:175-182 | Attempts reset, the socket closed, a new connect |
| Reconnect.UseWebSocket.Close | apps/pearl-algo-app/hooks/useWebSocket.ts:184-190 | Timers cleared, the socket closed and forgotten |
| Reconnect.UseWebSocket.MountEffect | apps/pearl-algo-app/hooks/useWebSocket.ts:193-195 | Mounted again, and a connect |
| Reconnect.UseWebSocket.Cleanup | apps/pearl-algo-app/hooks/useWebSocket.ts:197-204 | The same, and unmounted |
| Reconnect.AlwaysSafe | apps/pearl-algo-app/hooks/useWebSocket.ts:78-205 | Under every interleaving at most one reconnect timer is set, only while mounted, and attempts never exceed the maximum |
| Reconnect.ConnectsBetweenResets | apps/pearl-algo-app/hooks/useWebSocket.ts:101-152 | Between two resets there are at most the maximum of automatic connects |
| ReconnectProgress.AttemptsAreSinceReset | apps/pearl-algo-app/hooks/useWebSocket.ts:101-182 | After any events `attempts` is the number of automatic connects since the last reset |
| ReconnectProgress.CloseArmsExactlyWhen | apps/pearl-algo-app/hooks/useWebSocket.ts:137-152 | After any events the first close of any socket of a mounted hook leaves one new timer if retries are on and fewer than the maximum were made since the last reset, and none otherwise |
| ReconnectProgress.RetriesUntilMaximum | apps/pearl-algo-app/hooks/useWebSocket.ts:89-152 | After any events n rounds of close and timer connect n times while attempts are left, and the next close sets a timer exactly when one more is left |
| ReconnectProgress.FreshHookRetries | apps/pearl-algo-app/hooks/useWebSocket.ts:89-195 | From its mount a connection that always fails is retried the maximum number of times and then no more |
| ReconnectProgress.ConnectGivesSocket | apps/pearl-algo-app/hooks/useWebSocket.ts:89-195 | After a mount, a retry or a manual reconnect the hook refers to a live socket: the open one it had or a new one |
| ReconnectProgress.ReconnectAlwaysStarts | apps/pearl-algo-app/hooks/useWebSocket.ts:175-182 | A manual reconnect gives a new socket whatever happened before, closes the old one and drops the waiting retry |
| ReconnectProgress.OpenStartsPing | apps/pearl-algo-app/hooks/useWebSocket.ts:101-122 | A socket that opens while mounted always starts a ping timer of its own and sets the attempts back |
| Reconnect.UnmountIsFinal | apps/pearl-algo-app/hooks/useWebSocket.ts:137-204 | After a final unmount no reconnect timer is ever set again |
| Reconnect.PingsStopExactlyWhen | apps/pearl-algo-app/hooks/useWebSocket.ts:78-204 | After a final unmount no ping timer is left exactly when no open handler ever ran with one already set |
| Reconnect.SocketOutlivesExactlyWhen | apps/pearl-algo-app/hooks/useWebSocket.ts:89-204 | A socket is connecting or open after the unmount exactly when an event replaced it while it was connecting and none closed it since |
| Reconnect.OrphanOutlivesUnmount | apps/pearl-algo-app/hooks/useWebSocket.ts:89-204 | Six events and an unmount after which a ping timer and an open socket are still alive |
| Candles.MergeOlderBars | apps/pearl-algo-app/hooks/useLazyLoadCandles.ts:145-163 | The two loops and the sort compute the merge |
| Candles.ChartStore.PrependCandles | apps/pearl-algo-app/stores/chartStore.ts:167-185 | The store's copy computes the same merge as the hook's |
| Candles.MergeIsUnion | apps/pearl-algo-app/hooks/useLazyLoadCandles.ts:145-163 | The merge is strictly ascending and holds at every time the incoming page's candle, else the existing one |
| Candles.AscendingIsDetermined | apps/pearl-algo-app/hooks/useLazyLoadCandles.ts:160-162 | Strictly ascending lists with the same candle at every time are the same list |
| Candles.PagesMergeAtOnce | apps/pearl-algo-app/stores/chartStore.ts:167-185 | Merging pages one by one is one merge of the pages, latest first |
| Candles.MergeAgain | apps/pearl-algo-app/hooks/useLazyLoadCandles.ts:145-163 | Merging a page again changes nothing |
| Candles.LazyLoadCandles.TryFetchOlder | apps/pearl-algo-app/hooks/useLazyLoadCandles.ts:79-113 | One attempt: nothing when exhausted or at the same cursor, retry after an error, stop on an empty page, else merge |
| Candles.PagingEnds | src/pearlalgo/persistence/candle_archive.py:222-253 | Paging ends with the oldest page and the bars first loaded, and nothing in between |
| Candles.PagingIsCompleteExactlyWhen | src/pearlalgo/persistence/candle_archive.py:222-253 | The whole history is loaded exactly when the bars older than the chart fit in one page |
| Candles.FailuresAreRetried | apps/pearl-algo-app/hooks/useLazyLoadCandles.ts:79-113 | However attempts fail in between, what is loaded is what the answered attempts alone would have loaded |

## Left out

- Floating point and rounding: prices, points and money are exact; the two- and four-place rounding of result rows, scorecards and statistics is not modelled, so a positive result may print as zero.
- Parsing of files, JSON, timestamps and time zones: a timestamp text is its rank in text order and a parser is a parameter; a missing price or quantity in a fill has already become the source's default of 0.0 or 1.
- Fill prices are whole ticks of 0.25 points, so every fill's profit is a whole number of cents.
- The reason, regime and signal-id texts of simulated trades, and the stop and target copied onto attributed trades: carried along, never decided on.
- `generate_signals`, market regimes, time-of-day multipliers and ATR: each bar carries them as arbitrary inputs.
- Open trades of the backtester are values in a sequence, not dictionaries changed in place; the loop carries its lists and counters in one value, so aliasing between them is not modelled.
- EngineTheorems.SessionFloorHolds: speaks of trades the breaker is told of; the source does not tell it of trades closed at the end of the data.
- `compute_metrics` beyond its drawdown (Sharpe, averages, giveback) and the scorecard's ratios: one-line statistics.
- `clamp_to_held_out`, `load_signal_candidates`, command lines, backups and the atomic file swap.
- A signal's entry price of zero counts as absent, as in the source; the loader that turns it into `None` is not modelled.
- Grouping in the incident report, and percentiles at or beyond 0 and 1, which it never asks for.
- Exposure: prices, sizes and risk are whole numbers of some unit.
- The key text and the Discord posting of the TradingView bridge; the filter assumes the monotonic clock it is called with.
- IBKR pacing, the archive's own upserts, and dry runs of the backfill; an archive or checkpoint write that raises is a kill at that point.
- Backfill.CheckpointIsFetched: one direction only when runs differ in time or lose their checkpoint, since a later run may then cut the chunks differently or start over; at one time RerunsAreCompleteExactlyWhen has both.
- BTC indicators are inputs; the four-hour close is taken to be missing only together with its averages. The marked equity curve, its drawdown and the bootstrap are not modelled.
- BtcTrend.LongEquityCompounds: for trades at positive entry and non-negative exit prices that do not lose more than the whole equity, since fees are taken on absolute values.
- Socket status texts, messages, authentication and errors, which change no timer or attempt.
- Debouncing and overlapping requests of the lazy loader: an attempt and its answer are one step, and symbol or timeframe changes start a new loader.
