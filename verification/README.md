# Verified model of the trading bot's core

A Dafny model of the parts of the bot whose behaviour is decided by code rather than by a broker,
a database server or a language model, with proofs about every run of them. Check it with
`dafny verify dfyconfig.toml`.

## What is modelled

| module | what it covers |
|---|---|
| `Trades` | the `trades` table and the statements run against it |
| `TrailingStop`, `PartialExit` | the stop updater and the half exit, per price tick |
| `PositionManager`, `PositionRuns`, `PositionLives` | one pass of the position monitor, and whole lives of positions under any sequence of passes, with any orders refused |
| `Reconciler` | the two-way synchronisation with the broker's portfolio |
| `JobRunner`, `JobRunnerProofs` | the background job runner as a concurrent protocol over a bounded pool |
| `Backtest`, `BacktestTrades`, `Metrics`, `Drawdown` | signals, simulated trades, what every trade looks like bar by bar, metrics, and the dashboard's drawdown |
| `SqlText`, `SqlRewrite`, `SqlSemantics` | the SQLite to PostgreSQL rewriting: placeholders, statements, effect on tables |
| `Approval`, `SymbolLock`, `OrderApproval` | human approval of orders, the per-symbol lock it relies on, and the two together |
| `Dedup`, `Throttler`, `TtlCache` | the three time-indexed memories, each against its full history |
| `Scorer` | the weighted score and the attenuated learning of its multipliers |
| `Rounding`, `Text`, `Wrappers` | Python's `round` on exact reals, upper-casing, optional values |

Code that changes state is written as classes and methods with loops, each method tied by its
`ensures` to a function of the old state; the properties are lemmas about those functions over
arbitrary runs. Concurrent code (the pool, the coroutines of the approval manager, the threads at
the lock dictionary) is a state machine whose steps are the atomic actions of the source; a run is
any sequence of enabled steps.

Prices, quantities and money are exact reals; `round` is rounding half to even on the stated grid.
Clocks, prices, fills, portfolios, indicator values and callbacks are inputs.

## Where the code departs from its intent

The model keeps both readings apart with `PositionManager.Variant`: `AS_WRITTEN` is the code as it
stands, `INTENDED` is what its comments and result fields promise. Each departure has a lemma with
a concrete input or an exact condition.

- The monitor sets `partial_exit_done` in memory (app/positions/manager.py:115) and no statement
  writes it. A second half exit then pulls a trailed stop back: `PositionRuns.AsWrittenStopRetreats`.
- `PARTIAL_FULL` takes the branch meant for half exits (app/positions/manager.py:112), so the row
  stays OPEN with a remainder of 0, which then reads as the full quantity. The shares are sold on
  every further tick at the trigger whose order is let through:
  `PositionRuns.AsWrittenSellsRepeatedly`. What that costs over a whole run is
  `PositionRuns.QuantityLedger`, and `PositionRuns.QuantityConservedIff` says when nothing is lost.
- The jump to breakeven ignores the stop it replaces. With the flag kept, a life's stop retreats if
  and only if its half exit goes through at a price that leaves a worse stop than the earlier prices
  had earned, `PositionLives.LifeRetreatsIff`, which takes an earlier half exit that was refused,
  `PositionLives.FreshRetreatNeedsRefusal`. `PositionRuns.RefusedPartialMakesStopRetreat` is such a
  life; `PositionRuns.StepRetreatsIff` is the condition per tick in both variants.
- A tick that plans an exit of everything skips the stop update and the exit test
  (app/positions/manager.py:196-197). A single share bought at 100 with its target at 110 is, at 120,
  sold and kept OPEN as written; with the exit refused it is neither trailed nor taken in either
  variant: `PositionRuns.FullExitSkipsTheTarget`. `PositionRuns.SurvivorsAreInsideTheirStops` says
  for every tick which rows survive it.
- A short adopted by the reconciler gets the stop and the target of a long
  (app/system/reconciler.py:102-103). Its stop is on the profit side unless it rounds to the same
  cent as the breakeven level: `PositionRuns.ReconciledIsFreshIff`, and always from a cost of 38
  cents on: `PositionRuns.DearShortsAreNotFresh`. Since the target lies above the stop, every price
  meets one or the other, and the short is closed on its first tick:
  `PositionRuns.ReconciledShortStopsOut`.
- `_run` waits for a task it queued behind itself in the same pool. As many jobs as workers can all
  starve until they time out: `JobRunnerProofs.StarvationIsReachable`.
- A status write that raises is not retried. The job keeps the status it had for good,
  `JobRunnerProofs.LostStays`, and nothing else loses a job, `JobRunnerProofs.LosesIff`.
- `_get_lock` looks up and stores in two steps, so the first two orders of a symbol can hold two
  different locks: `SymbolLock.FirstOrdersCanOverlap`; `SymbolLock.LocksExclude` and
  `SymbolLock.CarelessStoreBreaks` say exactly when.
- The approval manager keeps one entry per symbol and relies on that lock. Requests that overlap can
  end in a KeyError, `Approval.OverlapCanCrash`, and an approved one that is then cancelled can
  still answer True, `Approval.OverlapCanApproveTheCancelled`. With the lock taken carefully neither
  happens, `OrderApproval.CarefulOrdersAreApprovedRight`; two first orders that race for it can end
  in the KeyError, `OrderApproval.RacingOrdersCanCrash`.
- The driver reads `%s` as a placeholder, `%%` as one percent sign, and nothing else after a percent
  sign. The placeholder rewriting escapes none, so it preserves positions exactly for texts without
  a percent sign: `SqlText.AlignedIff`. The modulo operator in `7 %?` becomes an escape and leaves no
  placeholder: `SqlText.ModuloSwallowsTheParameter`.
- The upsert rewriting is exact exactly for statements without a clause of their own that list all
  columns, one outside the key among them (`SqlSemantics.SameTableIff`). An INSERT OR REPLACE that
  already carries RETURNING is sent to PostgreSQL unrewritten.

## Model

| member | source | states |
|---|---|---|
| Rounding.Round2Laws | app/risk/trailing_stop.py:87 | rounding to cents is monotone, odd, fixes the grid, lands on it, and errs by at most half a cent |
| Rounding.Round4Laws | app/risk/partial_exit.py:76-77 | the same for the 0.0001 grid |
| Trades.TradesTable.GetOpenTrades | app/infrastructure/db/compat.py:676-680 | returns exactly the OPEN rows, in table order |
| Trades.TradesTable.IsTradeOpen | app/positions/manager.py:36-44 | true if and only if some row with this id is OPEN |
| Trades.TradesTable.UpdateTradeStatus | app/infrastructure/db/compat.py:691-718 | only the row with this id changes, and there only the stop, remainder and flag that were given |
| Trades.TradesTable.CloseTrade | app/infrastructure/db/compat.py:732-739 | only the row with this id changes: CLOSED with this price, reason, profit and time |
| Trades.TradesTable.InsertTrade | app/infrastructure/db/compat.py:632-651 | fails exactly when an OPEN row of the symbol exists and then changes nothing; otherwise appends the row under an unused id, and the one-OPEN-row-per-symbol index is kept either way |
| TrailingStop.TickRatchets | app/risk/trailing_stop.py:92-97 | one tick moves the stop to the rounded entitlement of that tick's price if that is better and never otherwise; the stop stays on the cent grid |
| TrailingStop.MemorylessStopIsHighWater | app/risk/trailing_stop.py:31-90 | for every sequence of ticks the stop of the memoryless updater equals the running-maximum (SELL: minimum) specification |
| TrailingStop.StopNeverRetreats | app/risk/trailing_stop.py:31-90 | no continuation of a run leaves the stop less favourable than it was |
| TrailingStop.RatchetMerges | app/risk/trailing_stop.py:31-90 | updating by two prices in turn is updating once by the better of them |
| TrailingStop.BestPriceIsBest | app/risk/trailing_stop.py:31-90 | the specification's best price is one of the prices seen and none seen is better |
| TrailingStop.TickOrderIsIrrelevant | app/risk/trailing_stop.py:31-90 | two runs that saw the same set of prices, in any order and multiplicity, end with the same stop |
| TrailingStop.CloseHintNeedsTightStop | app/risk/trailing_stop.py:79-90 | the close hint fires only for a breakeven update with the gain between 1.5 times the stop distance and the 0.3% buffer |
| TrailingStop.TickByGain | app/risk/trailing_stop.py:26-97 | one tick, in money: up to a gain of 1.5 stop distances the stop stays; up to 3 it becomes the better of itself and entry plus 0.3% (SELL: minus), rounded to cents; beyond that the better of that level and the middle between entry and price competes |
| TrailingStop.RunByGain | app/risk/trailing_stop.py:26-97 | over every run of ticks the stop is what that rule gives at the best price of the run |
| TrailingStop.CloseHintByGain | app/risk/trailing_stop.py:79-90 | the close hint fires if and only if the level the gain earns improves on the stop and the price has not moved beyond it |
| PartialExit.HalfExitSplit | app/risk/partial_exit.py:58-80 | a half exit sells something, leaves at least one share, and its two rounded parts miss the whole by at most one grid unit |
| PartialExit.HalvesAddUp | app/risk/partial_exit.py:74-80 | on the quantity grid the two rounded parts add up if and only if the number of grid units is even |
| PartialExit.Trade.UpdateAfterPartial | app/risk/partial_exit.py:100-124 | a triggered plan sets flag and remainder and, unless it exits everything, the breakeven stop; an untriggered one changes nothing |
| PartialExit.PlanByGain | app/risk/partial_exit.py:34-88 | a plan exits if and only if the flag is unset and the gain reaches 1.5 stop distances in money; it exits everything if and only if under two shares are held, and otherwise half, rounded to four places, twice |
| PartialExit.BreakevenInMoney | app/risk/partial_exit.py:90-98 | the breakeven stop is the entry moved by 0.3% in favour of the position, rounded to cents |
| PositionManager.Monitor.ClosePosition | app/positions/manager.py:56-155 | a trade closed or missing by now and a refused order change nothing and answer False; otherwise one order of this quantity goes out and exactly this row is closed, or kept OPEN with remainder, breakeven stop and flag for a partial reason |
| PositionManager.Monitor.TryPartialExit | app/positions/manager.py:189-201 | the partial-exit step of the loop body, on the row, the trade in memory and the orders |
| PositionManager.Monitor.UpdateStop | app/positions/manager.py:203-213 | row and trade in memory both carry the updated stop |
| PositionManager.Monitor.TryExit | app/positions/manager.py:215-232 | an exit reason closes the row with the remaining quantity if the order goes out; without one nothing changes |
| PositionManager.Monitor.CheckTrade | app/positions/manager.py:164-232 | partial exit, stop update and exit test compose in this order to one step of this row and its orders |
| PositionManager.Monitor.CheckPositions | app/positions/manager.py:158-232 | every OPEN row takes exactly one step on its own tick, every other row is untouched, orders go out in table order |
| PositionManager.ProfitIsGain | app/positions/manager.py:215-232 | the booked profit is the gain per share times the shares, mirrored for a SELL |
| PositionRuns.CloseIsBooked | app/positions/manager.py:56-155 | a tick that closes a row stores the fill, or the tick price when the fill is zero, the time, and the reason by the levels as the tick leaves them: STOP_LOSS before TAKE_PROFIT before MIN_PROFIT_MEDIUM, or PARTIAL_FULL |
| PositionRuns.CloseProfit | app/positions/manager.py:189-232 | and the rounded profit of exactly the shares that were left at that point of the tick |
| PositionRuns.QuantityLedger | app/positions/manager.py:112-122 | over every run of either variant, sold plus held is what was opened plus one full quantity per exit of everything that left its row OPEN |
| PositionRuns.QuantityConservedIff | app/positions/manager.py:112-117 | quantity is conserved on a run if and only if it has no such exit; closing on a full exit rules them out |
| PositionRuns.AsWrittenSellsRepeatedly | app/positions/manager.py:61 | as written, any n ticks at or beyond the trigger whose orders go through sell a position under two shares n times and leave it OPEN |
| PositionRuns.AtMostOneHalfExit | app/risk/partial_exit.py:42-80 | with the flag kept, a life sells nothing, half, everything, or half and then the rest, and a half leaves at least one share |
| PositionRuns.LifeStopIsHighWater | app/positions/manager.py:190-214 | partial exit and trailing together keep the stop at the entitlement of the best price so far, breakeven from the 1.5 trigger on |
| PositionRuns.LifeStopNeverRetreats | app/positions/manager.py:112-117 | over whole lives the unconditional jump to breakeven never moves the stop against the position |
| PositionRuns.StepRetreatsIff | app/positions/manager.py:112-117 | in either variant a tick worsens the stop if and only if a partial exit that keeps the row OPEN executes while the stop stands beyond what it leaves |
| PositionLives.LifeStopFollowsPrices | app/positions/manager.py:190-214 | whatever became of its orders, the stop of a position is the running-maximum stop of the prices that count: from the opening stop before the half exit, from breakeven since, ticks that plan an exit of everything left out |
| PositionLives.LifeRetreatsIff | app/positions/manager.py:112-117 | over any life the stop retreats if and only if the half exit goes through at a price that leaves a worse stop than the earlier prices had earned |
| PositionLives.RetreatsOnce | app/positions/manager.py:112-117 | it does so on at most one tick |
| PositionLives.FreshRetreatNeedsRefusal | app/positions/manager.py:190-201 | from a stop on the loss side this takes an earlier tick at the trigger whose half exit was refused |
| PositionRuns.LossSideIsNeeded | app/risk/partial_exit.py:90-98 | every position of two shares or more whose stop starts better than breakeven does retreat at the trigger price |
| PositionRuns.SurvivorsAreInsideTheirStops | app/positions/manager.py:190-232 | when closes go through, a row stays OPEN if and only if the price is strictly inside the stop as this tick leaves it and inside the target, with STOP_LOSS if and only if the stop is reached; on a tick that plans an exit of everything it stays OPEN unless that exit closes it, and a refused one changes nothing |
| PositionRuns.FullExitSkipsTheTarget | app/positions/manager.py:196-197 | a concrete single share past its target survives as written, and in either variant when its exit is refused |
| PositionRuns.PlacedStopIsLossSide | app/application/use_cases/place_order.py:146-152 | every stop set when an order is placed meets the hypotheses of the results above |
| PositionRuns.ReconciledLongIsFresh | app/system/reconciler.py:84-118 | so does every long position the reconciler adopts |
| PositionRuns.ReconciledIsFreshIff | app/system/reconciler.py:94-103 | an adopted position meets them if and only if it is long or its stop is rounded up to at least the rounded breakeven level |
| PositionRuns.DearShortsAreNotFresh | app/system/reconciler.py:102-103 | every adopted short with a cost of 38 cents or more starts with its stop on the profit side |
| PositionRuns.ReconciledShortStopsOut | app/system/reconciler.py:102-103 | when closes go through, an adopted short is closed on its first tick whatever the price, as STOP_LOSS if and only if the stop is reached, unless an exit of everything intervenes |
| PositionRuns.PassesAreRuns | app/positions/manager.py:158-232 | any number of monitor passes over the table is, row by row, a run of that row on its own ticks |
| PositionRuns.PassOrdersAreRuns | app/positions/manager.py:158-232 | the order log of any number of passes is, trade by trade, what the run of that trade sells |
| PositionRuns.PassesLedger | app/positions/manager.py:112-122 | the quantity ledger of every trade over any number of passes, read off the table and the order log |
| PositionRuns.AsWrittenStopRetreats | app/positions/manager.py:115 | as written, two half exits move a concrete stop from 110.00 back to 106.50 |
| PositionRuns.RefusedPartialMakesStopRetreat | app/positions/manager.py:190-201 | even with the flag kept, a refused half exit lets the stop trail to 110.00 and drop to 106.50 later |
| Reconciler.CloseMissing | app/system/reconciler.py:43-57 | closes exactly the OPEN trades whose symbol the broker lacks, at their entry price, and counts them |
| Reconciler.AdoptNew | app/system/reconciler.py:84-128 | inserts exactly one trade per position not OPEN before; the unique index never refuses one |
| Reconciler.ReconcilePositions | app/system/reconciler.py:21-139 | the whole call on rows and counters; an unavailable portfolio changes nothing |
| Reconciler.PositionsFacts | app/system/reconciler.py:31-34 | the dictionary has one entry per symbol, for symbols with a non-zero position only |
| Reconciler.ReconciledMatchesBroker | app/system/reconciler.py:43-128 | afterwards the OPEN symbols are the broker's, one row each; held trades are untouched and all others closed at their entry price with a profit of zero |
| Reconciler.ReconcilingAdoptsTheRest | app/system/reconciler.py:84-118 | the rows added are, one for one and in order, the positions without an OPEN row: side and shares of the holding, entry at its average cost, stop and target 3% below and 6% above it |
| Reconciler.PositionsAreLast | app/system/reconciler.py:31-34 | of several portfolio entries for a symbol the last non-zero one counts |
| Reconciler.ReconcilingEarnsNothing | app/infrastructure/db/compat.py:906-917 | the realised profit since any moment is the same before and after |
| Reconciler.ReconcilingTwiceIsReconcilingOnce | app/system/reconciler.py:21-139 | a second call on the same portfolio closes 0, creates 0 and changes no row |
| JobRunner.BackgroundJobRunner.SubmitJob | app/application/services/job_runner.py:55-66 | the job's row is PENDING and its outer task last in the queue |
| JobRunner.BackgroundJobRunner.TakeNext | app/application/services/job_runner.py:47-49 | an idle worker takes the queue's head; a cancelled function is discarded unstarted |
| JobRunner.BackgroundJobRunner.RunMarks | app/application/services/job_runner.py:139-141 | marks the row RUNNING |
| JobRunner.BackgroundJobRunner.RunSubmits | app/application/services/job_runner.py:142-143 | queues the function in the same pool and waits while keeping the worker |
| JobRunner.BackgroundJobRunner.FunctionEnds | app/application/services/job_runner.py:142 | the function's future is done with its result or exception and its worker idle; the row does not change |
| JobRunner.BackgroundJobRunner.WaitExpires | app/application/services/job_runner.py:143-145 | a wait can time out only while the function is not done; nothing is stored yet |
| JobRunner.BackgroundJobRunner.RunCollects | app/application/services/job_runner.py:149-159 | stores SUCCESS with the returned value or FAILED with the error, once, and frees the worker |
| JobRunner.BackgroundJobRunner.RunGivesUp | app/application/services/job_runner.py:145-149 | cancels the function if still queued, stores FAILED "timeout", and frees the worker |
| JobRunner.BackgroundJobRunner.RunCannotStore | app/application/services/job_runner.py:150-159 | when storing the result raises, FAILED with that error is stored instead and the worker freed |
| JobRunner.BackgroundJobRunner.RunIsLost | app/application/services/job_runner.py:139-159 | when a status write raises that nothing catches, the row keeps its status and the worker is freed |
| JobRunnerProofs.ReachableInv | app/application/services/job_runner.py:139-159 | every interleaving keeps the invariant tying rows, futures, queue and workers together |
| JobRunnerProofs.StatusMovesForward | app/application/services/job_runner.py:63-66 | a step moves a status from pending to running or from running to success or failed, or leaves it, with one terminal write |
| JobRunnerProofs.TerminalAbsorbs | app/application/services/job_runner.py:139-159 | no further steps change a finished job's status or result, so late results are never stored |
| JobRunnerProofs.EveryJobOnce | app/application/services/job_runner.py:139-159 | in every reachable state each function ran at most once, exactly the finished jobs had one terminal write, and SUCCESS carries what the one run returned |
| JobRunnerProofs.CancelledNeverRuns | app/application/services/job_runner.py:145-149 | a function cancelled in the queue is never started by any continuation |
| JobRunnerProofs.CollectStores | app/application/services/job_runner.py:149-159 | collecting a function that returned stores SUCCESS with its value, and one that raised FAILED with its error |
| JobRunnerProofs.FailedHasCause | app/application/services/job_runner.py:139-159 | on every run a FAILED job has a step of its own that explains it: its function raised this error, it timed out, or storing its result raised this error |
| JobRunnerProofs.SuccessHasEnd | app/application/services/job_runner.py:149-155 | on every run a SUCCESS has a step at which its function returned exactly this value |
| JobRunnerProofs.CollectedSucceeds | app/application/services/job_runner.py:149-155 | a job whose wait ends with a returned value and whose write goes through is SUCCESS with it at the end of every continuation |
| JobRunnerProofs.DoneHasEnd | app/application/services/job_runner.py:142 | a finished future holds what the function ended with at some step of its own |
| JobRunnerProofs.ServedInOrder | app/application/services/job_runner.py:47-66 | the pool serves first come, first served: what was handed in is what was taken out followed by the queue |
| JobRunnerProofs.StepDecreases | app/application/services/job_runner.py:139-159 | every step but a submission decreases the measure of outstanding work |
| JobRunnerProofs.RunsAreShort | app/application/services/job_runner.py:55-159 | no run from the start is longer than eight steps per submitted job |
| JobRunnerProofs.QuiescentMeansFinished | app/application/services/job_runner.py:139-159 | when only submissions are possible the pool is empty and every job is finished or lost to a failed status write |
| JobRunnerProofs.LosesIff | app/application/services/job_runner.py:139-159 | a step loses a job if and only if it is the failure of one of that job's own status writes |
| JobRunnerProofs.LostStays | app/application/services/job_runner.py:139-159 | a lost job keeps its status under every continuation |
| JobRunnerProofs.NothingLost | app/application/services/job_runner.py:139-159 | without such failures no job is lost, so a quiet pool means all jobs finished |
| JobRunnerProofs.StuckIff | app/application/services/job_runner.py:139-145 | with unfinished jobs, only timeouts are possible if and only if every worker waits on a function still in the queue |
| JobRunnerProofs.FewJobsNeverStarve | app/application/services/job_runner.py:47-49 | with fewer unfinished jobs than workers some step other than a timeout is always possible |
| JobRunnerProofs.StarvationIsReachable | app/application/services/job_runner.py:139-145 | for every pool size, that many jobs can reach a state with only timeouts possible and no function ever started |
| Backtest.ApplySignals | app/backtest/engine.py:34-55 | the signal of each bar depends on the bars up to it alone; WEAK during warm-up or without indicators |
| Backtest.SimulateTrades | app/backtest/engine.py:58-143 | the loop yields exactly the trades of the entry and exit state machine |
| Backtest.NoLookAhead | app/backtest/engine.py:85-143 | for every prefix, its trades less a forced final one are exactly the trades of the whole run that end inside it |
| Backtest.LastBarOnlyAddsEndOfData | app/backtest/engine.py:117-119 | being the last bar can only turn holding on into an END_OF_DATA exit |
| Backtest.TradesAreChained | app/backtest/engine.py:89-141 | entry before exit before the next entry, for all trades, and an open position starts after all of them |
| Backtest.StopLossTradesLose | app/backtest/engine.py:106-138 | for all prices, sizes, commissions and non-negative slippage no STOP_LOSS trade is booked at a profit |
| BacktestTrades.HeldInsideItsLevels | app/backtest/engine.py:89-121 | while a position is held, its levels are the entry close less the stop and plus the target percentage, rounded to four places, and every close since lies strictly between them |
| BacktestTrades.TradesFollowTheRules | app/backtest/engine.py:89-141 | for every trade: entry on a signal that is not WEAK, all closes before the exit strictly between the levels, STOP_LOSS if and only if the exit close is at or below the first, TAKE_PROFIT if and only if at or above the second and not the first, END_OF_DATA if and only if neither, and then on the last bar |
| BacktestTrades.TradesAreBooked | app/backtest/engine.py:92-138 | for every trade the booked figures in closes: entry with slippage, exit less slippage or one and a half times it for a stop, size by the risk budget, gross, both commissions and net, each rounded |
| BacktestTrades.NoEntryIsMissed | app/backtest/engine.py:89-104 | with a budget of at least one dollar every bar with a signal lies inside a trade or the open position, both ends included; with less no trade is ever entered |
| BacktestTrades.OpenAtTheEndIsNew | app/backtest/engine.py:89-121 | a position still open after the last bar was entered on it |
| Metrics.MaxDrawdown | app/backtest/engine.py:167-176 | the one pass finds the pairwise maximum fall of equity, the zero start included |
| Metrics.SumsAddUp | app/backtest/engine.py:158-178 | the sums of profits, percentages and commissions are additive and of one trade its own figure |
| Metrics.FiguresMean | app/backtest/engine.py:159-180 | a ratio times its base is the amount in percent, an average times its count the sum, and the profit factor times the losses the wins, infinite when nothing was lost |
| Metrics.DropMeans | app/backtest/engine.py:167-176 | a drawdown is the money lost between two points in percent of the capital |
| Metrics.CalculateMetrics | app/backtest/engine.py:146-194 | counts, sums, ratios and drawdown of the report, the empty list and non-positive capital included |
| Metrics.WinsAndLossesPartition | app/backtest/engine.py:156-160 | wins and losses add up in number and in profit, with the right signs |
| Metrics.WinsAndLossesAreAllTrades | app/backtest/engine.py:156-157 | as multisets wins and losses are the trades |
| Metrics.BacktestBalances | app/backtest/engine.py:156-160 | for every backtest the reported total is the exact sum of its booked trades, which is gross wins minus gross losses, and every STOP_LOSS trade is among the losses |
| Drawdown.ComputeDrawdown | app/infrastructure/db/read_models/dashboard_query.py:484-500 | the one pass finds the running maximum, the pairwise maximum relative fall and the last fall over the positive readings |
| Drawdown.FallFromHigher | app/infrastructure/db/read_models/dashboard_query.py:494-496 | the relative fall to a level is largest from the highest start, which is why one peak suffices |
| Drawdown.FallMeans | app/infrastructure/db/read_models/dashboard_query.py:494-496 | a fall is in percent of the level it starts from |
| SqlText.NoQmarkRemains | app/infrastructure/db/compat.py:118-119 | no `?` is left |
| SqlText.ReplacingTwiceIsReplacingOnce | app/infrastructure/db/compat.py:118-119 | replacing again changes nothing |
| SqlText.PlaceholdersCount | app/infrastructure/db/compat.py:118-119 | in a text the driver could read before, it finds one placeholder per `?` on top of those the text had |
| SqlText.AlignedIff | app/infrastructure/db/compat.py:118-119 | the driver reads the k-th `?` as the k-th placeholder with the same text around it if and only if the text has no percent sign |
| SqlText.ModuloSwallowsTheParameter | app/infrastructure/db/compat.py:118-119 | a modulo operator in front of a `?` is read as an escape and the placeholder is gone |
| SqlRewrite.PrintedMarks | app/infrastructure/db/compat.py:149-166 | a statement's text has one `?` per parameter, whatever clauses it carries |
| SqlRewrite.RewriteAlignsParameters | app/infrastructure/db/compat.py:169-189 | through the IGNORE, REPLACE and RETURNING cases, clauses in any order, the values list and the parameter count are kept and no `?` remains; the driver reads each parameter in its place if and only if the statement has no percent sign |
| SqlRewrite.RewritingTwiceIsRewritingOnce | app/infrastructure/db/compat.py:169-189 | rewriting is idempotent on statements, and the whole rewrite applied to its own output text leaves it as it is |
| SqlRewrite.RewrittenTextPrints | app/infrastructure/db/compat.py:169-189 | the rewritten text is the text of the rewritten statement with each parameter a `%s` and nothing else changed |
| SqlRewrite.RewrittenClauses | app/infrastructure/db/compat.py:122-189 | table, columns and values are kept; OR IGNORE gains ON CONFLICT DO NOTHING after its clauses; OR REPLACE becomes an upsert on the key of the catalog, or stays when the pattern does not match; RETURNING is appended if and only if the table is keyed by `id` alone, the statement is or became a plain INSERT and has none |
| SqlRewrite.IgnoreInText | app/infrastructure/db/compat.py:175-187 | as text: the two words OR IGNORE disappear and the clause follows at the end, with nothing in between changed |
| SqlRewrite.ReplaceInText | app/infrastructure/db/compat.py:149-166 | as text: the two words OR REPLACE disappear and the upsert clause follows at the end, with nothing in between changed |
| SqlSemantics.RewrittenShape | app/infrastructure/db/compat.py:149-166 | a statement the pattern matches is rewritten to an upsert that assigns exactly the listed columns outside the key |
| SqlSemantics.RewriteAgreesOnListed | app/infrastructure/db/compat.py:149-166 | for every initial table and every batch, duplicates included, both engines end with the same keys and the same listed columns |
| SqlSemantics.SameTableIff | app/infrastructure/db/compat.py:149-166 | the tables are identical for every initial one if and only if the statement carries no clause of its own, lists all columns and has one outside the key |
| SqlSemantics.OmittedColumnDiffers | app/infrastructure/db/compat.py:149-166 | leaving out any column makes the two differ on some table |
| SqlSemantics.SameTableForBatches | app/infrastructure/db/compat.py:149-166 | for such statements the tables are identical after any batch of executions, later duplicates of a key winning on both |
| SqlSemantics.ActiveSymbolsSame | app/infrastructure/db/compat.py:497-519 | this upsert leaves the same table on either engine for every batch |
| SqlSemantics.PositionSnapshotSame | app/infrastructure/db/compat.py:1340-1350 | this upsert leaves the same table on either engine |
| SqlSemantics.AccountSnapshotSameUpToId | app/infrastructure/db/compat.py:1361-1372 | this upsert leaves the same table up to the surrogate id |
| SqlSemantics.AccountSnapshotIdDiffers | app/infrastructure/db/compat.py:1361-1372 | on some table the surrogate id does differ |
| SqlSemantics.SameIgnoreIff | app/infrastructure/db/compat.py:175-182 | an OR IGNORE leaves the same table on both engines, without an error, for every initial one if and only if the statement carries no clause of its own |
| SqlSemantics.SameIgnoreForBatches | app/infrastructure/db/compat.py:175-182 | for such statements no execution of any batch fails on PostgreSQL and the tables are identical, duplicates included |
| SqlSemantics.IgnoreAgreesOnListed | app/infrastructure/db/compat.py:175-182 | and when the engines choose different defaults, keys and listed columns agree |
| SqlSemantics.IgnoredRowStays | app/infrastructure/db/compat.py:851-863 | OR IGNORE never changes or removes a row, and repeating it changes nothing |
| SqlSemantics.ProposalsAgree | app/infrastructure/db/compat.py:837-841 | any batch of symbol proposals, repeated symbols included, is sent as DO NOTHING and agrees on both engines |
| Dedup.OrderDeduplicator.IsDuplicate | app/ibkr/dedup.py:29-36 | answers from the remembered time of the upper-cased pair |
| Dedup.OrderDeduplicator.Record | app/ibkr/dedup.py:38-43 | remembers the pair and prunes what is 60 s old |
| Dedup.MemoryIsLatest | app/ibkr/dedup.py:38-43 | what is remembered is the latest record of its pair; what is forgotten is at least 60 s old |
| Dedup.PrunedMemoryIsExact | app/ibkr/dedup.py:29-43 | for every history the answer is that of the unpruned one: recorded less than 30 s ago |
| Dedup.ForgetsIff | app/ibkr/dedup.py:38-43 | a record keeps exactly the pairs younger than 60 s, at their times |
| Throttler.NotificationThrottler.NotifyIfChanged | app/notifications/throttler.py:34-77 | the answer and the new memory, for forced, unthrottled, once, once-per-hash and interval types |
| Throttler.NotificationThrottler.ResetState | app/notifications/throttler.py:79-84 | forgets exactly the keys of this type |
| Throttler.NotificationThrottler.Clear | app/notifications/throttler.py:86-89 | forgets everything |
| Throttler.MemoryIsLastStanding | app/notifications/throttler.py:44-89 | the memory of a trace holds, per key, an accepted message not reset since, and none accepted later |
| Throttler.SendsIff | app/notifications/throttler.py:44-77 | a message goes out if and only if it bypasses the rules or no standing message under its key forbids it |
| Throttler.AcceptedApart | app/notifications/throttler.py:18-28 | between resets a once type is accepted at most once, a once-per-hash type at most once per key, others only an interval apart |
| Throttler.ResetIsLocal | app/notifications/throttler.py:79-84 | resetting one type changes no later answer for any other type |
| Throttler.RuleByType | app/notifications/throttler.py:18-28 | which types are unthrottled, once, once per content or held back by an interval, by name |
| Throttler.KeyBySameMessage | app/notifications/throttler.py:51-59 | two messages share a key if and only if they have one type and it is a once type or their contents agree: the hash when there is one, otherwise the first 80 characters |
| Throttler.SendsByType | app/notifications/throttler.py:18-77 | without rules or keys: a message goes out if and only if it is forced, a digest, or every standing message like it leaves room: none for the once types, 300 s for an ignored signal |
| TtlCache.DataLayer.GetCached | app/analysis/data.py:37-43 | the fresh value or nothing; an expired entry is evicted and no other touched |
| TtlCache.DataLayer.SetCached | app/analysis/data.py:45-52 | stores unless the context has no lifetime or an on-demand lookup failed |
| TtlCache.LookupIsLastFresh | app/analysis/data.py:37-52 | for every history a lookup gives the last value stored under the key while it is younger than its context's lifetime; eviction is unobservable |
| TtlCache.TradeEntryNeverHits | app/analysis/data.py:19-26 | with keys built from colon-free symbols and contexts, no lookup under a context without a lifetime ever hits, whatever other contexts store |
| TtlCache.KeysCollideIff | app/analysis/data.py:34-35 | with colon-free symbols and contexts two keys are equal if and only if upper-cased symbol, context and extra are |
| TtlCache.Lifetimes | app/analysis/data.py:19-31 | the lifetime of every context by name, 120 s for an unknown one |
| TtlCache.StoredIff | app/analysis/data.py:45-52 | a value is stored if and only if the context is not trade_entry and it is not a failed on-demand lookup |
| TtlCache.EvictsIff | app/analysis/data.py:37-43 | a lookup removes at most its own entry, and that if and only if it has expired |
| TtlCache.TradeEntryIsAlwaysFresh | app/analysis/data.py:19-52 | with keys built from their contexts no lookup for a trade entry is ever answered from the cache |
| Approval.ApprovalManager.RequestApproval | app/notifications/approval.py:63-76 | a new request is pending under its symbol |
| Approval.ApprovalManager.MessageSent | app/notifications/approval.py:95-109 | starts the wait, or on a failed send removes the entry and returns False |
| Approval.ApprovalManager.HandleCallback | app/notifications/approval.py:135-164 | sets the verdict of the pending request of that symbol, or changes nothing |
| Approval.ApprovalManager.PollAgain | app/notifications/approval.py:112-121 | one turn of the wait loop, or its end with the verdict as it stands |
| Approval.ApprovalManager.Conclude | app/notifications/approval.py:121-133 | removes the entry and returns the verdict |
| Approval.ApprovedMeansLastCallbackApproved | app/notifications/approval.py:76-133 | when no request starts while one of its symbol is outstanding, a request that returns answers True if and only if the last callback for the symbol before its last poll approved; none fails on removing its entry, and none leaves it behind |
| Approval.WaitEnds | app/notifications/approval.py:112-118 | no request polls more than 2 * timeout + 1 times, whatever else is outstanding |
| Approval.UnansweredWaitsItOut | app/notifications/approval.py:112-121 | a request that stops waiting without an answer has polled exactly 2 * timeout + 1 times, and its verdict is False |
| Approval.AnswersAreWaitedFor | app/notifications/approval.py:112-133 | on serialised runs a request that returned False after its message went out either had a cancel as the last verdict before its deciding poll or polled 2 * timeout + 1 times with no verdict |
| Approval.ApprovedInTimeSucceeds | app/notifications/approval.py:112-133 | on serialised runs a request whose last verdict at some poll is an approve has True as its verdict in every continuation, and ends with it |
| Approval.StrayCallbackChangesNothing | app/notifications/approval.py:153-157 | a callback for a symbol that is not pending changes nothing |
| Approval.OverlapCanCrash | app/notifications/approval.py:76-109 | conversely, any request that starts while one of its symbol is outstanding can be driven to the KeyError |
| Approval.OverlapCanApproveTheCancelled | app/notifications/approval.py:76-124 | an approved request overtaken by a second one can return True after a cancel that was the last callback before its deciding poll |
| OrderApproval.CarefulLocksSerialise | app/application/use_cases/place_order.py:59-62 | when threads ask for approval only while holding the lock for their symbol, and locks are stored carefully, no request starts while one of its symbol is outstanding |
| OrderApproval.CarefulOrdersAreApprovedRight | app/application/use_cases/place_order.py:123-133 | on those runs no order ends in the KeyError, and a request answers True if and only if the last callback for its symbol before its deciding poll approved |
| OrderApproval.RacingOrdersCanCrash | app/application/use_cases/place_order.py:54-57 | for any symbol two first orders that race for the lock can end in the KeyError |
| Approval.OverlapIsReachable | app/notifications/approval.py:76-118 | for every symbol a run leads to the state in which both happen |
| SymbolLock.SymbolLocks.LookUp | app/application/use_cases/place_order.py:55 | the branch on whether the symbol has a lock |
| SymbolLock.SymbolLocks.StoreNew | app/application/use_cases/place_order.py:56 | a new lock replaces whatever the dictionary holds by then |
| SymbolLock.SymbolLocks.ReadBack | app/application/use_cases/place_order.py:57 | the lock returned is the one in the dictionary at that moment |
| SymbolLock.SymbolLocks.AcquireLock | app/application/use_cases/place_order.py:61 | only a free lock is acquired, and it is the one read before |
| SymbolLock.SymbolLocks.ReleaseLock | app/application/use_cases/place_order.py:61-62 | frees the lock the thread held |
| SymbolLock.LocksExclude | app/application/use_cases/place_order.py:54-62 | orders of one symbol exclude each other on every run in which a lock is stored only while no other thread of the symbol is past reading one |
| SymbolLock.CarelessStoreBreaks | app/application/use_cases/place_order.py:54-62 | and only then: every first store that comes too late extends to a run in which two orders of the symbol execute at once |
| SymbolLock.LatecomersNeverStore | app/application/use_cases/place_order.py:54-57 | a symbol keeps having a lock, and only orders that had found none before it can still store another |
| SymbolLock.FirstOrdersCanOverlap | app/application/use_cases/place_order.py:54-57 | for any symbol, two first orders that look before either stores hold different locks at once |
| Scorer.ScoreIsAverage | app/analysis/scorer.py:176-182 | the normalised weights sum to 1 and the total lies between the weakest and the strongest dimension before the clamp |
| Scorer.ScoreIsMonotone | app/analysis/scorer.py:176-191 | raising any dimension strictly raises the total and never lowers the recommendation |
| Scorer.ScoreNeedsNoClamp | app/analysis/scorer.py:165-204 | for any features, news, portfolio and in-range multipliers the score is the rounded average, within 0 and 100, without the clamp |
| Scorer.GlobalWeightsSumToOne | app/analysis/scorer.py:8-16 | the configured weights are positive and sum to 1 |
| Scorer.UntrainedScore | app/analysis/scorer.py:8-16 | a symbol without learning scores 20, 15, 15, 10, 10, 10 and 20 points per dimension, in this order |
| Scorer.RecommendationBands | app/analysis/scorer.py:184-191 | rejected up to 35, watchlist up to 55, propose up to 75, priority above |
| Scorer.MomentumIsSymmetric | app/analysis/scorer.py:44-55 | momentum depends on the distance of the RSI from 50 alone and grows with it; a crossover alone gives 0.4 |
| Scorer.TrendAddsUp | app/analysis/scorer.py:58-76 | with all features present the trend is the sum of its four parts |
| Scorer.VolumeAndFitAreMonotone | app/analysis/scorer.py:79-118 | more volume never scores less, a fuller portfolio never more, and three positions nothing |
| Scorer.SentimentMirrors | app/analysis/scorer.py:121-131 | swapping good and bad news mirrors the score around one half; no news scores 0 |
| Scorer.BestZones | app/analysis/scorer.py:96-142 | where volatility and price change score best, well, and worst |
| Scorer.DimSentiment | app/analysis/scorer.py:121-131 | lies in [0, 1] for any news counts |
| Scorer.DimMomentum | app/analysis/scorer.py:44-55 | lies in [0, 1] for any features with the cap at 1 alone |
| Scorer.DimTrend | app/analysis/scorer.py:58-76 | lies in [0, 1] for any features, absent ones included, with the cap at 1 alone |
| Scorer.SymbolParameters.Update | app/analysis/scorer.py:207-232 | for any learning rate and minimum: refused below the minimum trade count without a change; otherwise the attenuated, clamped, rounded multiplier is stored |
| Scorer.MultiplierStaysInRange | app/analysis/scorer.py:223-227 | no run of updates, whatever its suggestions, confidences and learning rates, leaves [0.5, 1.5] |
| Scorer.LearnContracts | app/analysis/scorer.py:223-227 | one update leaves of the gap to an in-range target at most the factor 1 - share plus half a rounding unit, for a share of confidence times learning rate in [0, 1], by default 0.15 * confidence |
| Scorer.LearnGoesNoFurther | app/analysis/scorer.py:223-227 | the new multiplier is the attenuated share of the way from the old one to the suggestion, neither less nor more, up to half a rounding unit |
| Scorer.LearnLeavesTheRest | app/analysis/scorer.py:223-227 | so at least the factor 1 - share of the gap remains, less half a rounding unit |
| Scorer.LearnStopsAtBounds | app/analysis/scorer.py:223-227 | a suggestion that would carry the multiplier beyond 0.5 or 1.5 leaves it there |
| Scorer.DefaultLearning | app/analysis/scorer.py:20-227 | at the default rate the share is 15% at full confidence |
| Scorer.LearningConverges | app/analysis/scorer.py:223-227 | after n repetitions the gap is within the n-th worst gap from any start in range |
| Scorer.WorstGapIsGeometric | app/analysis/scorer.py:223-227 | the worst gap decays geometrically to a residue that depends on the share alone |

## Left out

- Broker, database server, language model and chat transport: their answers and failures are
  inputs, except that a failing write to the trades table, which ends a pass, is not modelled.
  In particular a close that the table records is not a claim that the broker filled it; a
  failed send closes at the tick price, as in the source.
- IEEE 754 detail: all arithmetic is exact and `round` rounds half to even.
- Actions other than BUY and SELL.
- Inputs on which the source divides by zero: a zero entry price in the monitor, a zero stop
  percentage or close in the backtest, zero capital with trades in the metrics.
- PositionRuns.LifeStopIsHighWater: is about lives whose half exits go through; with any orders
  refused the stop is that of PositionLives.LifeStopFollowsPrices.
- TrailingStop.MemorylessStopIsHighWater: asks a SELL for non-negative prices, because a stop of
  exactly zero is falsy and dropped.
- The columns `trade_status`, `pnl_pct`, order ids and fill prices, position snapshots, symbol
  approval, postmortems and notification texts; they feed none of the rules modelled.
- Another process changing rows in the middle of a pass: a close of such a row is covered by
  ClosePosition, a whole pass is modelled for a table that only the monitor changes.
- The fate of an order is an input; in particular the duplicate check, which refuses a second close
  of one trade for one reason within 30 s, is not tied to the times of the ticks.
- Positions with a quantity but no average cost, and portfolio entries without a symbol.
- Job parameters, timestamps and listing; shutting the pool down; a submission whose own row cannot
  be saved, which raises before anything is queued.
- Bar labels: bars are taken by position, with unique labels. Indicators are an uninterpreted
  function of the bars so far; `run_backtest` and its data loading are not modelled.
- The regular expressions of the rewriter: INSERT statements are data with a printer. PRAGMA
  statements, `ORDER BY rowid`, names containing RETURNING, and `lastrowid` are not modelled. The
  effect on tables is modelled for statements that list each column once, as PostgreSQL demands, and
  for conflicts on the primary key; what OR IGNORE does about other violated constraints is not.
- SqlRewrite.RewriteAlignsParameters: for names and literals without a `?`, since the source splits
  the text without looking at quotes.
- Approval: the unconfigured bot that rejects at once, callback payload parsing, the editing of
  messages, and the synchronous fallback for a running event loop. Symbols are taken as already
  upper-cased.
- Dedup.PrunedMemoryIsExact: for a positive clock that does not go back, as a stored time of zero is
  falsy.
- Upper-casing beyond ASCII letters.
- The fetching part of the market-data layer; only its cache is modelled.
- The rounded per-dimension fields and the reported weights of a score; parameters that cannot be
  loaded or stored, on which an update answers False.
- Order validation and placement under the lock, pre-flight checks, regime and time filters, the
  monthly and daily limits: each is settled by one branch or a table.
