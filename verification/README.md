# Verified model of the portfolio ledger and the code around it

This project models, in Dafny, the bookkeeping and decision core of the trading system: the portfolio
ledger, order execution, the snapshot backfill that replays the ledger, the weekly runner, portfolio
construction, the adaptive analyst weights, the rank statistics and the rate limiter. Each module states
what its part of the system is for and proves it over all inputs, all logs, all runs or all interleavings.

| file | what it models |
|---|---|
| `Ledger.dfy` | one trade on one book (four sides, flat-row deletion, aggregates), folds over trade logs, marking to market |
| `Execution.dfy` | `submit_order`: validation, SELL clamp, broker answer, cash gate, hand-over to the ledger |
| `Replay.dfy` | `reconstruct_daily_states`: the second ledger, day by day, with carried-forward closes |
| `WeeklyRunner.dfy` | the run protocol over separate transactions, with crashes, races, retries and manual edits |
| `Selection.dfy` | selection with hysteresis |
| `Sizing.dfy` | conviction weights with iterative cap redistribution, and exactly when they are complete |
| `CapRounds.dfy` | for which caps ten redistribution rounds are enough |
| `Rebalancing.dfy` | target-versus-current order generation, and what executing the orders leads to |
| `RebalanceRun.dfy` | the generated orders run through order execution and the ledger at any fill prices: sells fund the buys, slippage and the cash buffer |
| `AdaptiveWeights.dfy` | tilt, bounded-simplex projection, six-decimal repair, the weekly recursion |
| `RankStats.dfy`, `Ranker.dfy` | tie-averaged ranks, Spearman, the tie-sharing decile ranker |
| `RateLimiter.dfy` | the token bucket and the exact bounds on its grants |
| `Prelude.dfy`, `Sums.dfy`, `Sorting.dfy`, `Rounding.dfy` | dictionaries, products, quotients and sums, the stable sort, round-half-even |

State that the source updates in place is held in classes (`PortfolioService`, `TradeExecutionService`,
`Runner`, `Limiter`); loops of the source are loops of methods. Every such method is proved equal to a
specification function (`Settle`, `Submit`, `Reconstructed`, `Next`, `Weights`, `Decide`, ...), and the
lemmas about those functions are the results. `dafny verify dfyconfig.toml` checks everything.

Modelling decisions: amounts are exact reals instead of floats, with explicit grids where the code rounds
(four decimals for shares, six for weights, 1e-8 for stored quantities); the broker's answer, clock
readings, sleeps, the New York date of a timestamp, the exponential, the square root and the decay factor are
parameters; symbol and instrument id correspond one to one; ids are positions in the stored sequences.

Where the code and the stated intent part, the code is kept and the exact condition is proved:

- An accepted trade of any quantity on a sound book keeps it sound and conserves value except in one case, which is
  exact: a BUY or SHORT that drives its leg negative, or ends it empty with basis left on it (or with margin left,
  when the other leg keeps the row alive), because the emptied row is deleted with what is on it
  (`Ledger.SettleSoundExact`, over whole logs `Ledger.FoldSoundExact`; the exact leak of any log is
  `Ledger.FoldConserves`). A BUY of negative quantity passes validation and the gate and does this
  (`Execution.EmptyingBuyLosesValue`); so does a zero-quantity one that charges a commission.
- The comment above the SELL clamp says the oversell guard can never trip. It trips exactly when a SELL
  exceeds a long quantity that is not positive by at most 1e-6, as on a row that is only short
  (`Execution.RaisesExactly`, reachable by `Execution.OversellReachesTheLedger`); then the trade stays in the log and the log no longer folds
  (`Execution.BooksAreTheFoldExactly`). From long-only books it never happens (`Execution.LongRunsNeverRaise`).
- `cash + total_long_exposure` is cash plus realized P&L plus the short exposure, less what was dropped, on every
  log (`Ledger.NavAfterTrades`).
- The docstring of `size_positions` says the targets sum to one minus the buffer. For every positive cap they do if
  and only if nothing is above the cap or the first round hands on and settles all of the excess; from the second
  round on names at the cap are counted but receive nothing (`Sizing.TargetTotal`). Convictions 50, 35 and 15 with a
  cap of 0.4 lose weight (`Sizing.ThreeNamesLoseWeight`). For caps of at least one half the condition says that there
  is a second name to take the excess (`Sizing.HalfCapTotal`).
- The same docstring names the realized maximum. Ten rounds hold it for all convictions if and only if the cap is at
  least 1/11 (`CapRounds.CapHeldExactly`).
- Setting a running row to failed by hand is safe exactly when the run can no longer act and has not
  traded (`WeeklyRunner.FlipIsSafeExactly`, `WeeklyRunner.FlipKeepsOrderExactly`); from the empty table one careless
  flip makes a branch and date trade twice (`WeeklyRunner.OneFlipTradesTwice`).
- The docstring of `size_positions` says that the buffer keeps buy fills from overdrawing cash. Whether all orders fill
  is decided exactly by what is spent at the fill prices (`RebalanceRun.RebalanceFillsExactly`); a buffer is enough if
  it covers the untraded, rounding and unpriced allowances, the slippage on the turnover and the commissions
  (`RebalanceRun.BufferedRebalanceFills`).
- The limiter documents `rate` requests per second. It grants up to `rate + rate * T` plus `rate` times the time waited
  (`RateLimiter.GrantsPaid`), since a sleep is credited again by the next refill: never more than
  `rate + 2 * rate * T`, or `rate * T / (1 - rate)` for rates below one, and both are reached, the first from a rate of
  one half up and the second below (`RateLimiter.BoundIsReached`, `RateLimiter.SlowBoundIsReached`). For every rate some
  run exceeds `rate + rate * T` (`RateLimiter.RateIsExceeded`); without waits none does
  (`RateLimiter.RateHeldWithoutWaits`).
- The replay sees only trades dated on a trading day (`Replay.ReplayRefinesDatedTrades`), so it need not end at the
  stored book (`Replay.SkippedBuyIsReported`). The validation gate notices exactly when the skipped trades are not
  negligible on balance (`Replay.GatePassesExactly`); a skipped round trip can pass (`Replay.SkippedRoundTripPasses`).
- The infeasible-bounds jump of the adaptive weights is described as happening once, after a configuration change. It
  happens on the first run if the recovered weights make the bounds infeasible, and again after every fallback to a
  static prior that does; never otherwise (`AdaptiveWeights.RunsKeepStored`).

## Model

| member | source | states |
|---|---|---|
| Ledger.PortfolioService.UpdateOnSell | app/modules/portfolio/service.py:244-254 | the SELL branch, field by field, equals the posting whose conservation, average-cost and flow laws are proved below; it refuses exactly an oversell |
| Ledger.PortfolioService.UpdateOnCover | app/modules/portfolio/service.py:263-280 | the COVER branch likewise, with pro-rata margin release; it refuses exactly an overcover |
| Ledger.PortfolioService.UpdatePosition | app/modules/portfolio/service.py:235-282 | the four-sided update of the row with its cash and P&L effect |
| Ledger.PortfolioService.UpsertRow | app/modules/portfolio/service.py:284-290 | upsert then delete-if-flat leaves the row map with the row, or without it when both legs are zero |
| Ledger.PortfolioService.Persist | app/modules/portfolio/service.py:292-315 | all aggregates are the totals over the rows left, visited in any order; cash and realized P&L move by the posting |
| Ledger.PortfolioService.HandleTradeExecuted | app/modules/portfolio/service.py:215-315 | one fill takes the books to the settled books, or reports the error and leaves them untouched |
| Ledger.PortfolioService.ValuePositions | app/modules/portfolio/service.py:92-112 | the valuation loop totals market values and costs of the open positions, counts the unpriced ones and lists one detail per position, in any order |
| Ledger.PortfolioService.ValuePosition | app/modules/portfolio/service.py:93-112 | one position: its market value at a usable price, its cost otherwise, and the unrealized difference |
| Ledger.PortfolioService.FinishDetail | app/modules/portfolio/service.py:116-118 | the weights are filled in over nav and the detail is sorted by value, then symbol |
| Ledger.PortfolioService.MarkToMarket | app/modules/portfolio/service.py:75-149 | the marked book and the report with its counts (unpriced are the open positions without a positive price) and the complete detail, one entry per open position, weighted and sorted by value; an unknown branch changes nothing |
| Ledger.SettleConserves | app/modules/portfolio/service.py:235-315 | every accepted trade on every book changes cash + long bases - short bases - realized P&L by exactly the basis of a row it leaves flat |
| Ledger.FoldConserves | app/modules/portfolio/service.py:215-315 | the same over any accepted log, with no assumption on quantities, prices or the first book |
| Ledger.SettleSoundExact | app/modules/portfolio/service.py:239-290 | on every sound book an accepted trade of any quantity conserves value and keeps every row sound if and only if, being an opening trade, it neither drives its leg negative nor empties it with basis (or margin on a surviving row) left |
| Ledger.FoldSound | app/modules/portfolio/service.py:239-290 | over every accepted log of such trades value is conserved, zero quantity implies zero basis and margin, and no flat row survives |
| Ledger.FoldSoundExact | app/modules/portfolio/service.py:239-290 | value is conserved and the book is sound after every prefix of an accepted log if and only if every trade of the log is of that kind |
| Ledger.RegularIsSound | app/modules/portfolio/service.py:239-290 | every trade of positive quantity is, and every zero-quantity trade without commission |
| Ledger.RealizedSurvivesDeletion | app/modules/portfolio/service.py:298-303 | realized P&L is that of the open rows plus that of every row deleted on the way, over every accepted log |
| Ledger.ClosedBookRealizesItsCash | app/modules/portfolio/service.py:298-303 | once every position is closed, realized P&L is the change in cash plus what was dropped, on every accepted log; sound logs drop nothing |
| Ledger.SettleFlows | app/modules/portfolio/service.py:239-303 | cash and the quantities of every symbol move by the trade's own flow, other symbols not at all |
| Ledger.TradeAtItsPrice | app/modules/portfolio/service.py:239-303 | every accepted trade exchanges shares for cash at its own price: valued at that price, cash and net shares together lose exactly the commission, on all four sides |
| Ledger.TradeMovesShares | app/modules/portfolio/service.py:239-290 | a BUY and a SELL move the long shares by the quantity, a SHORT and a COVER the short ones, and no other symbol moves |
| Ledger.LegsAreSeparate | app/modules/portfolio/service.py:239-280 | the leg that is not traded stays as it is; P&L is booked on the leg that is closed, as proceeds less the basis released (or the basis released less the cost); a SHORT takes margin on price times quantity |
| Ledger.RefusedExactly | app/modules/portfolio/service.py:245-268 | refused are exactly a SELL of more than is held long and a COVER of more than is held short, with the held amount |
| Ledger.FoldIsNetFlow | app/modules/portfolio/service.py:239-303 | after any log cash and quantities are the net flows of the log, through deletion and re-entry |
| Ledger.SellKeepsAverageCost | app/modules/portfolio/service.py:247-252 | a partial SELL leaves the average cost of the rest unchanged |
| Ledger.CoverKeepsAveragePrice | app/modules/portfolio/service.py:268-279 | a partial COVER leaves the average short price unchanged and margin proportional to the open quantity |
| Ledger.BuyThenSellRestoresRows | app/modules/portfolio/service.py:239-290 | buying an unheld symbol and selling the same quantity restores every row; cash and realized P&L gain the same amount |
| Ledger.DifferentSymbolsCommute | app/modules/portfolio/service.py:239-315 | trades of different symbols commute: same acceptance, same book |
| Ledger.MarginFollowsShortExposure | app/modules/portfolio/service.py:256-279 | over any accepted log with non-negative commissions margin in use is at least the requirement times the short exposure, and equal to it without commissions |
| Ledger.NavAfterTrades | app/modules/portfolio/service.py:303-304 | after any accepted log nav is initial cash + realized P&L + short exposure, less what was dropped; sound logs drop nothing |
| Ledger.MarkedNav | app/modules/portfolio/service.py:114-125 | a marked sound book has nav = conserved capital + realized + unrealized P&L + short basis, whatever prices are missing |
| Ledger.PositionContributes | app/modules/portfolio/service.py:92-115 | an open position adds shares times price to nav and exposure, or its basis when it has no positive price, and the difference to its basis to unrealized P&L |
| Ledger.PriceMovesMark | app/modules/portfolio/service.py:100-115 | moving one usable price by x moves nav, exposure and unrealized P&L by x for every share held long |
| Ledger.MarkedAtCost | app/modules/portfolio/service.py:94-100 | marked at its average cost, or without a usable price, an open position adds exactly its basis and no unrealized P&L |
| Ledger.MarkTouches | app/modules/portfolio/service.py:86-125 | positions that are not open add nothing, and a mark changes only nav, long exposure and unrealized P&L |
| Ledger.DetailExplainsNav | app/modules/portfolio/service.py:103-118 | every entry of the detail has the quantity and basis of its row, the price used, its difference, its share in nav, and as value just what nav would lose without the position |
| Ledger.MarkWeights | app/modules/portfolio/service.py:114-118 | with positive nav the weights of the detail and the cash weight add up to one |
| Execution.TradeExecutionService.ValidateOrder | app/modules/trade_execution/service.py:264-292 | the pre-trade check returns exactly the specified refusal |
| Execution.TradeExecutionService.GateOnCash | app/modules/trade_execution/service.py:117-121 | the gate refuses exactly a BUY costing more than cash plus 1e-6 at the fill price |
| Execution.TradeExecutionService.Reject | app/modules/trade_execution/service.py:55-71 | a failed validation leaves one rejected order row |
| Execution.TradeExecutionService.UpdateOrder | app/modules/trade_execution/service.py:146-153 | a status update rewrites the order created last and no other |
| Execution.TradeExecutionService.SubmitOrder | app/modules/trade_execution/service.py:41-214 | orders, trade log, books and response after one submission are those of the specification `Submit` |
| Execution.OutcomeExactly | app/modules/trade_execution/service.py:54-214 | which submissions fill, raise or are rejected, each if and only if a condition on the stored book and the broker's answer |
| Execution.ReasonsExactly | app/modules/trade_execution/service.py:264-292 | each reason for a rejection, with its amounts, if and only if a condition on the stored book, the request and the fill |
| Execution.SubmissionRecords | app/modules/trade_execution/service.py:54-177 | every submission leaves one order row that echoes the request; a filled one and its trade carry the broker's price, commission and time, a rejected one has nothing filled and no trade |
| Execution.SubmitReconciles | app/modules/trade_execution/service.py:87-214 | one submission keeps orders and trades reconciled |
| Execution.RunReconciles | app/modules/trade_execution/service.py:87-214 | after any run every order is filled or rejected, and filled orders and trades correspond one to one by id with equal quantity, price and commission |
| Execution.BooksAreTheFoldExactly | app/modules/trade_execution/service.py:143-177 | after any run the trade log folds to exactly the stored books if no submission slipped through to the oversell guard on the book it met, and does not fold if one did |
| Execution.FoldAllByBranch | app/modules/portfolio/service.py:215-315 | branches do not interfere: each book is the fold of its own branch's trades |
| Execution.RejectionLeavesNoTrace | app/modules/trade_execution/service.py:121-141 | a rejected submission leaves trades and books untouched and keeps earlier orders |
| Execution.RaisesExactly | app/modules/trade_execution/service.py:80-85 | the ledger's guards fire exactly for a SELL within 1e-6 above a long quantity that is not positive |
| Execution.OversellReachesTheLedger | app/modules/trade_execution/service.py:73-85 | a two-submission run that reaches the oversell error and leaves a log that does not fold |
| Execution.EmptyingBuyLosesValue | app/modules/trade_execution/service.py:264-292 | a BUY of negative quantity is filled, and one that empties its leg loses the basis left on the deleted row |
| Execution.LongRunsNeverRaise | app/modules/trade_execution/service.py:277-284 | from long-only books no run of buys and sells reaches the oversell error |
| Execution.NearHeldSellClosesThePosition | app/modules/trade_execution/service.py:80-85 | a filled SELL within 1e-6 of the held quantity trades exactly that quantity and removes the row unless it is short too |
| Execution.SubmitKeepsCashFloor | app/modules/trade_execution/service.py:117-141 | one funded submission keeps every branch's cash at or above -1e-6 |
| Execution.CashNeverOverdrawn | app/modules/trade_execution/service.py:117-141 | so does every run of BUY, SELL and SHORT submissions |
| Execution.BuyFillsExactlyWhenAffordable | app/modules/trade_execution/service.py:117-121 | a BUY fills if and only if the exact fill cost is covered, and that cost is what the ledger debits |
| Replay.RefusalsAgree | scripts/backfill_snapshots.py:89-92 | on stored quantities the replay and the live ledger refuse the same sells, in spite of the replay's tolerance |
| Replay.TradeMirrors | scripts/backfill_snapshots.py:82-97 | one stored trade keeps the replay's dictionaries equal to the live book, closed symbols as zeros |
| Replay.LogMirrors | scripts/backfill_snapshots.py:82-97 | the same for any stored log |
| Replay.StopsAtFirstOversell | scripts/backfill_snapshots.py:90-93 | a replay stops exactly at its first sell of more than is held plus 1e-9, and names the symbol, the quantity and the holding |
| Replay.ReplayIsNetFlow | scripts/backfill_snapshots.py:84-98 | over every replayed log cash and quantities are the net flows |
| Replay.EveryDayCorrect | scripts/backfill_snapshots.py:80-129 | every daily state shows the live book of the trades up to that day |
| Replay.ThroughIsDated | scripts/backfill_snapshots.py:71-81 | the day loop reaches exactly the trades dated on a trading day, in log order |
| Replay.ReplayRefinesDatedTrades | scripts/backfill_snapshots.py:60-130 | for any trading days the replay succeeds exactly when the live ledger accepts the dated trades, and ends with the same cash, realized P&L, quantities and cost bases |
| Replay.ReplayRefinesLedger | scripts/backfill_snapshots.py:60-130 | when every trade is dated on a trading day, the same for the whole log, including positions closed, deleted and re-entered |
| Replay.ReplayReproducesDesk | scripts/backfill_snapshots.py:60-130 | end to end: replaying a branch's trades after any run of submissions that did not raise reproduces its stored book |
| Replay.ReplayedNav | scripts/backfill_snapshots.py:82-129 | in every replayed state of every BUY and SELL log nav is initial cash + realized + unrealized P&L, less the cost still recorded for symbols whose quantity counts as none; any quantities, prices, days and missing closes |
| Replay.StateShowsTape | scripts/backfill_snapshots.py:100-129 | on every log each state shows its trading day, cash and realized P&L so far, and exactly the symbols with a quantity above 1e-9 with quantity and recorded cost |
| Replay.StoredReplayedNav | scripts/backfill_snapshots.py:82-129 | on stored logs that remainder is zero |
| Replay.ClosesCarryForward | scripts/backfill_snapshots.py:103-119 | every holding is valued at the last quote seen while it was held, or at cost if there was none |
| Replay.GatePassesExactly | scripts/backfill_snapshots.py:133-143 | for every stored log that both ledgers accept and any trading days, the gate finds nothing if and only if the trades not dated on a trading day move cash by at most 0.50 and every quantity by at most 1e-6 on balance |
| Replay.SkippedBuyIsReported | scripts/backfill_snapshots.py:83-84 | a stored buy not dated on a trading day is missing from the replay, and the gate reports it |
| Replay.SkippedRoundTripPasses | scripts/backfill_snapshots.py:133-143 | a skipped round trip that gains at most 0.50 passes the gate, with its realized P&L missing |
| Replay.GateCompares | scripts/backfill_snapshots.py:133-143 | a state that shows one book passes against another exactly if their cash and quantities are within the tolerances |
| Replay.ValidateFinalState | scripts/backfill_snapshots.py:133-143 | the report is the cash gap and then the symbols alphabetically, for every order of iteration; it is empty exactly if cash is within 0.50 and every quantity within 1e-6 |
| Replay.ProblemsExactly | scripts/backfill_snapshots.py:133-143 | reported, with the two amounts, are exactly a cash gap over 0.50 and each symbol off by more than 1e-6 |
| Replay.ProblemsInOrder | scripts/backfill_snapshots.py:135-142 | the cash gap comes first, then the symbols in alphabetical order |
| Replay.CompareQuantities | scripts/backfill_snapshots.py:139-142 | the loop over the sorted symbols |
| Replay.ValueHeld | scripts/backfill_snapshots.py:100-119 | the valuation loop, in any key order, refreshes the close table and totals values and costs |
| Replay.ReplayOne | scripts/backfill_snapshots.py:82-97 | one trade on the accumulators |
| Replay.ReplayOneDay | scripts/backfill_snapshots.py:81-97 | the trades of one day in turn; the first inconsistent sell stops them |
| Replay.GroupByDay | scripts/backfill_snapshots.py:71-73 | grouping gives each date its trades in order |
| Replay.RunDay | scripts/backfill_snapshots.py:81-129 | one pass of the day loop |
| Replay.RunDays | scripts/backfill_snapshots.py:80-129 | the day loop; the first inconsistent sell stops it |
| Replay.ReconstructDailyStates | scripts/backfill_snapshots.py:60-130 | the whole reconstruction, refusing any side but BUY and SELL |
| WeeklyRunner.RunIdInjective | app/modules/equities/weekly_runner.py:328-342 | attempts of one branch and date never share a run id |
| WeeklyRunner.RunIdsAgreeExactly | app/modules/equities/weekly_runner.py:328-342 | two run ids are equal if and only if branch, date and attempt are, or one branch is named like a later attempt of the other on the same date |
| WeeklyRunner.StepKeepsOrder | app/modules/equities/weekly_runner.py:191-301 | every step of every process keeps the table orderly: attempts contiguous, all before the last failed, each active process owning its row |
| WeeklyRunner.DisciplinedRunsAreOrderly | app/modules/equities/weekly_runner.py:191-301 | so does every run, with crashes, races, retries and flips of rows whose process is gone |
| WeeklyRunner.AttemptsContiguous | app/modules/equities/weekly_runner.py:319-342 | in every reachable state a row of attempt n stands on failed attempts 1 .. n-1 |
| WeeklyRunner.LiveRowUnique | app/modules/equities/weekly_runner.py:319-342 | a branch and date has at most one row that has not failed |
| WeeklyRunner.CompletedBlocks | app/modules/equities/weekly_runner.py:330-332 | a completed row stays, and no step adds another attempt for its branch and date |
| WeeklyRunner.FirstToCommit | app/modules/equities/weekly_runner.py:243-244 | a process about to commit its trades is the first for its branch and date |
| WeeklyRunner.CarefulRunsAreSafe | app/modules/equities/weekly_runner.py:206-265 | the safety invariant over all careful runs from any safe state |
| WeeklyRunner.AtMostOnce | app/modules/equities/weekly_runner.py:206-265 | trades commit at most once per branch and date, and then the latest row is that very run and never failed |
| WeeklyRunner.NoFlipsIsCareful | app/modules/equities/weekly_runner.py:178-181 | without manual edits every run is careful |
| WeeklyRunner.RecoveryStarts | app/modules/equities/weekly_runner.py:178-181 | the documented recovery (flip to failed, forced retry) gets the next attempt trading whenever its run id is free |
| WeeklyRunner.FlippingALiveRunBreaksOrder | app/modules/equities/weekly_runner.py:178-181 | flipping a live run leads to a completed row below a later attempt |
| WeeklyRunner.FlippingATradedRunTradesTwice | app/modules/equities/weekly_runner.py:178-181 | flipping a run whose trades are committed leads to a second commit |
| WeeklyRunner.FlippingATradingRunTradesTwice | app/modules/equities/weekly_runner.py:178-181 | flipping a run still trading lets it and its retry both commit |
| WeeklyRunner.FlipIsSafeExactly | app/modules/equities/weekly_runner.py:178-181 | a flip keeps at-most-once trading in every future if and only if the run is neither live nor traded |
| WeeklyRunner.FlipKeepsOrderExactly | app/modules/equities/weekly_runner.py:178-181 | a flip keeps attempts contiguous in every future if and only if the run is not live |
| WeeklyRunner.TradedRunReachable | app/modules/equities/weekly_runner.py:178-181 | from the empty table a process can commit its trades and be killed, leaving a running row with trades |
| WeeklyRunner.OneFlipTradesTwice | app/modules/equities/weekly_runner.py:178-181 | from the empty table one flip is enough for a branch and date to trade twice |
| WeeklyRunner.Runner.FindLatest | app/modules/equities/weekly_runner.py:110-122 | the row with the greatest attempt of the branch and date |
| WeeklyRunner.Runner.InsertRunning | app/db/models.py:482 | the primary key refuses a second row with the same run id |
| WeeklyRunner.Runner.Mark | app/modules/equities/weekly_runner.py:144-160 | writes a final status; a missing row is an error |
| WeeklyRunner.Runner.BeginRun | app/modules/equities/weekly_runner.py:206-233 | the first transaction: skip, refuse, or insert the running row of the first attempt, or of the next one after a failed latest run if forced, as steps of the state machine |
| WeeklyRunner.Runner.Execute | app/modules/equities/weekly_runner.py:191-301 | one run on its own is an interleaving of the state machine; which report it ends in, the trades committed exactly if its transaction did, and the whole table it leaves |
| Sizing.RoundSum | app/modules/equities/agents/portfolio_manager.py:127-143 | the exact total after one round: the excess is handed on except for the share of names at the cap |
| Sizing.LoopNeverGrows | app/modules/equities/agents/portfolio_manager.py:126-143 | for every positive cap the loop never raises the total and keeps weights non-negative |
| Sizing.LoopConverges | app/modules/equities/agents/portfolio_manager.py:126-143 | the number of rounds that leaves nothing above the cap, from the number of names already at it |
| Sizing.TenRoundsSuffice | app/modules/equities/agents/portfolio_manager.py:126-143 | ten rounds suffice for every cap of at least 1/11, and keep the order |
| CapRounds.TenRoundsFail | app/modules/equities/agents/portfolio_manager.py:126-143 | for every smaller cap there are eleven weights totalling one of which one is still above the cap after ten rounds |
| CapRounds.CapHeldExactly | app/modules/equities/agents/portfolio_manager.py:103-106 | the cap holds for all convictions if and only if it is at least 1/11 |
| Sizing.UncappedKeepProportions | app/modules/equities/agents/portfolio_manager.py:139-142 | for every cap, names that end below it are weighted in proportion to their convictions |
| Sizing.RoundKeepsTotalExactly | app/modules/equities/agents/portfolio_manager.py:127-143 | a round with an excess keeps the total if and only if no name is at the cap already and some name can take it |
| Sizing.LoopKeepsTotalExactly | app/modules/equities/agents/portfolio_manager.py:126-143 | for every positive cap the loop keeps the total if and only if nothing is above the cap or the first round settles the excess |
| Sizing.WeightsTotalExactly | app/modules/equities/agents/portfolio_manager.py:112-143 | the same from the convictions; with zero convictions if and only if the cap times their number is at least one |
| Sizing.ThreeNamesLoseWeight | app/modules/equities/agents/portfolio_manager.py:126-143 | convictions 50, 35, 15 and a cap of 0.4: three positive convictions, and the weights total less than one |
| Sizing.HalfCapTotal | app/modules/equities/agents/portfolio_manager.py:113-143 | for caps of at least one half the condition means a cap of one or a second name that can take the excess |
| Sizing.TargetTotal | app/modules/equities/agents/portfolio_manager.py:99-154 | for every positive cap and every buffer the targets total one minus the buffer if and only if the buffer is one, or nothing is above the cap, or the first round settles the whole excess |
| Sizing.WeightsBounded | app/modules/equities/agents/portfolio_manager.py:108-143 | for every positive cap weights are non-negative and total at most one; for caps of at least 1/11 capped and in conviction order |
| Sizing.EqualWeightsExactly | app/modules/equities/agents/portfolio_manager.py:113-124 | without convictions every name gets the largest equal weight that fits under the cap and into one |
| Sizing.LastConvictionCounts | app/modules/equities/agents/portfolio_manager.py:125 | of a repeated symbol the last conviction counts |
| Sizing.TargetsBounded | app/modules/equities/agents/portfolio_manager.py:93-154 | the same after the buffer: no target above cap * (1 - buffer) |
| Sizing.CutAtCap | app/modules/equities/agents/portfolio_manager.py:127-136 | one pass of the inner loop: the cut weights, the excess and the uncapped total |
| Sizing.HandOn | app/modules/equities/agents/portfolio_manager.py:139-142 | the top-up loop |
| Sizing.Redistribute | app/modules/equities/agents/portfolio_manager.py:126-143 | the ten-round loop with its early exit |
| Sizing.FillWeights | app/modules/equities/agents/portfolio_manager.py:125 | filling the dictionary of weights: a repeated symbol overwrites its entry in place |
| Sizing.DistinctTargets | app/modules/equities/agents/portfolio_manager.py:125-154 | without repeated symbols the dictionary is aligned with the selection |
| Sizing.SizePositions | app/modules/equities/agents/portfolio_manager.py:93-154 | every selected name gets the target of its symbol and nothing else changes; without repeated symbols that is the target of its conviction |
| Selection.SelectedExactly | app/modules/equities/agents/portfolio_manager.py:63-91 | a score is selected if and only if it ranks in the top N, or inside max_holdings, held and above the exit threshold; the final slice is a no-op |
| Selection.SelectedByRank | app/modules/equities/agents/portfolio_manager.py:76-91 | on the scores themselves: selected are exactly those at or above the minimum whose rank by conviction, ties in the order listed, is within the target, or within the maximum if held and at or above the exit threshold |
| Selection.LeftOutIsOutranked | app/modules/equities/agents/portfolio_manager.py:78-91 | an eligible score that is left out is outranked by a full target of selected ones; a selected newcomer has fewer than that many eligible scores of higher conviction |
| Selection.SelectedInOrder | app/modules/equities/agents/portfolio_manager.py:79-91 | the selection comes in descending conviction |
| Sorting.SortPlaces | app/modules/equities/agents/portfolio_manager.py:79 | the stable sort puts every element after all smaller ones and after the ties that come before it |
| Rebalancing.EnumerationIrrelevant | app/modules/equities/agents/portfolio_manager.py:193-198 | orders and skips do not depend on the iteration order of the symbol set |
| Rebalancing.GeneratedExactly | app/modules/equities/agents/portfolio_manager.py:198-263 | the list holds exactly the decided orders, at most one per symbol, sells before buys, alphabetical within a side |
| Rebalancing.ExitsInFull | app/modules/equities/agents/portfolio_manager.py:203-218 | a held name with target zero gives exactly one order, to sell all of it, or exactly one stuck-exit skip |
| Rebalancing.EntriesInFull | app/modules/equities/agents/portfolio_manager.py:219-259 | a name with no weight and a target below min_entry_weight gives no order and, if the target is positive, exactly that skip; from the threshold on exactly the order for the shares its target is worth, or the unpriced skip |
| Rebalancing.AdjustmentsInFull | app/modules/equities/agents/portfolio_manager.py:219-259 | a held name within min_rebalance_threshold gives nothing; beyond it exactly one order towards the target with its reason, or the unpriced skip |
| Rebalancing.SellsComeFirst | app/modules/equities/agents/portfolio_manager.py:260-262 | sells come before buys and each side is alphabetical |
| Rebalancing.SkipsAlphabetical | app/modules/equities/agents/portfolio_manager.py:197-258 | skips are reported in alphabetical order |
| Rebalancing.LastTargetCounts | app/modules/equities/agents/portfolio_manager.py:192 | of a symbol listed more than once the last target counts |
| Sorting.LexDecided | app/modules/equities/agents/portfolio_manager.py:197 | the alphabetical order is decided by the first difference, a prefix first |
| Rebalancing.NoSilentExit | app/modules/equities/agents/portfolio_manager.py:203-218 | a held name with target zero is sold in full or reported as a stuck exit |
| Rebalancing.NetIsDecided | app/modules/equities/agents/portfolio_manager.py:198-263 | the net shares traded per symbol by the whole list |
| Sorting.EnumerateSet | app/modules/equities/agents/portfolio_manager.py:193-197 | iterating the set yields each symbol once, in an arbitrary order |
| Rebalancing.TracksTarget | app/modules/equities/agents/portfolio_manager.py:219-259 | a priced symbol that is traded ends within half a share-grid unit of its target value; one left alone is off by less than its threshold |
| Rounding.RoundHalfEvenExactly | app/modules/equities/agents/portfolio_manager.py:243 | rounding gives the nearest whole number, of two equally near ones the even one |
| Rebalancing.ExecutedWithinTargets | app/modules/equities/agents/portfolio_manager.py:198-263 | executing all orders invests at most nav * (targets + threshold per untraded held name) + 0.00005 * prices + what is carried in unpriced names, stuck exits included |
| Rebalancing.CashBufferSurvives | app/modules/equities/agents/portfolio_manager.py:99-106 | sizing and orders together leave at least the cash buffer, less the threshold, rounding and unpriced allowances |
| RebalanceRun.OrderExecutes | app/modules/equities/agents/portfolio_manager.py:260-262 | one generated order through order execution at any fill price and commission: unless the broker refuses, a sell fills, and a buy exactly if what has been spent by then is covered; cash and holdings follow |
| RebalanceRun.RebalanceFillsExactly | app/modules/equities/agents/portfolio_manager.py:260-263 | the whole list, for any non-negative fill prices and commissions and from holdings on the share grid: all orders fill if and only if the broker refuses none and there is no buy or what is spent less the proceeds is within cash; then cash goes down by exactly that and every holding is as decided, on the grid again |
| RebalanceRun.HoldingStaysOnGrid | app/modules/equities/agents/portfolio_manager.py:203-243 | whatever is decided for a holding on the share grid, it stays a non-negative multiple of the grid |
| RebalanceRun.DecisionPricesFillExactly | app/modules/equities/agents/portfolio_manager.py:260-263 | at the decision prices all orders fill if and only if there is no buy or the invested value ends within nav; then cash is nav less the invested value |
| RebalanceRun.SlippedSpent | app/modules/trade_execution/adapters/paper.py:39-45 | fills within a fraction of the decision prices cost at most that fraction of the turnover more, plus one commission per order |
| RebalanceRun.BufferedRebalanceFills | app/modules/equities/agents/portfolio_manager.py:99-106 | a cash buffer that covers the allowances, the slippage on the turnover and one commission per order means that no order is rejected for lack of cash and cash is not overdrawn |
| Rebalancing.SellsWithinHolding | app/modules/equities/agents/portfolio_manager.py:243-251 | no sell exceeds the holding by more than rounding, and none exceeds a holding on the share grid |
| Rebalancing.VisitSymbol | app/modules/equities/agents/portfolio_manager.py:199-259 | the loop body appends exactly the decided order or skip |
| Rebalancing.GenerateOrdersWithSkips | app/modules/equities/agents/portfolio_manager.py:170-263 | the generator returns the decided orders, sorted, and the skips, for every order in which the symbol set may be iterated |
| AdaptiveWeights.RedistributeFits | app/modules/equities/adaptive_weights.py:78-93 | one slack-proportional pass between feasible bounds sums to one, breaches no bound and never divides by zero |
| AdaptiveWeights.ProjectionOnSimplex | app/modules/equities/adaptive_weights.py:107-125 | before rounding the projection sums to one inside its bounds in both branches, for all targets and previous weights, and fixes points already there |
| AdaptiveWeights.BoundsExactly | app/modules/equities/adaptive_weights.py:116-123 | the bounds in full, from floor, shift and previous weights, and when they are dropped |
| AdaptiveWeights.ProjectionExactly | app/modules/equities/adaptive_weights.py:74-125 | each target goes to the nearest point inside its bounds, and what the sum lacks or exceeds is spread in proportion to the room left above or below |
| AdaptiveWeights.JumpMeansBelowFloor | app/modules/equities/adaptive_weights.py:118-123 | from weights summing to one the jump needs a previous weight below the floor |
| AdaptiveWeights.RoundExactIsPatch | app/modules/equities/adaptive_weights.py:96-104 | the six-decimal repair is integer repair of millionths |
| AdaptiveWeights.RepairExactly | app/modules/equities/adaptive_weights.py:96-104 | the repaired weights sum to exactly one and only the largest rounded weight, of equal ones the first, may differ from its own rounding |
| AdaptiveWeights.RoundingResidual | app/modules/equities/adaptive_weights.py:99-100 | rounding a simplex point leaves a residual of at most one millionth and stays inside grid bounds |
| AdaptiveWeights.PatchFits | app/modules/equities/adaptive_weights.py:100-103 | the repaired weights sum to exactly one, stay above the floor and move by at most one millionth |
| AdaptiveWeights.UpdateKeepsStored | app/modules/equities/adaptive_weights.py:107-125 | one week from stored weights gives stored weights, each moved by at most max_shift + 1e-6, without the jump |
| AdaptiveWeights.WeeksKeepStored | app/modules/equities/adaptive_weights.py:153-177 | after any weeks from any start with any static prior, an adaptive week leaves stored weights and a fallback the prior; the next week jumps exactly if it is the first and the start makes it, or the last one fell back and the prior does |
| AdaptiveWeights.AnyUpdateIsStored | app/modules/equities/adaptive_weights.py:107-125 | one week from any previous weights gives stored weights, each moved by at most max_shift + 1.5e-6 unless the bounds are infeasible |
| AdaptiveWeights.DriftBounded | app/modules/equities/adaptive_weights.py:107-125 | k adaptive weeks move no weight by more than k * (max_shift + 1e-6) |
| AdaptiveWeights.AnchorKeepsStored | app/modules/equities/adaptive_weights.py:211-218 | stored weights always pass the sanity check on the recovered anchor |
| AdaptiveWeights.ComputeAdaptiveWeights | app/modules/equities/adaptive_weights.py:153-177 | the whole report: adaptive exactly when every analyst has enough valid weeks, then updated towards the tilted prior, otherwise the prior; means, valid weeks and alerts per analyst; it fails exactly when the tilted prior totals zero |
| AdaptiveWeights.ResolveAnalystWeights | app/modules/equities/adaptive_weights.py:211-223 | one run never fails: it updates the recovered weights, if all positive with a sum strictly between 0.99 and 1.01, else the prior, towards the tilted prior; when the policy cannot adapt it uses the prior |
| AdaptiveWeights.AdaptsExactly | app/modules/equities/adaptive_weights.py:169-174 | with a non-negative prior that is not all zero a week adapts exactly if every analyst has enough weeks with a value |
| AdaptiveWeights.RunsKeepStored | app/modules/equities/adaptive_weights.py:180-223 | for any start, static prior and IC histories the runs are the plain recursion over the weeks after one sanity check on the start; each stores six-decimal weights that sum to exactly one and respect the floor, or is the prior; when a run jumps, exactly |
| AdaptiveWeights.LastRunStored | app/modules/equities/adaptive_weights.py:180-223 | an adaptive run stores weights within max_shift + 1.5e-6 of its anchor unless the bounds are infeasible |
| AdaptiveWeights.RunsChain | app/modules/equities/adaptive_weights.py:211-218 | every run after the first is anchored on exactly what the previous one stored |
| AdaptiveWeights.MeansExist | app/modules/equities/config.py:88-89 | the validated minimum history guarantees a mean for every analyst |
| AdaptiveWeights.TiltIsSimplexPoint | app/modules/equities/adaptive_weights.py:67-71 | for every non-negative prior that is not all zero, targets are non-negative, positive exactly where the prior is, and sum to one; zero evidence reproduces the prior |
| AdaptiveWeights.TiltExactly | app/modules/equities/adaptive_weights.py:67-71 | the targets are the only weights that sum to one and are, for every pair of analysts, in the ratio of prior times exp(EWIC / tau) |
| AdaptiveWeights.WeekTilts | app/modules/equities/adaptive_weights.py:172-173 | the target of an adaptive week is the prior so tilted by the means of the history at the configured scale, and no other |
| AdaptiveWeights.TiltFollowsEvidence | app/modules/equities/adaptive_weights.py:67-71 | target-to-prior ratios of any two analysts with a positive prior are ordered exactly like the evidence, ties included |
| AdaptiveWeights.Ewma | app/modules/equities/adaptive_weights.py:54-64 | the loop computes the specified mean |
| AdaptiveWeights.MeanIsAMean | app/modules/equities/adaptive_weights.py:54-64 | the mean exists exactly when an entry is valid and lies between the extremes |
| AdaptiveWeights.OlderWeeksCountLess | app/modules/equities/adaptive_weights.py:56-64 | changing the value of a week k weeks older moves the mean lam ** k times as far |
| AdaptiveWeights.CountsValidWeeks | app/modules/equities/adaptive_weights.py:161 | the valid weeks are the weeks with a value |
| AdaptiveWeights.MissingWeekKeepsMean | app/modules/equities/adaptive_weights.py:54-64 | a fresh missing week decays all weights alike and leaves the mean unchanged |
| AdaptiveWeights.Streak | app/modules/equities/adaptive_weights.py:138-147 | the streak is the longest run of bad windows from the most recent one |
| AdaptiveWeights.StreakIsLongest | app/modules/equities/adaptive_weights.py:138-147 | the count of most recent bad windows is the longest unbroken run |
| AdaptiveWeights.AlertStreak | app/modules/equities/adaptive_weights.py:137-149 | one analyst's alert with its streak and mean, or none |
| AdaptiveWeights.AlertExactly | app/modules/equities/adaptive_weights.py:136-149 | an alert is raised exactly when the most recent windows up to the threshold all have enough values and a mean that is not positive; it gives the length of the unbroken run of such windows and the present mean |
| RankStats.GroupCounts | app/modules/equities/attribution.py:45-49 | a maximal run of equal values in sorted order determines how many values are smaller and equal |
| RankStats.EndOfRun | app/modules/equities/attribution.py:46-48 | the end of the maximal run of equal values |
| RankStats.FillRun | app/modules/equities/attribution.py:50-51 | the inner loop writes the average to every position of the run and to no earlier one |
| RankStats.RanksInOrder | app/modules/equities/attribution.py:43-53 | the tie-grouping loop gives number smaller + (number equal + 1) / 2, for every order the sort may leave ties in |
| RankStats.ComputeRanks | app/modules/equities/attribution.py:40-53 | ranking from the values |
| RankStats.RanksAddUp | app/modules/equities/attribution.py:40-53 | the ranks of n values add up to n (n + 1) / 2 whatever the ties |
| RankStats.RanksFollowValues | app/modules/equities/attribution.py:40-53 | ranks are ordered exactly like the values |
| RankStats.ComputeSpearman | app/modules/equities/attribution.py:56-67 | the coefficient from covariance and variances of the ranks, or none |
| RankStats.Cauchy | app/modules/equities/attribution.py:62-64 | the Cauchy-Schwarz inequality for the sums of products |
| RankStats.SpearmanBounded | app/modules/equities/attribution.py:56-67 | the squared covariance never exceeds the product of the variances, which are positive |
| RankStats.SpearmanNoneExactly | app/modules/equities/attribution.py:58-66 | no result exactly for unequal lengths, fewer than two pairs or a constant input |
| RankStats.SpearmanInvariant | app/modules/equities/attribution.py:56-67 | strictly increasing maps of either input change nothing |
| RankStats.SpearmanReversed | app/modules/equities/attribution.py:56-67 | a strictly decreasing map negates the result |
| RankStats.SpearmanPerfect | app/modules/equities/attribution.py:56-67 | a non-constant input correlates perfectly with its increasing images |
| RankStats.RhoBounded | app/modules/equities/attribution.py:56-67 | the coefficient lies between minus one and one |
| RankStats.RhoSquared | app/modules/equities/attribution.py:62-67 | with or without ties the square of the coefficient times both variances is the square of the covariance, and it has the sign of the covariance |
| RankStats.CovarianceFromRanks | app/modules/equities/attribution.py:60-64 | twice the covariance is the sum of the variances less the sum of the squared rank differences |
| RankStats.RhoPerfect | app/modules/equities/attribution.py:56-67 | it is one between a non-constant input and its increasing images |
| RankStats.RhoReversed | app/modules/equities/attribution.py:56-67 | reversing an input negates it |
| Ranker.DecileRange | app/modules/equities/agents/ranker.py:24-28 | deciles lie in 1 .. 10, best 10 and worst 1 |
| Ranker.DecileExactly | app/modules/equities/agents/ranker.py:24-28 | the decile is one plus nine times the distance from the end in whole n - 1ths |
| Ranker.GroupScoreBetween | app/modules/equities/agents/ranker.py:74-76 | a group's score lies between the deciles of its ends, so the clamp is a no-op |
| Ranker.GroupScoreRounds | app/modules/equities/agents/ranker.py:74-75 | the group score is the mean decile rounded to the nearest whole number, halves upwards |
| Ranker.GroupIsNewScore | app/modules/equities/agents/ranker.py:70-79 | a tie group's score depends only on how many scores are better and equal |
| Ranker.ScoreGroup | app/modules/equities/agents/ranker.py:77-78 | every symbol of a tie group gets the group's score |
| Ranker.NewScoreMonotone | app/modules/equities/agents/ranker.py:60-81 | new scores stay in 1 .. 10 and never invert a stage-1 order; equal scores stay equal |
| Ranker.ExtremesSpread | app/modules/equities/agents/ranker.py:60-81 | a lone best name gets 10 and a lone worst name 1 |
| Ranker.ScoreGroups | app/modules/equities/agents/ranker.py:66-79 | the loop over tie groups, for every arrangement of the ties; a repeated symbol keeps the score of its last group |
| Ranker.Rank | app/modules/equities/agents/ranker.py:60-81 | order and symbols are preserved and each score becomes the one defined by counting, that of the lowest score of a repeated symbol; small universes pass through |
| Ranker.ApplyRanking | app/modules/equities/agents/ranker.py:31-46 | ranked symbols get the decile of their last position in the list, others keep their score |
| RateLimiter.Limiter.Acquire | app/modules/data_platform/rate_limiter.py:20-35 | one call: the new buckets, the time slept, other sources untouched |
| RateLimiter.TokensInRange | app/modules/data_platform/rate_limiter.py:24-35 | tokens stay in [0, rate] over every run |
| RateLimiter.WaitsFit | app/modules/data_platform/rate_limiter.py:21-32 | requested sleeps fit into the elapsed time because the lock is held while sleeping |
| RateLimiter.CallPays | app/modules/data_platform/rate_limiter.py:22-35 | each grant is paid for by a token, the refill and the sleep |
| RateLimiter.RunAccounted | app/modules/data_platform/rate_limiter.py:20-35 | the running account of a source over every timed run |
| RateLimiter.GrantsPaid | app/modules/data_platform/rate_limiter.py:20-35 | at most rate + rate * T grants plus rate times the time the source waited |
| RateLimiter.RateHeldWithoutWaits | app/modules/data_platform/rate_limiter.py:30-35 | a source whose calls never wait stays within rate + rate * T |
| RateLimiter.GrantsBounded | app/modules/data_platform/rate_limiter.py:20-35 | at most rate + 2 * rate * T grants per source in time T |
| RateLimiter.SlowGrantsBounded | app/modules/data_platform/rate_limiter.py:24-33 | for rates below one at most rate * T / (1 - rate) grants, because every call waits |
| RateLimiter.BackToBackStands | app/modules/data_platform/rate_limiter.py:20-35 | calls without a pause: when the n-th returns and what the next one finds |
| RateLimiter.BoundIsReached | app/modules/data_platform/rate_limiter.py:30-33 | for every rate of at least one half and every n a run that reaches the bound, to the whole grant, at time n / rate |
| RateLimiter.SlowBoundIsReached | app/modules/data_platform/rate_limiter.py:30-33 | for every rate up to one half a run that meets the bound of slow rates after every call |
| RateLimiter.RateIsExceeded | app/modules/data_platform/rate_limiter.py:30-33 | for every positive rate a timed run with more than rate + rate * T grants |

## Left out

- Ledger.PortfolioService.UpdatePosition: position rows are values in a dictionary, so a row object shared between callers and updated in place is not modelled.
- Execution.CashNeverOverdrawn: excludes COVER, because the gate covers BUY only, and assumes a SELL or SHORT brings in at least its commission.
- Execution.LongRunsNeverRaise: buys of negative quantity are outside it, since they can make a leg negative.
- Replay.ReplayRefinesDatedTrades: stored quantities are positive multiples of 1e-8, trading days are distinct and New York dates never run backwards; the nav and close results allow any log and any days.
- WeeklyRunner.Runner.Execute: a commit either happened or raised; a connection lost after the commit but before its answer is not modelled.
- WeeklyRunner.FlipIsSafeExactly: assumes the next run id is free; branches whose names imitate another branch's attempt suffix (`WeeklyRunner.RunIdsAgreeExactly`) can only block each other.
- Sizing.WeightsBounded: convictions are non-negative, as products of scores and confidences are.
- RebalanceRun.RebalanceFillsExactly: holdings start on the four-decimal share grid (every rebalance keeps them there); partial fills do not occur in either broker.
- AdaptiveWeights.RunsKeepStored: floor and shift are multiples of 1e-6.
- Floating-point rounding and database column rounding, except for the grids named above.
- Portfolio creation, `adjust_cash`, snapshots, gross and net exposure, fund summaries: single-step updates and read-only sums.
- Event log entries, timestamps, UUIDs, order types, limit prices, how the brokers arrive at a fill price, and rejection texts.
- Composite scores, screening filters, analysts, prompts, LLM and market-data clients, the LLM ranker: external I/O.
- The backtest engine, digest, risk checks, API routes, CLI and database repositories other than the rules stated above.
