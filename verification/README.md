# ARES trading core: a verified model

This project models the stateful heart of the ARES trading system in Dafny and proves what its operations keep over
whole runs. It covers four parts.

- **Durable paper ledger.** `PaperModel` gives each engine operation as a function on portfolios; `PaperEngine` is the
  mutable engine, proved against those functions; `PaperTotals`, `PaperAccounting` and `Drawdown` prove what every
  run keeps, `PaperExecution` what a fill, a close and a candle do. `PaperRepository` and `PaperLedger` are the database
  protocol, `PaperWrites` and `PaperOrders` what a write means end to end, `PaperRoundTrip`, `PaperDrift` and
  `PaperReload` what a write and a reload preserve, `PaperConcurrency` any number of processes and concurrent requests
  under the two locks.
- **Kill switch and live orders.** `KillSwitchProtocol` is the distributed protocol, one step per store access, each
  of which may fail, or fail after taking effect; `KillSwitchRearm` proves what an arm restores and `KillSwitchOrders`
  that one check yields one order; `KillSwitch` and `LiveEngine` are the classes whose methods walk through it, with
  everyone else free to act between any two of their accesses.
- **Backtest engine.** `Backtest` is the simulation loop; `BacktestLaws`, `BacktestTrades` and `BacktestGrowth` prove no
  look-ahead, self-financing, that every reached level is taken and every trade explained, and compounding.
- **Admission and fallback.** `Windows` and `Clocks` serve `AnalysisGate`, `AnalysisStates`, `ModelQueue`,
  `TokenBucket`, `LoginModel`, `LoginLimiter`; `CircuitBreaker`, `Retry` and `Router` form the fallback chain.

Verify everything with `dafny verify dfyconfig.toml`.

## Conventions

Floats are `real`. Money goes through the two roundings the code applies: Python's `round`, ties to even, and the
NUMERIC(20, 8) columns of the schema. Time is a real number of seconds; uuids are naturals, and position ids and epoch
tokens are assumed never to be reused. Each modelled call reads the wall clock at most once where the source's repeated
readings could only differ by microseconds (an entry and its fill, the exits of one candle). Monotonic clocks do not go
back, and a sleep does not end early. A database commit is atomic; the session that holds the advisory lock is assumed
to stay alive while its holder works.

An imperative class in the source is a Dafny class with the same fields; every method states its complete effect, most
often by equating the new state with a specification function of the old one, and the laws are proved about those
functions and about sequences of operations. Exceptions are results (`Refused`, `Rejected`, `Blocked`, `None`).

## Where the code and its documentation disagree

The model follows the code.

- The circuit breaker's half-open state is documented as admitting one probe; it admits any number of requests until
  an outcome arrives (`CircuitBreaker.HalfOpenAdmitsAll`), and its closed state stays below the threshold exactly for
  thresholds of at least one (`CircuitBreaker.ClosedBelowThreshold`).
- The request queue is documented as refusing beyond `max_queued`; its test admits one request more.
- A restored ledger is equal up to column rounding only, and a reload can add an equity-curve point that was not there:
  a new account of ten million that buys 0.333333333333 at ten million comes back three cents short
  (`PaperReload.ReloadMayAddPoint`). A reload returns the curve point for point if and only if its last point is close
  to the equity computed from the stored numbers (`PaperReload.ReloadedCurveIff`, `PaperReload.WriteReloads`), which is
  so for every fill after which no mark vanishes in its column and quantity plus mark plus two, summed over the open
  positions, is at most a million (`PaperReload.SmallFillKeepsCurve`).
- The bucket cap of the login limiter is exceeded, by one bucket, exactly when the cap is not positive
  (`LoginLimiter.CapHoldsIffPositive`).
- `recent(0)` of the order audit log returns the whole log, not nothing.
- Taking an engine snapshot back is exact precisely when the curve ends at the current equity
  (`PaperEngine.SnapshotRoundTrip`); the ledger only ever takes snapshots where it does (`PaperLedger.RollbackIsExact`).
- The running-peak drawdown need not be the worst fall between two points once a curve goes negative, as every fully
  invested short does that gains and is then squeezed past twice its entry price
  (`PaperAccounting.SqueezeBreaksPairs`); it is, if and only if no negative point lies further below the least positive
  point before it (`Drawdown.WorstPairIffNegativesWithin`).
- A corrective call of the router is made without consulting the breaker and reports no outcome to it, and a corrected
  result carries the original, invalid payload beside the corrected parse (`Router.ModelRouter.CallModel`).

## Model

| member | source | states |
|---|---|---|
| Rounding.ColumnTwice | database/init.sql:64-99 | a value that came out of a NUMERIC(20, 8) column fits the column exactly |
| Rounding.ColumnKeepsRounded | database/init.sql:64-99 | cents and basis points survive the columns exactly |
| PaperEngine.PaperTradingEngine.constructor | paper_trading/engine.py:148-160 | a new portfolio is all cash, at least the minimum capital, with a one-point curve |
| PaperEngine.PaperTradingEngine.ComputeEquity | paper_trading/engine.py:679-695 | the loop computes cash less all accrued carry plus signed market values at the latest marks |
| PaperEngine.PaperTradingEngine.MarginUsed | paper_trading/engine.py:250-250 | reserved margin is the sum over open positions |
| PaperEngine.PaperTradingEngine.ComputeMaxDrawdown | paper_trading/engine.py:697-712 | the scan equals the shared drawdown function of the curve |
| PaperEngine.PaperTradingEngine.FindPosition | paper_trading/engine.py:611-616 | the first open position in a symbol, or none |
| PaperEngine.PaperTradingEngine.AccruePosition | paper_trading/engine.py:667-677 | one position is charged up to the given time, never twice for the same or an older time; the charge is returned |
| PaperEngine.PaperTradingEngine.AccrueCarry | paper_trading/engine.py:478-488 | every open position is accrued and the returned total is what their carry grew by |
| PaperEngine.PaperTradingEngine.ClosePosition | paper_trading/engine.py:308-391 | complete effect of a close on cash, positions, trades, marks and curve, or of a refused one |
| PaperEngine.PaperTradingEngine.RestoreReversalState | paper_trading/engine.py:296-306 | puts cash, positions, marks and the lengths of both logs back |
| PaperEngine.PaperTradingEngine.ExecuteSignal | paper_trading/engine.py:191-294 | complete effect of a signal; any refusal, even after a provisional reversal close, leaves cash, positions with their carry, trades, curve and marks as they were |
| PaperEngine.PaperTradingEngine.Affordable | paper_trading/engine.py:246-253 | the quantity free cash and free margin can pay for, commission included |
| PaperEngine.PaperTradingEngine.OpenPosition | paper_trading/engine.py:260-287 | a fill changes cash by its entry flow, marks its symbol and adds one curve point |
| PaperExecution.FillIsAsAsked | paper_trading/engine.py:213-287 | the accepted position is on the side asked for, as large as asked for or else uses the whole budget, costs its slippage against the trader at the rate of its upper-case symbol or the global one, and is charged its commission and margin |
| PaperExecution.FilledIff | paper_trading/engine.py:191-260 | a request is filled if and only if its side, quantity and price make sense, no position of that side is open in its symbol, and something is left to spend once an opposite one is closed |
| PaperExecution.CloseSucceeds | paper_trading/engine.py:335-391 | a close at a positive price always succeeds; its trade has the position's identity, an exit price slipped against the trader, the exit commission, the rounded profit and its percentage |
| PaperExecution.CarryIsPerYear | paper_trading/engine.py:650-677 | a year of the borrow rate of a short or the funding rate of a long costs that share of the entry notional |
| PaperExecution.RatesIgnoreCase | paper_trading/engine.py:632-655 | overrides are found whatever the case a symbol is written in |
| PaperAccounting.ExitIsAdverseFirst | paper_trading/engine.py:428-452 | a candle exits a position if and only if it reaches a level, by the target only when the stop was not reached; a stop fills no better than its level or a known open, and within the candle when the open is; a target fills at its level |
| PaperEngine.PaperTradingEngine.CheckSlTp | paper_trading/engine.py:393-459 | exits of a candle, stop before target, gap fills for stops only, in list order over the positions open at the start |
| PaperExecution.CandleTakesLevels | paper_trading/engine.py:393-459 | a position leaves if and only if the candle is of its symbol and reaches one of its levels at a positive price; each that leaves has exactly one trade at that level, stop first; every other stays as it was |
| PaperEngine.PaperTradingEngine.MarkToMarket | paper_trading/engine.py:461-476 | accrues everything, marks one symbol, adds a curve point only for an open symbol |
| PaperExecution.MarkMovesEquity | paper_trading/engine.py:461-476 | equity moves by quantity times the change of the mark, the other way for a short, less the carry charged; the curve ends at it |
| PaperEngine.PaperTradingEngine.RestoreState | paper_trading/engine.py:566-597 | replaces the whole state; a curve point is added only when the last is not close to current equity |
| PaperEngine.PaperTradingEngine.RestoreSnapshot | paper_trading/engine.py:556-564 | restores every field but the initial capital |
| PaperEngine.PaperTradingEngine.GetSummary | paper_trading/engine.py:490-524 | every reported figure, counted and summed by loops, with its rounding |
| PaperEngine.SummaryAddsUp | paper_trading/engine.py:490-524 | reported equity is initial capital plus total profit to the cent; return and win rate are the percentages they name, wins the trades with a profit |
| PaperEngine.CloseOnlyAppends | paper_trading/engine.py:383-387 | a close never rewrites recorded trades or curve points, which is what makes truncation a rollback |
| PaperEngine.SnapshotRoundTrip | paper_trading/engine.py:546-597 | restoring a portfolio's own snapshot is the identity if and only if its curve ends at the current equity |
| PaperAccounting.EquityIdentity | paper_trading/engine.py:679-695 | equity equals initial capital plus realised profit plus open profit plus unexplained cash, for any portfolio |
| PaperAccounting.CloseConserves | paper_trading/engine.py:335-387 | a close, accepted or not, leaves no cash unexplained |
| PaperAccounting.ExecuteConserves | paper_trading/engine.py:239-287 | nor does a fill, with or without a reversal |
| PaperAccounting.RunConserves | paper_trading/engine.py:239-287 | nor does any sequence of operations |
| PaperAccounting.EquityIsExplained | paper_trading/engine.py:679-695 | from a fresh engine, after any operations, equity is initial capital plus unrounded closed profits plus open profits net of entry commission and carry |
| PaperAccounting.RunKeepsShape | paper_trading/engine.py:206-211 | over every run open symbols and ids stay distinct and marks exist for exactly the open symbols |
| PaperAccounting.FillIsCovered | paper_trading/engine.py:246-287 | after an accepted fill margin is at most equity, quantity at most what was asked, a long leaves no negative cash, and equity fell by the entry commission only |
| PaperAccounting.CarryIsPathIndependent | paper_trading/engine.py:478-488 | over any operations with repeated or out-of-order times, a position's carry depends on the latest accepted time only |
| PaperAccounting.OpenCarryIsExact | paper_trading/engine.py:667-677 | from a fresh engine, after any operations, every open position owes exactly the charge from its entry to its latest accrual |
| PaperAccounting.CarrySettledOnce | paper_trading/engine.py:335-362 | a close charges carry to its exit time and moves cash by the trade's profit less the entry flow; the position is gone |
| Drawdown.MaxDrawdownIsDeepestFall | paper_trading/engine.py:697-712 | the scan is the maximum over points of the fall from the peak so far |
| Drawdown.MaxDrawdownIsWorstPair | paper_trading/engine.py:697-712 | on non-negative curves starting positive it is the maximum over all pairs of points, within 0 and 100 |
| Drawdown.WorstPairIffNegativesWithin | paper_trading/engine.py:697-712 | on any curve starting positive the scan is the fall between two of its points, and the worst one if and only if no negative point lies further below the least positive point before it |
| PaperAccounting.SqueezeBreaksPairs | paper_trading/engine.py:697-712 | runs whose own curve it is not the worst of: all capital short, one mark below the entry, then one above twice the entry |
| Drawdown.MaxDrawdownGrows | paper_trading/engine.py:697-712 | appending points never lowers the drawdown |
| PaperRepository.PaperLedgerRepository.ClientOrderIdExists | paper_trading/repository.py:120-143 | true exactly when some order carries the id |
| PaperRepository.PaperLedgerRepository.ReadRows | paper_trading/repository.py:238-261 | one position per row in order, with the fallback for a zero mark |
| PaperRepository.PaperLedgerRepository.Hydrate | paper_trading/repository.py:147-184 | the engine becomes the portfolio the database describes; without an account it stays untouched |
| PaperRepository.PaperLedgerRepository.Persist | paper_trading/repository.py:311-385 | one transaction: the whole new database, or on conflict, missing account or fault the old one |
| PaperLedger.RollbackIsExact | paper_trading/ledger.py:117-150 | rolling back to a freshly loaded portfolio restores it exactly |
| PaperLedger.PaperTradingLedger.ExecuteSignal | paper_trading/ledger.py:102-153 | a fill run alone either commits its write or leaves the database as it was and the engine at the durable state; without a seeded account it never commits and the engine is back at its own snapshot |
| PaperLedger.PaperTradingLedger.ProcessCandle | paper_trading/ledger.py:183-211 | likewise for a candle |
| PaperWrites.FillOutcome | paper_trading/ledger.py:102-153 | alone, a fill commits if and only if it makes sense and its client order id is on no order; otherwise it is a duplicate or a refusal, in the order of the checks |
| PaperWrites.FillIsTaken | paper_trading/ledger.py:119-135 | a committed fill opened the position asked for, closed an opposite one in its symbol with one trade at the request's price, and left every other |
| PaperWrites.CandleCommits | paper_trading/ledger.py:183-211 | alone on a seeded account a candle always commits |
| PaperWrites.CandleIsTaken | paper_trading/ledger.py:183-211 | a candle takes every level it reaches, then charges carry to what is left and marks its symbol at the close |
| PaperWrites.CloseKeepsCarry | paper_trading/engine.py:335-387 | a close moves the carry owed from the position to the trade: the total charged grows by its last accrual only |
| PaperOrders.WriteRecordsOrders | paper_trading/repository.py:338-385 | a committed write appends exactly the orders of what it did: a fill one entry for its position, with its client order id, which no order had before, and every closed trade one exit |
| PaperRoundTrip.CommittedRows | paper_trading/repository.py:338-378 | after a commit the open rows are the engine's open positions by id, no more and no fewer |
| PaperRoundTrip.CommittedClosures | paper_trading/repository.py:460-512 | every row a commit closed shows its trade's exit price, carry and time, and is otherwise as it was |
| PaperRoundTrip.RoundTrip | paper_trading/repository.py:147-184 | loading a committed portfolio returns its positions, marks, trades, curve and cash up to column rounding, trade order and the dropped position id |
| PaperRoundTrip.PositionsInOrder | paper_trading/repository.py:228-228 | positions load by opening time, those of one moment by id |
| PaperRoundTrip.TradesInOrder | paper_trading/repository.py:276-276 | trades load by exit time, those of one moment as recorded |
| PaperRoundTrip.LoadedTracks | paper_trading/repository.py:212-261 | a loaded portfolio agrees with the rows it came from |
| PaperRoundTrip.MutateTracks | paper_trading/ledger.py:114-142 | so does the portfolio every ledger operation makes of it |
| PaperRoundTrip.WriteKeepsDb | paper_trading/repository.py:488-512 | a committed write keeps one open row per symbol, the invariant the fallback close relies on |
| PaperDrift.MutateFlows | paper_trading/ledger.py:119-135 | engine cash moves by exactly the flows of the recorded fill and closures |
| PaperDrift.WriteDrifts | paper_trading/repository.py:602-643 | one committed write moves stored cash by its flows, give or take half a cent |
| PaperDrift.WriteKeepsClientIds | paper_trading/repository.py:380-385 | a committed write never puts a client order id on a second order; that a fill's id is put on one is `PaperOrders.WriteRecordsOrders` |
| PaperReload.ReloadedEquityIs | paper_trading/repository.py:238-261 | the equity after a commit and a load is exactly cash in cents plus the position values of the stored numbers |
| PaperReload.ReloadDrift | paper_trading/repository.py:238-261 | that is within half a cent, and half a column digit per unit of quantity and price stored, of the equity written |
| PaperReload.ReloadedCurveIff | paper_trading/engine.py:588-597 | a load returns the committed curve point for point if and only if its last point is close to that equity, and otherwise adds that equity |
| PaperReload.WriteReloads | paper_trading/ledger.py:102-153 | both hold for every committed ledger write; after a fill the point compared is the equity of the moment |
| PaperReload.SmallFillKeepsCurve | paper_trading/engine.py:588-597 | so a fill adds no point when every mark survives its column and quantity plus mark plus two, summed over the open positions, is at most a million |
| PaperReload.WriteKeepsQuantities | paper_trading/repository.py:387-458 | every committed write keeps stored quantities non-negative |
| PaperReload.RewriteIsIdle | paper_trading/repository.py:311-379 | writing back what was loaded from settled rows changes no row, trade, order or amount, and loads as the same portfolio |
| PaperReload.WriteSettles | paper_trading/repository.py:311-379 | every ledger write whose marks their column does not lose leaves such rows, so a second write and load change nothing more |
| PaperReload.ReloadMayAddPoint | paper_trading/engine.py:593-597 | a fill the engine accepts on a new account, whose commit loads with one point more |
| PaperConcurrency.CommitIsOneWrite | paper_trading/ledger.py:89-100 | what is committed is the write applied alone to the database of that moment |
| PaperConcurrency.RunIsSerial | paper_trading/ledger.py:89-153 | in every interleaving of any processes the database is the committed writes applied one at a time in commit order: none is lost |
| PaperConcurrency.WritersExclude | paper_trading/repository.py:100-118 | two holders of the writer lock are one |
| PaperConcurrency.FailureLeavesNoTrace | paper_trading/ledger.py:136-151 | a timeout, refusal or failed persist leaves the database as it was and the engine at the durable state |
| PaperConcurrency.LostAnswerIsCommitted | paper_trading/ledger.py:136-151 | a commit whose answer is lost is in the database and the log; only the cache goes back to what was durable before it |
| PaperConcurrency.UndisturbedWriteCommits | paper_trading/ledger.py:71-153 | with both locks free, the steps of a write that would commit alone lead to its result and leave both locks free |
| PaperConcurrency.RunStaysSound | paper_trading/repository.py:602-643 | over every run: one open row per symbol, unique client order ids, no negative quantity, stored cash within half a cent per write of the recorded flows |
| PaperConcurrency.NoIdCommitsTwice | paper_trading/ledger.py:108-116 | in every interleaving each client order id commits at most one fill, and never one that was used before the run; it stays on an order |
| KillSwitchProtocol.RunKeepsDates | live_trading/safety.py:187-231 | a token a process has not seen was published after its last read, in every reachable state |
| KillSwitchProtocol.EveryFailureLatches | live_trading/safety.py:136-185 | whatever access fails, even after taking effect, latches its process, which then passes no check and reports no activation or arm |
| KillSwitchProtocol.LatchLiftsOnLaterArm | live_trading/safety.py:206-231 | on an answering store the latch lifts if and only if an arm committed after the last token read |
| KillSwitchProtocol.LatchNeedsArm | live_trading/safety.py:129-134 | no step whatsoever lifts a latch without an arm later than the last token read, or, when none was ever read, without the process's own arm |
| KillSwitchProtocol.LatchHolds | live_trading/safety.py:241-258 | without one a latched process stays latched and passes no check, whatever outages, lost keys and republished baselines |
| KillSwitchProtocol.UnreadLatchHolds | live_trading/safety.py:206-258 | a process latched before it ever read a token, however many arms came earlier, stays latched and passes no check while no arm commits, and any token it reads meanwhile is dated so that only a later arm lifts the latch |
| KillSwitchProtocol.RunHoldsTrips | live_trading/safety.py:287-396 | in every reachable state a clear flag, a passed check or an order means an arm or a loss of the flag since each earlier trip |
| KillSwitchProtocol.OrdersFollowArms | live_trading/safety.py:400-419 | between a trip and an order whose call began later lies an arm, or a loss of the flag |
| KillSwitchProtocol.PassedChecksFollowArms | live_trading/safety.py:400-419 | the same for every passed check in every process |
| KillSwitchProtocol.ReportedTripHappened | live_trading/safety.py:287-360 | an activation that returned true, or an automatic trip on an answering store, did set the flag during its call |
| KillSwitchProtocol.ReportedTripHolds | live_trading/safety.py:287-419 | a reported trip has a moment during its call when the flag was set; whatever happens next, every passed check and every order whose call begins after the report follows an arm or a loss of the flag later than that moment |
| KillSwitchProtocol.ArmStays | live_trading/safety.py:378-392 | an arm token is replaced only by a later arm while its key is not lost |
| KillSwitchProtocol.ArmClearsNextCheck | live_trading/safety.py:206-231 | after an arm a latched process that had read a token clears at its next check on an answering store |
| KillSwitchProtocol.FirstTokenIsAdopted | live_trading/safety.py:217-219 | a latched process that had never read a token adopts the first one it reads and stays latched |
| KillSwitchProtocol.NextArmClearsNewcomer | live_trading/safety.py:206-231 | it clears at its next check after any arm that commits later |
| KillSwitchRearm.FlagIsExact | live_trading/safety.py:287-396 | in every reachable state the flag is set if and only if some trip has been followed by no arm or loss |
| KillSwitchRearm.ArmTakesEffect | live_trading/safety.py:378-392 | one transaction clears the flag and publishes the token |
| KillSwitchRearm.BaselineIsStored | live_trading/safety.py:187-204 | a process goes on to the flag remembering the token in the store, which it published if there was none; only a re-read may find none |
| KillSwitchRearm.NextCheckPasses | live_trading/safety.py:206-258 | with the flag clear and no trip, outage or lost token since, a check of an unlatched process, or of one latched before the stored arm, is never refused and passes within five accesses |
| KillSwitchRearm.ArmRestores | live_trading/safety.py:362-419 | so after an arm the next check passes of every process that was idle and not latched, or latched after having read a token |
| KillSwitchRearm.StaleLatchIsRefused | live_trading/safety.py:206-231 | and a process whose latch is not older than the stored arm is refused at its first access |
| KillSwitchOrders.RunOrdersOnce | live_trading/engine.py:387-421 | in every run no two orders come from one call |
| KillSwitchOrders.RunReportsHonestly | live_trading/safety.py:287-322 | in every run an activation that reports itself visible comes from an unlatched process |
| KillSwitchOrders.TripTakesEffect | live_trading/safety.py:287-322 | a trip that reaches the store sets the flag, and on an answering store goes on to report itself visible |
| KillSwitch.Switch.MaybeClearLatch | live_trading/safety.py:206-231 | follows the protocol's step for the latch and baseline fields, under any interference |
| KillSwitch.Switch.ObserveArmEpoch | live_trading/safety.py:187-204 | likewise for reading, publishing and re-reading the baseline; unless latched it remembers the stored token, if there is one |
| KillSwitch.Switch.IsActive | live_trading/safety.py:241-258 | inactive only when the flag was read clear by an unlatched process |
| KillSwitch.Switch.Check | live_trading/safety.py:400-419 | a passed check leaves the protocol in its passed state |
| KillSwitch.Switch.Activate | live_trading/safety.py:287-322 | returns true exactly when the process ends unlatched, in the protocol's visible state, and then the flag was set after the call began |
| KillSwitch.Switch.AutoTrigger | live_trading/safety.py:324-360 | trips exactly at or above the threshold, and then the flag was set after the call began unless the store failed and latched the process |
| KillSwitch.Switch.Rearm | live_trading/safety.py:362-396 | true exactly when the process ends unlatched, and then the flag is clear and the stored token is that of an arm during the call |
| KillSwitch.SharedStore.Perform | live_trading/safety.py:136-185 | one store access: any number of other steps first, any outcome, one recorded protocol step |
| LiveEngine.OrderAuditor.Record | live_trading/audit.py:60-67 | the retained log is the last max_entries of everything recorded |
| LiveEngine.OrderAuditor.Recent | live_trading/audit.py:69-71 | the newest entries for a positive limit, everything for zero, all but the oldest for a negative one |
| LiveEngine.FirstFailure | live_trading/engine.py:302-321 | blocks exactly when some check failed, with the first failure's code |
| LiveEngine.WithoutMode | live_trading/engine.py:406-409 | an approval excuses a failed mode check and nothing else |
| LiveEngine.Refusal | live_trading/engine.py:302-411 | the code of the first failed check, an approved mode check aside, or none |
| LiveEngine.LiveTradingEngine.CheckPreTrade | live_trading/engine.py:255-293 | four verdicts in order, each computed whatever the others say: the kill switch's as the protocol reached it in this call, the promotion gate's by trades, days, drawdown and profit |
| LiveEngine.LiveTradingEngine.Proceed | live_trading/engine.py:387-460 | from the checks to the result, the order and the audit entry |
| LiveEngine.LiveTradingEngine.ExecuteSignal | live_trading/engine.py:359-460 | the result follows from the gates in both directions: paper-only, approval, the first failed gate, or an order; an order goes out exactly once per call, with an approval or the mode allowing it at that moment, and exactly one audit entry is kept; the order is this call's own, so every trip on record when it began was followed by an arm or a loss of the flag |
| LiveEngine.LiveTradingEngine.EvaluateDrawdown | live_trading/engine.py:462-488 | trips exactly at the threshold, sets the shared flag during the call unless the store failed and latched the process, and then forces human approval, before anything is cancelled |
| LiveEngine.LiveTradingEngine.DrawdownThenSignal | live_trading/engine.py:387-488 | the two calls in sequence: after a drawdown tripped on a healthy store a signal attempts no order without an arm, or a loss of the flag, later than the trip |
| LiveEngine.OrderNeedsArmAfterTrip | live_trading/engine.py:387-421 | on a store used by any engines and switches, an order after a trip followed an arm or a loss of the flag |
| Backtest.IndexAt | backtesting/engine.py:307-317 | the first candle at or after a signal, or the last candle |
| Backtest.MapToIndices | backtesting/engine.py:299-317 | the nested search places every timed signal on that candle, in order |
| Backtest.ComputeMaxDrawdown | backtesting/engine.py:257-275 | equals the same drawdown function as the paper engine's |
| Backtest.RunCandle | backtesting/engine.py:402-474 | one loop iteration: exits, then every signal of this candle, then one curve point |
| Backtest.TakeSignal | backtesting/engine.py:426-470 | a reversal close and an all-in entry, or a division by zero at a zero unit cost |
| Backtest.Run | backtesting/engine.py:373-490 | the whole run equals the specification the laws below are about |
| BacktestTrades.SortIsStable | backtesting/engine.py:373-375 | sorting loses no signal and keeps those of one time in the order given |
| BacktestTrades.SignalMapIsComplete | backtesting/engine.py:299-319 | the run consumes every timed signal, in time order, each at the first candle not before it |
| BacktestTrades.ExitIsTargetFirst | backtesting/engine.py:399-419 | a candle takes a position out if and only if it reaches a level, at the target whenever that is reached, slipped against the trader |
| BacktestTrades.HeldIsClosedIff | backtesting/engine.py:399-447 | in a run a held position is closed by a candle at a level it reaches, else at its close when a signal for the other side is due, else held on |
| BacktestTrades.LastSignalDecides | backtesting/engine.py:426-470 | after a candle the run is on the side of that candle's last signal |
| BacktestTrades.EveryPointIsExplained | backtesting/engine.py:472-474 | every point of the curve is the capital plus what the trades netted plus the open gain at that close |
| BacktestTrades.EveryTradeIsExplained | backtesting/engine.py:399-487 | every reported trade was opened by one of the signals at the candle after its own, and closed by a candle at a level it reached or at its close, at prices slipped against the trader, with the profit of those prices |
| BacktestLaws.SecondSortIsIdle | backtesting/engine.py:318-319 | sorting the mapped signals again never moves any |
| BacktestLaws.NoLookAhead | backtesting/engine.py:373-475 | inputs that share signals, parameters and candles up to k agree on the entire state after k iterations |
| BacktestLaws.CursorIsExact | backtesting/engine.py:437-440 | after k iterations exactly the signals mapped before candle k are consumed; end-of-data signals never are |
| BacktestLaws.EveryStateBalances | backtesting/engine.py:449-487 | while a position is open cash is zero and the position cost all the capital plus net profits; overwriting cash loses nothing |
| BacktestLaws.FinalEquity | backtesting/engine.py:476-487 | one point per candle, flat at the end, final equity is capital plus unrounded profits less entry commissions |
| BacktestLaws.EntryCrashes | backtesting/engine.py:449-456 | an entry divides by zero if and only if its price is zero or it is a short at full slippage |
| BacktestLaws.NonzeroOpensFinish | backtesting/engine.py:399-475 | with slippage below one only a zero open price can crash a run |
| BacktestGrowth.LongOnlyCompounds | backtesting/engine.py:449-487 | a long-only run on positive prices with costs below one never divides by zero, stays positive, and ends at capital times one factor per trade |
| Windows.SpacedIffBounded | backend/services/analysis_control.py:187-198 | keeping the n-th next instant a window away is the same as never exceeding n in any window |
| Windows.PrunedIsRecent | backend/core/login_rate_limit.py:64-67 | popping from the front of a sorted list keeps exactly the instants inside the window |
| AnalysisGate.AnalysisGate.Create | backend/services/analysis_control.py:151-177 | refuses exactly the non-positive limits |
| AnalysisGate.AnalysisGate.PruneBudget | backend/services/analysis_control.py:187-190 | what remains is the starts inside the window |
| AnalysisGate.AnalysisGate.CheckBudget | backend/services/analysis_control.py:192-198 | refuses exactly when the full history of starts holds the limit inside the window |
| AnalysisGate.AnalysisGate.TryStart | backend/services/analysis_control.py:204-220 | over budget, busy, or one lease, one permit and one recorded start; a refusal changes neither permits nor history |
| AnalysisGate.AnalysisGate.Ask | backend/services/analysis_control.py:222-231 | the first budget check of a waiting caller |
| AnalysisGate.AnalysisGate.TimeOut | backend/services/analysis_control.py:232-235 | a caller that gives up leaves no permit behind, even one already handed to it |
| AnalysisGate.AnalysisGate.Resume | backend/services/analysis_control.py:236-243 | the second check after the wait; a late refusal gives the permit back |
| AnalysisGate.AnalysisGate.Release | backend/services/analysis_control.py:245-251 | frees one slot, or refuses when none is held |
| AnalysisGate.AnalysisGate.BudgetRemaining | backend/services/analysis_control.py:258-262 | remaining runs and counted starts add up to the limit |
| AnalysisGate.AnalysisLease.Release | backend/services/analysis_control.py:74-78 | the first release frees one slot, every other one nothing |
| AnalysisGate.StartsAreLimited | backend/services/analysis_control.py:187-251 | over the life of a gate no window holds more starts than the limit, and leases never exceed the permits |
| AnalysisGate.HintIsExact | backend/services/analysis_control.py:195-198 | waiting the advertised time with no other start guarantees budget, and a second less does not |
| AnalysisStates.AnalysisStateStore.Put | backend/services/analysis_control.py:102-118 | sessions keep start order, the oldest makes way, a late update moves nothing, and the display changes by itself only on eviction |
| AnalysisStates.AnalysisStateStore.Get | backend/services/analysis_control.py:120-122 | found exactly for retained sessions |
| AnalysisStates.AnalysisStateStore.Latest | backend/services/analysis_control.py:124-128 | something is shown exactly when something is stored |
| ModelQueue.ModelRequestQueue.Enter | agents/queue.py:43-48 | at most one more than max_queued requests are pending |
| ModelQueue.ModelRequestQueue.WaitForSlot | agents/queue.py:55-87 | with room the grant is immediate, otherwise it waits for the rpm-th last grant to expire; a non-positive rpm always raises |
| ModelQueue.ModelRequestQueue.ActiveCount | agents/queue.py:94-99 | counts the grants of the last minute, whatever stale entries remain |
| ModelQueue.GrantsAreLimited | agents/queue.py:55-87 | over the life of a queue no minute sees more than rpm grants and no quarter second more than one |
| TokenBucket.TokenBucket.Consume | backend/core/rate_limit.py:46-56 | each reading is allowed exactly when a whole token is there after the refill |
| TokenBucket.AllowedIffEveryWindowHasRoom | backend/core/rate_limit.py:46-56 | a request is allowed if and only if no window ending with it would exceed capacity plus rate times length |
| TokenBucket.AdmissionsAreBounded | backend/core/rate_limit.py:46-56 | between any two readings at most capacity plus rate times elapsed time is admitted |
| LoginModel.SweepRefines | backend/core/login_rate_limit.py:242-263 | pruning and removing empty buckets is unobservable |
| LoginModel.FetchRefines | backend/core/login_rate_limit.py:185-234 | so is fetching a bucket, but for keys whose live attempts the eviction drops |
| LoginModel.AttemptRefines | backend/core/login_rate_limit.py:69-79 | an attempt is decided by, and recorded in, the full history of accepted attempts |
| LoginModel.RoomLosesNothing | backend/core/login_rate_limit.py:224-234 | an eviction drops live attempts exactly when as many keys are active as the cap allows |
| LoginModel.FewActiveDropNothing | backend/core/login_rate_limit.py:207-263 | while fewer keys than the cap hold live attempts, a call, with or without its periodic sweep, drops nothing |
| LoginLimiter.SlidingWindow.Attempt | backend/core/login_rate_limit.py:69-79 | recorded exactly when allowed |
| LoginLimiter.SlidingWindow.RetryAfter | backend/core/login_rate_limit.py:81-88 | zero below the limit, else the time until the oldest live attempt expires |
| LoginLimiter.WaitIsExact | backend/core/login_rate_limit.py:81-88 | before the hint has passed the same attempts still count, once it has the oldest does not |
| LoginLimiter.Tier.EvictToCap | backend/core/login_rate_limit.py:207-234 | prunes, drops empty buckets, then the least recently used ones until there is room |
| LoginLimiter.Tier.Fetch | backend/core/login_rate_limit.py:185-205 | the key's bucket ends up most recently used |
| LoginLimiter.Tier.CheckAndRecord | backend/core/login_rate_limit.py:147-163 | equals counting history for keys that never lost live attempts, and never blocks any key sooner |
| LoginLimiter.Tier.PruneAndSweep | backend/core/login_rate_limit.py:249-263 | keeps the refinement, so no later decision can tell |
| LoginLimiter.Tier.RetryAfter | backend/core/login_rate_limit.py:265-273 | the hint counts history too, and pruning or removing the bucket is unobservable |
| LoginLimiter.LoginRateLimiter.CheckAndRecord | backend/core/login_rate_limit.py:130-183 | both tiers decide, in order, by the histories of keys that had lost nothing before the call; the narrow tier records even what the wide one then blocks; keys newly lost are exactly those of the evictions, none while fewer keys than the cap hold live attempts |
| LoginLimiter.LoginRateLimiter.PruneAndSweep | backend/core/login_rate_limit.py:242-263 | both dictionaries keep exactly the nonempty buckets, pruned, and still follow their histories |
| LoginLimiter.LoginRateLimiter.RetryAfter | backend/core/login_rate_limit.py:265-273 | the narrow tier's hint in terms of history; no key loses anything |
| LoginLimiter.CapHoldsIffPositive | backend/core/login_rate_limit.py:185-234 | a dictionary within its cap stays within it if and only if the cap is positive |
| CircuitBreaker.CountsConsecutiveFailures | agents/circuit_breaker.py:83-99 | the counter is the number of failures since the last success, and reaching the threshold leaves the closed state |
| CircuitBreaker.ClosedBelowThreshold | agents/circuit_breaker.py:90-99 | closed implies fewer failures than the threshold over every run, if and only if the threshold is positive |
| CircuitBreaker.OpenRefuses | agents/circuit_breaker.py:74-110 | an open breaker refuses every check until reset_seconds after its last failure, whatever stragglers report |
| CircuitBreaker.RecoveryIsDecided | agents/circuit_breaker.py:74-110 | from any open state a check is admitted if and only if reset_seconds have passed since a positively dated failure; then any number of checks are, until the first outcome closes it with a zero counter or opens it again from that moment |
| CircuitBreaker.HalfOpenAdmitsAll | agents/circuit_breaker.py:19-19 | until an outcome arrives a half-open breaker admits every request |
| CircuitBreaker.ModelCircuitBreaker.Check | agents/circuit_breaker.py:74-81 | the fields are what the reported events amount to, and the answer is theirs |
| CircuitBreaker.ModelCircuitBreaker.RecordSuccess | agents/circuit_breaker.py:83-88 | appends one success |
| CircuitBreaker.ModelCircuitBreaker.RecordFailure | agents/circuit_breaker.py:90-99 | appends one failure, dated by the clock |
| Retry.WithRetry | agents/retry.py:117-157 | at most max_retries plus one calls, each entered only while the breaker allows, exactly one outcome reported per call, stopping at the first success or permanent error |
| Retry.TailIffNegative | agents/retry.py:152-157 | the exhausted-retries ending is reached exactly for a negative retry count |
| Retry.TransientErrors | agents/retry.py:66-81 | transport errors are retried, unusable or unknown answers never, a status exactly for rate limiting and the transient server errors |
| Router.CircuitBreakerRegistry.GetOrRegister | agents/circuit_breaker.py:153-167 | a live breaker is returned as it is; limits apply on creation only |
| Router.ModelRouter.CallModel | agents/router.py:184-232 | one retried call, then at most one corrective call, due exactly when the answer misses the schema |
| Router.ModelRouter.TryModel | agents/router.py:133-265 | one model's turn goes through the breaker, the queue and the gate of a local model in order; each error of a control is reported exactly when that control gave that answer; the local gate is back where it was on every path, and each retried call reported exactly one outcome |
| Router.ModelRouter.Execute | agents/router.py:119-284 | success at model i follows exactly one error for each of models 0 to i - 1 in order, exhaustion one per model and degradation; everything sent to the provider, and everything the queue and the gate answered, is in the trace |
| Router.CallsAreBounded | agents/router.py:119-284 | whatever `Execute` did, it sent at most every retry and one correction for each model it tried |

## Left out

- IEEE floating point beyond the explicit roundings; NaN and infinities; numeric column overflow beyond being a database fault.
- Aliasing and deep copies of position and trade objects: positions and trades are values, so the shallow-copy hazard the engine's comments mention cannot arise in the model.
- `PaperTradingEngine` configuration maps are taken as already upper-cased; upper-casing of a looked-up symbol is ASCII only.
- Order of trades loaded with the same exit time is insertion order; the round trip is stated on multisets.
- Write-only columns of the portfolio and position rows (total value, realised and unrealised profit, market value, percentages), order rationales and log output.
- Loss of the advisory-lock session while a writer is working, which the source does not detect either; the lock is assumed held until released.
- Ledger reads make no atomicity claim: they hold the in-process lock only, and may leave any mix of commits in the cache, which the next write reloads.
- Direct persistence by callers that bypass the ledger's locks.
- Kill switch without a shared store (in-memory mode), and the stored reason and timestamp of a trip.
- LiveEngine.LiveTradingEngine.ExecuteSignal: in the class the calls of one process run one after another, with only the mode changed by others at each await; that other calls of the process run while an order call waits behind its passed check is part of the protocol, whose theorems cover it.
- Interleaving the store accesses of two kill-switch calls of one process: the source's store client blocks its process, so only other processes act between them.
- Exchange connections, cancelling of open orders after a trip, and the database query behind the promotion record: parameters.
- Backtest metrics other than the drawdown (Sharpe, Sortino, win rate, profit factor) and signals whose direction is neither long nor short.
- Rebuilding of semaphores for a new event loop and `reset()` of the gates; the semaphore is modelled by its permits, handed to waiting callers in any order.
- LoginLimiter.Tier.CheckAndRecord: dictionary entries hold their window's attempts by value; a window object is made from the entry, used and written back, so sharing of a window object between dictionary and caller is not modelled.
- Hashing and normalisation of emails and the choice of the client address: the digest and the address are parameters.
- Retry delays: any waiting time is allowed, so backoff and jitter are not modelled.
- Router latencies, error texts and message contents; the provider's answer, the queue's and the local gate's admission are arbitrary, and their own behaviour is not that of `ModelQueue` there.
- LLM agents, prompts, news, indicators, HTTP routes, authentication, settings, metrics and the frontend.
