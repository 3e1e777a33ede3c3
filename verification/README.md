# NEURAVEX verification model

NEURAVEX is a trading bot: a Python engine and backend that decide and book trades, and a phone client that
executes approved orders. This project models its stateful core in Dafny and proves what that core promises.

- `Ledger`, `Orders`, `OrderProtocol`, `Backfill`: the order life cycle (propose, poll, claim, swap, report, expire,
  kill switch) with any number of phones, and the position ledger the fills are folded into. `Orders` is the server's
  table with its endpoints; `OrderProtocol` is the distributed protocol as a state machine whose runs interleave
  every actor freely; `Backfill` is the delete-and-replay repair of the ledger.
- `RiskEngine`, `PositionSizing`, `AgentTick`, `AgentGates`, `CircuitBreaker`: one tick of the agent over any symbols
  against one mutable portfolio state, its limits, exactly what opens and closes a position, and the flatten after a
  breach. `PaperTick` is the same tick on the simulated
  exchange, with every order settled there. `Drawdown` is the timed drawdown halt over an
  event log, and the replay's one-variable version of it.
- `PaperExchange`, `RouteCosts`: the simulated exchange as exact accounting.
- `Candles`, `HourlyView`: resampling and the binary-search candle index.
- `Backtest`, `EquityCurve`, `BacktestRisk`, `BacktestRuin`, `BacktestFees`: the walk-forward backtest with the gates
  that turn a scored signal into a trade, the falls of its equity curve, exactly which settings keep equity from going
  negative and the reported drawdown right, and exactly when a lower fee never ends poorer.
- `Supervisor`, `Indicators`, `ConfigParser`, `ConfigLayout`, `PythonText`, `SwapGuard`: the loss counter, the EMA
  family, the indentation-stack configuration reader with the text functions it leans on and the texts it misreads, and
  the swap price and slippage bound.

Money, prices and quantities are `real`, times are `int` seconds, each endpoint, task or tick is one atomic step, and
exceptions are values (`None`, `Invalid`, `Rejected`, ...). Code that updates things in place is a method or a class
proved equal to a function of the old state; the theorems are about those functions.

Where the code and its own words differ, the model follows the code:

- `claim_execution` sets an overdue order to `expired` and then raises; the session rolls that back
  (backend/app/db/session.py:53-60), so the order stays `pending` and the caller only sees "gone".
- Sessions are opened with `autoflush=False` (backend/app/db/session.py:45), so the repair script's replay never sees
  the rows it has just added. `Backfill` takes `autoflush` as a parameter, proves the intended rebuild correct, and
  proves exactly when the configured one agrees with it.
- The docstring of `expire_stale_pending_executions` says the live-exit task calls it; that task does not. Here it is a
  step that may or may not happen.
- The proposal guard counts an order as live while `expires_at > now`, the claim refuses one only when
  `expires_at < now`, and the live-exit sweep ignores claimed orders: `OrderProtocol.OneLiveAlways` says exactly
  which steps break the one-live-order rule; `OrderProtocol.ExpiryInstantDuplicates` and
  `OrderProtocol.LiveExitDuplicates` show a run of each kind.
- `HourlyView.at` with `limit` 0 still returns the forming candle; its contract says exactly when.
- A peak of exactly zero is falsy in Python, so the measured drawdown peak can forget it; the two peak theorems are
  equivalences with that case as the exception.
- The configuration reader says it raises on anything it does not support rather than misreading it. It raises on
  unsupported lines only; of the texts without one it reads as they are laid out exactly those in which deeper lines
  follow a key without a value, shallower ones return to a block that is still open, and no block repeats a key
  (`ConfigLayout.ReadAsLaidOutExactly`). For example, a line indented under a scalar becomes that scalar's sibling
  (`ConfigLayout.LineUnderScalarIsSibling`).
- The engine's tests promise that equity never goes negative and that the drawdown is at most 1. Both hold for every
  spot setting whose stake, `min(max_position_size, 1) * (1 + slippage)`, is at most 1. Of the settings whose costs are
  fractions and under which trades are possible, these are the only ones where equity never goes negative: a larger
  stake or a short can leave debt (`BacktestRuin.NeverNegativeExactly`), and then the one-pass drawdown can miss a
  deeper fall (`BacktestRuin.DrawdownRightExactly`).
- The engine's tests also promise that fees reduce returns, where both runs trade. That is false for every two fees
  below 100% (`BacktestFees.FeesCanHelp`). The fee also keeps signals from becoming trades, through the minimum edge
  and the score. For strategies that draw on any given repertoire of signals the promise holds if and only if the
  backtest is spot only, its stake is at most 1, and no signal of the repertoire has its expected return or its score
  between what the two fees ask for (`BacktestFees.FeesExactly`); on equal decisions it is a matter of the first two
  alone (`BacktestFees.FeesExactlyAgreed`).

## Model

| member | source | states |
|---|---|---|
| `Ledger.PositionTable.ApplyFill` | backend/app/api/execution.py:112-176 | the in-place fold of one fill: opens, averages, reduces or closes exactly the one row the ledger function says, and fails exactly on the division by zero |
| `Ledger.OneOpenPerKeyKept` | backend/app/api/execution.py:125-176 | over any sequence of fills there is at most one open position per account and symbol |
| `Ledger.AveragingKeepsCost` | backend/app/api/execution.py:149-151 | the weighted-average entry keeps book cost plus money paid, and books no profit |
| `Ledger.ReducingRealizes` | backend/app/api/execution.py:161-174 | a sell moves book cost to proceeds and realized profit, up to the residual dropped at a close |
| `Ledger.FillConserves` | backend/app/api/execution.py:125-176 | one fill: paid minus received is the change of book cost minus the change of realized profit plus the dropped residual, also for sells without a position |
| `Ledger.LedgerConserves` | backend/app/api/execution.py:125-176 | the same conservation law over every sequence of fills |
| `Ledger.ResidualIsDust` | backend/app/api/execution.py:171-174 | when no sell exceeds the holding, every quantity zeroed at a close is between 0 and 1e-9 |
| `Ledger.BuyExactly` | backend/app/api/execution.py:131-151 | one buy: a new row with the fill's own figures, or one lot more of the open row at an entry price between the two, every other field as it was; nothing where the total would be zero |
| `Ledger.SellExactly` | backend/app/api/execution.py:152-174 | one sell: nothing without an open row; otherwise that row shrinks by the quantity, realizes the difference of the prices on it, and is closed at zero exactly from 1e-9 down |
| `Ledger.HoldsAlways` | backend/app/api/execution.py:125-174 | over every fill sequence the open row of a symbol holds what the quantities of its fills alone say |
| `Ledger.QuantityConserved` | backend/app/api/execution.py:125-174 | per symbol and over every fill sequence: open quantity after is open quantity before plus bought, minus sold from the open row, minus dropped when it closed |
| `Ledger.EntryPriceWithin` | backend/app/api/execution.py:149-151 | over every fill sequence entry prices stay in the range of the prices paid |
| `Ledger.FindOpenProjects` | backend/app/api/execution.py:125-130 | looking up and replacing the open row of a symbol is the same among that symbol's rows alone |
| `Ledger.AppliedProjects` | backend/app/api/execution.py:112-176 | a fill changes the rows of its own symbol, as if no others existed, and no other rows |
| `Ledger.ReplayProjects` | backend/app/api/execution.py:112-176 | the history of one symbol is the replay of that symbol's fills alone |
| `Ledger.PerKeyOrderDecides` | backfill_positions.py:29-41 | two replays that agree on the order per symbol leave the same rows for every symbol |
| `Ledger.FillsCommute` | backend/app/api/execution.py:112-176 | fills on different symbols commute |
| `Orders.ExecutionServer.GetPending` | backend/app/api/execution.py:46-69 | a poll offers exactly the account's pending orders that are not past their expiry, none missing, oldest first |
| `Orders.ExecutionServer.ClaimExecution` | backend/app/api/execution.py:72-84 | a claim succeeds exactly for a pending order not past its expiry; every refusal leaves the table as it was |
| `Orders.ExecutionServer.ReportExecution` | backend/app/api/execution.py:87-109 | a report overwrites status and fill of that order alone, books the fill exactly when it is an executed one with an amount and price, and a failed booking changes nothing |
| `Orders.ExecutionServer.ActivateKillSwitch` | backend/app/api/emergency.py:21-38 | every pending buy of the account becomes cancelled and keeps its other fields, every other order is as before, and the counts are those of the changed orders and of the pending sells |
| `Orders.ExecutionServer.ExpireStalePending` | backend/app/db/sql_data_store.py:448-457 | exactly the account's overdue pending orders become expired, keeping their other fields, and the count is that of the changed orders |
| `Orders.ExecutionServer.HasPendingOrder` | backend/app/db/sql_data_store.py:309-321 | true exactly when an order of that account, symbol and side is claimed, or pending with its expiry ahead |
| `Orders.ExecutionServer.SavePendingExecution` | backend/app/db/sql_data_store.py:257-266 | appends one pending order with its lifetime and leaves all others |
| `Orders.KillSwitchExactly` | backend/app/api/emergency.py:26-34 | after the kill switch no buy of the account is pending, its pending sells are those before, and as many orders have changed as were counted |
| `Orders.SweepExactly` | backend/app/db/sql_data_store.py:448-457 | after the sweep no order of the account is pending past its expiry, and as many orders have changed as were counted |
| `OrderProtocol.OrdersEvolve` | backend/app/api/execution.py:72-109 | every step moves every order along the life cycle only, and new orders start pending |
| `OrderProtocol.ReportStaysOk` | android/app/src/main/java/com/neuravex/app/data/ExecutionRepository.kt:106-130 | a phone's report keeps the invariants of the reported fills and the ledger |
| `OrderProtocol.InvAlways` | backend/app/api/execution.py:72-109 | the protocol invariant survives every run of every interleaving |
| `OrderProtocol.AtMostOnce` | android/app/src/main/java/com/neuravex/app/data/ExecutionRepository.kt:83-133 | in every run no order is sent to the market twice, only orders claimed in time are sent, each executed fill is booked once, and the ledger is the replay of those fills |
| `OrderProtocol.SettledForever` | backend/app/api/execution.py:72-109 | a settled order never changes again |
| `OrderProtocol.CancelledNeverSent` | backend/app/api/emergency.py:26-32 | once cancelled or expired an order is never sent, whatever phones still hold it in their queues |
| `OrderProtocol.KillSwitchStops` | backend/app/api/emergency.py:26-32 | from any state of the protocol, a buy that is pending when the kill switch is pulled is cancelled for good and sent in no continuation |
| `OrderProtocol.KillSwitchSpares` | backend/app/api/emergency.py:26-34 | sells, other accounts and orders that are not pending stay as they are, and nothing but orders changes |
| `OrderProtocol.OwnAccountAlways` | android/app/src/main/java/com/neuravex/app/data/ExecutionRepository.kt:83-133 | in every run an order is queued, claimed and sent only by a phone of the account it belongs to |
| `OrderProtocol.PollMissesNothing` | backend/app/api/execution.py:46-69 | a poll queues every pending, unexpired order of the phone's account, oldest first, and no other |
| `OrderProtocol.LostAnswer` | backend/app/api/execution.py:72-84 | a claim whose answer is lost leaves the order claimed and the phone without it |
| `OrderProtocol.ProposeExactly` | backend/app/db/sql_data_store.py:257-321 | a proposal is stored, pending for 300 seconds, if and only if no order of its symbol and side is claimed, or pending and unexpired |
| `OrderProtocol.LiveExitExactly` | backend/app/core/tasks.py:577-600 | once the sweep decides to leave an open position, it proposes to sell all of it if and only if no sell of its symbol is pending, expired or not |
| `OrderProtocol.DuplicatesExactly` | backend/app/core/tasks.py:577-584 | a step breaks the one-live-order rule exactly when it is a guarded proposal at an expiry instant, or a live-exit sell beside a claimed one |
| `OrderProtocol.OneLiveAlways` | backend/app/db/sql_data_store.py:309-321 | a run keeps at most one claimed or claimable order per account, symbol and side in every state if and only if it has no such step |
| `OrderProtocol.ExpiryInstantDuplicates` | backend/app/api/execution.py:79 | a concrete run in which the guard and the claim disagree at the expiry instant |
| `OrderProtocol.LiveExitDuplicates` | backend/app/core/tasks.py:577-584 | a concrete run in which a live exit sells beside a sell a phone has claimed |
| `Backfill.RebuildAccount` | backfill_positions.py:29-42 | the in-place delete-and-replay of one account, with and without the session seeing its own rows; it ends at the first fill that divides by zero, and does so exactly when the replay holds one |
| `Backfill.RebuildAll` | backfill_positions.py:27-42 | the whole script in one session: every account rebuilt in turn, or, exactly when some replay divides by zero, the table as it was |
| `Backfill.ConfiguredNeverRaises` | backfill_positions.py:29-42 | as configured, no replay ever divides by zero |
| `Backfill.ReplayBesideOthers` | backfill_positions.py:29-42 | replaying one account works beside the other accounts' rows without touching them |
| `Backfill.RebuildTwice` | backfill_positions.py:14-16 | rebuilding keeps the other accounts' rows, and rebuilding twice equals rebuilding once |
| `Backfill.RebuildMatchesReporting` | backfill_positions.py:29-42 | in every reachable state of the protocol whose symbol was reported in creation order, a rebuild that sees its own rows leaves the very rows incremental reporting built |
| `Backfill.RebuildNeverRaises` | backfill_positions.py:29-42 | in those states it raises for no list of accounts either: the replayed fills are those that reporting has booked |
| `Backfill.ConfiguredAgainstIntended` | backfill_positions.py:29-42 | as configured, the rebuild gives the open quantities and entry prices of the intended one for a symbol if and only if none of its executed orders follows a buy of it |
| `Backfill.ConfiguredRebuildExact` | backfill_positions.py:29-42 | in every reachable state whose symbol was reported in creation order, the configured rebuild gives the open quantities and entry prices of the reported ledger under exactly that condition |
| `Backfill.ConfiguredRebuildPhantom` | backfill_positions.py:29-42 | a buy followed by a full sell leaves a phantom open position after the configured rebuild |
| `RiskEngine.CheckTradeAgainstLimits` | trading_engine/risk/risk_engine.py:113-174 | the pass over correlated symbols and the early returns give the verdict and penalty of the declarative rules |
| `RiskEngine.ApprovedExactly` | trading_engine/risk/risk_engine.py:113-174 | a trade is approved if and only if each rule holds in its own terms: sums over the open positions, cooldown of the symbol, gap to the last entry, trades this hour |
| `RiskEngine.PenaltyIsLargest` | trading_engine/risk/risk_engine.py:126-140 | the penalty is the largest correlation of at least 0.7 with an open symbol, and zero without one |
| `RiskEngine.BreachInMoney` | trading_engine/risk/risk_engine.py:84-110 | which limit stops the account, as amounts of money: the floor, then the part lost of the peak, then the part lost on the day; a profit never does |
| `PositionSizing.CalculatePositionSize` | trading_engine/risk/position_sizing.py:20-68 | cap after cap computes the smallest of risk budget, position cap and exposure room, and which of them bound |
| `PositionSizing.SizeRespectsLimits` | trading_engine/risk/position_sizing.py:39-68 | a position that is taken is within every cap, and loses at its stop at most its share of equity |
| `PositionSizing.SizeIsSmallest` | trading_engine/risk/position_sizing.py:20-68 | a size is worth exactly the smallest of three allowances, the risk budget at the stop, the position cap and the room left, and is positive if and only if all three are |
| `PositionSizing.BudgetAtMost` | trading_engine/risk/position_sizing.py:39-46 | confidence and correlation only shrink the risk budget |
| `PositionSizing.RiskWithinBudget` | trading_engine/risk/position_sizing.py:46-68 | capping the notional below the full-risk one keeps the loss at the stop inside the budget |
| `AgentTick.PortfolioState.ReserveEntry` | trading_engine/agent.py:676-708 | the whole new state after an entry: the holding added, cash lowered but never below zero, counters and times set |
| `AgentTick.PortfolioState.ReleasePosition` | trading_engine/agent.py:710-724 | the whole new state after a close: the holding is gone and its signal time set, cash and counters stay as they were |
| `AgentTick.ProcessSymbol` | trading_engine/agent.py:252-552 | one symbol through every gate: the outcome and the new state, for every reading, order answer and failure |
| `AgentGates.PassExactly` | trading_engine/agent.py:239-552 | over a whole pass and against the state just before: a position is closed, all of it, if and only if the signal is short, something is held, the exit EMA lets go, no sell is in flight and the order goes through; one is entered if and only if the signal is long and passes its filters, no buy is in flight, the symbol is rested, every rule holds and there is room; never in a dry run |
| `AgentGates.CloseExactly` | trading_engine/agent.py:347-409 | one short signal on a held symbol: the outcome in every case |
| `AgentGates.EnterExactly` | trading_engine/agent.py:411-552 | one long signal: an entry worth the smallest of its allowances in exactly the cases where it may be, and otherwise none |
| `AgentGates.EntryChanges` | trading_engine/agent.py:676-708 | an entry adds its holding, takes its cost from the cash but never below zero, counts as a trade, and is the newest trade and entry |
| `AgentGates.CloseChanges` | trading_engine/agent.py:710-724 | a close leaves nothing of its symbol and every other holding, and is the newest trade of the symbol |
| `AgentTick.RunSymbols` | trading_engine/agent.py:239-250 | the loop is the fold of those outcomes; a symbol that raises is skipped and the rest still run |
| `AgentTick.GateFacts` | trading_engine/agent.py:460-499 | an entry the gates let through respects every limit of the state it was judged on |
| `AgentTick.StepBounded` | trading_engine/agent.py:252-552 | one symbol keeps notional, positions and hourly trades at their caps or where they were |
| `AgentTick.PassKeepsLimits` | trading_engine/agent.py:239-248 | for any symbols and signals one pass keeps total notional, open positions and hourly trades at max(start, cap), spaces its entries and keeps each within its limits |
| `AgentTick.RiskPerTrade` | trading_engine/agent.py:468-551 | within its limits, and at a multiplier that is a positive fraction, an entry's loss at its stop is at most equity times the configured risk |
| `AgentTick.PassRiskBounded` | trading_engine/agent.py:239-248 | for any symbols, signals and past trades, every entry of a supervised pass loses at its stop at most equity times the configured risk |
| `CircuitBreaker.FlattenAllPositions` | trading_engine/agent.py:554-619 | the loop with one sell attempt each: what was closed, what failed, and the holdings left, with cash and counters untouched |
| `CircuitBreaker.ClosedExactly` | trading_engine/agent.py:584-619 | a symbol is closed exactly when it holds something positive with no sell in flight and its order goes through |
| `CircuitBreaker.LeftOpenExactly` | trading_engine/agent.py:584-619 | a position is left open exactly when it had nothing to sell, a sell in flight, or a failed close |
| `CircuitBreaker.RunTick` | trading_engine/agent.py:193-250 | a breach tick places no buy, flattens exactly for the flattening limits, which are the floor and the drawdown, and then whatever the daily loss; it notes exactly the drawdown halts; otherwise the symbols run |
| `PaperTick.FlattenOnPaper` | trading_engine/agent.py:554-619 | the flatten loop against the simulated exchange: its books after all sales, exactly which sales were filled and which refused, and the positions left |
| `PaperTick.FullSale` | trading_engine/execution/paper_exchange.py:139-152 | selling a whole balance at a fresh price is filled, leaves exactly zero of it and touches only it and the quote currency |
| `PaperTick.FlattenEmpties` | trading_engine/agent.py:584-619 | with fresh prices nothing is refused, every position is sold, every positive coin balance becomes exactly zero and the others stay |
| `PaperTick.FlattenBrings` | trading_engine/agent.py:584-619 | with fresh prices flattening brings, in cash, exactly the sum over the positions of quantity at the last price, less the slippage of the symbol and the taker's fee |
| `PaperTick.FlattenLeavesNothing` | trading_engine/agent.py:584-619 | the flatten of a simulated account in good order leaves no refusal, no position and no coin |
| `PaperTick.TradeSymbol` | trading_engine/agent.py:252-552 | one symbol of a simulated account, outside phone mode: the order every gate lets through, its settlement, and the outcome that follows from the answer |
| `PaperTick.FilledExactly` | trading_engine/agent.py:500-552 | an outcome enters or closes a position if and only if an order of that symbol, side and quantity was filled; no filled order goes unrecorded |
| `PaperTick.TradeSymbols` | trading_engine/agent.py:239-250 | the symbol loop with every order settled by the exchange in turn is the pass over the answers it gave |
| `PaperTick.Tick` | trading_engine/agent.py:193-250 | the whole tick of a simulated account: a breach that flattens ends, for an account in good order, with nothing refused, no position and every coin balance exactly zero, whether AI trading is on or off; a breach that pauses changes nothing; otherwise the symbols trade |
| `PaperExchange.Exchange.CreateOrder` | trading_engine/execution/paper_exchange.py:102-169 | the in-place update of balances and cost basis, and the reply, for every order, price and balance, stale and missing prices included |
| `PaperExchange.PriceExactly` | trading_engine/execution/paper_exchange.py:116-118 | the fill price: a given limit price or the last one, moved against the trader by the symbol's basis points |
| `PaperExchange.BuyExactly` | trading_engine/execution/paper_exchange.py:110-138 | a buy is filled if and only if its quantity is positive, its price known and fresh, and the cash covers notional and fee; then exactly that moves, and the basis is the average cost; a refused one changes nothing |
| `PaperExchange.SellExactly` | trading_engine/execution/paper_exchange.py:110-152 | a sell is filled if and only if its quantity is positive, its price known and fresh, and the coins are there; then exactly those move, and the basis goes if and only if dust is left |
| `PaperExchange.NeverNegative` | trading_engine/execution/paper_exchange.py:116-152 | no run of orders and price updates takes a balance below zero, with or without recorded cost bases |
| `PaperExchange.BuyBooks` | trading_engine/execution/paper_exchange.py:116-137 | a buy moves cash into cost basis, fee included, and nothing else |
| `PaperExchange.SellBooks` | trading_engine/execution/paper_exchange.py:139-152 | a sell moves cash plus coins at basis by the profit recorded for it, up to dust |
| `PaperExchange.BooksBalance` | backend/app/db/sql_data_store.py:376-397 | over any run, cash plus coins at cost basis moves by exactly the recorded profits and the dust terms |
| `PaperExchange.DustIsDust` | trading_engine/execution/paper_exchange.py:146-152 | each dust term is worth at most 1e-12 units at the fill price or the basis |
| `PaperExchange.OrderMovesBooksByProfit` | backend/app/db/sql_data_store.py:391-394 | every filled order moves the books by its recorded profit, up to dust |
| `PaperExchange.SettleFriction` | trading_engine/execution/paper_exchange.py:116-147 | one market order at a fixed price costs exactly its fee and its slippage |
| `PaperExchange.OnlyFrictionIsLost` | trading_engine/execution/paper_exchange.py:116-147 | at fixed prices any run of market orders lowers mark-to-market equity by exactly its fees and slippage |
| `RouteCosts.RoundTripLosesItsCost` | trading_engine/execution/route_costs.py:8-22 | buying and selling one quantity of a routed coin at one price loses exactly its round-trip cost and restores the coin balance |
| `Drawdown.DrawdownStore.NoteDrawdownHalt` | backend/app/db/sql_data_store.py:335-346 | records a halt unless one is running |
| `Drawdown.HaltsApart` | backend/app/db/sql_data_store.py:335-346 | in every run, whatever the clock does, recorded halts are at least seven days apart |
| `Drawdown.PeakRemembersAll` | backend/app/db/sql_data_store.py:348-358 | while a halt runs the peak is the largest equity ever stored |
| `Drawdown.PeakIsOfCounted` | backend/app/db/sql_data_store.py:348-358 | the peak bounds every snapshot that counts and is one of them, and is missing if and only if none counts: all of them without a halt or during one, and after the last halt those taken since its seven days were over |
| `Drawdown.DrawdownStopsExactly` | trading_engine/risk/risk_engine.py:92-102 | in every state a tick stops the account on its drawdown if and only if the floor is not reached and its equity has lost the allowed part of some positive level that counts |
| `Drawdown.StopsAgain` | backend/app/db/sql_data_store.py:335-358 | seven days after the last halt, a second fall from a level stored since then breaches at the next tick, which records another halt |
| `Drawdown.EquityIsNewest` | backend/app/db/sql_data_store.py:464-471 | the equity a tick judges is that of a newest snapshot |
| `Drawdown.MeasuredPeakRemembersExactly` | trading_engine/risk/risk_engine.py:92-102 | the peak a tick measures against bounds every equity ever stored, if and only if the best is not exactly zero with a negative current equity |
| `Drawdown.ZeroPeakForgotten` | trading_engine/risk/risk_engine.py:92-102 | an input for it: after one stored equity of zero the measured peak is any negative equity that follows |
| `Drawdown.HaltFreezes` | trading_engine/risk/risk_engine.py:92-102 | the tick that records a halt puts the account's log in the frozen state |
| `Drawdown.FrozenInCash` | trading_engine/risk/risk_engine.py:36-42 | after a halt an account holding only cash stays in drawdown breach for all seven days, records no second halt, and is out of breach at the first tick after them |
| `Drawdown.ReplayStore.NoteDrawdownHalt` | scripts/replay_backtest.py:291-297 | the replay's single halt variable: set unless a halt is running |
| `Drawdown.ReplayTracksLog` | scripts/replay_backtest.py:291-304 | after every sequence of calls the variable is the newest halt of the event log |
| `Drawdown.ReplayPeaksExactly` | scripts/replay_backtest.py:299-304 | replay and live store measure the same peak, if and only if the counted best is not exactly zero with a negative current equity |
| `Drawdown.ReplayPeaksDiffer` | scripts/replay_backtest.py:299-304 | an input for it: one stored equity of zero, and a negative one now |
| `Supervisor.CountLosses` | trading_engine/supervisor.py:46-48 | the reflected counter loop: up on a loss, down on a win, never below zero |
| `Supervisor.CollectTotals` | trading_engine/supervisor.py:50-55 | the dictionary loop collects exactly the results of each strategy in each regime, in order |
| `Supervisor.EvaluateSupervisor` | trading_engine/supervisor.py:43-60 | the stake follows the loss count of the recent trades, and a pair is blocked exactly when its recent results say so |
| `Supervisor.BlocksExactly` | trading_engine/supervisor.py:50-60 | a strategy is blocked in a regime if and only if it has at least four results there, one for each time a trade names it, and they add up to a loss |
| `Supervisor.RecentExactly` | trading_engine/supervisor.py:44 | the trades that count are all those of the last 45 days and no others, oldest first |
| `Supervisor.RiskExactly` | trading_engine/supervisor.py:22-23 | the multiplier each loss count leaves |
| `Supervisor.RiskIsFraction` | trading_engine/supervisor.py:57-58 | the multiplier is positive and at most one |
| `Supervisor.CountIsMaximum` | trading_engine/supervisor.py:46-48 | from any starting count, the counter is the larger of the running total and the best suffix balance |
| `Supervisor.LossCountIsMaximum` | trading_engine/supervisor.py:46-48 | the counter is the maximum of losses minus wins over all suffixes of the recent trades |
| `Supervisor.OneMoreTrade` | trading_engine/supervisor.py:43-48 | one more trade, whenever it closed, moves the counter by at most one |
| `Supervisor.SortSorts` | trading_engine/supervisor.py:44 | the stable sort orders the trades and keeps them all |
| `Supervisor.FilterSort` | trading_engine/supervisor.py:44 | ageing out and sorting commute |
| `Supervisor.TimeNeverLowersRisk` | trading_engine/supervisor.py:43-48 | with no new trades the passage of time never lowers the risk multiplier |
| `Supervisor.EverythingExpires` | trading_engine/supervisor.py:43-60 | once every trade is older than the lookback the stake is full and nothing is blocked |
| `Indicators.EmaArray` | trading_engine/signals/indicators.py:12-18 | the array loop computes the exponential average of every prefix |
| `Indicators.EmaBetweenMinAndMax` | trading_engine/signals/indicators.py:12-18 | every EMA value lies between the smallest and the largest input |
| `Indicators.EmaScales` | trading_engine/signals/indicators.py:12-18 | scaling the inputs scales the EMA |
| `Indicators.EmaExactly` | trading_engine/signals/indicators.py:12-18 | the average starts at the first value and moves 2 / (span + 1) of the way to each one after it |
| `Indicators.RsiRange` | trading_engine/signals/indicators.py:57-64 | RSI is within 0..100 on every price series |
| `Indicators.RsiScaleFree` | trading_engine/signals/indicators.py:57-64 | scaling all prices by a positive factor leaves RSI unchanged |
| `Indicators.RsiIsShare` | trading_engine/signals/indicators.py:57-64 | RSI is the average gain in percent of average gain plus average loss, and 100 without losses |
| `Indicators.RsiDirection` | trading_engine/signals/indicators.py:57-64 | it is above 50 if and only if the average gain is the larger, and a larger gain never lowers it |
| `Indicators.RsiOfTrend` | trading_engine/signals/indicators.py:57-64 | prices that never fall have an RSI of 100, prices that only fall one of 0 |
| `Indicators.RangeExactly` | trading_engine/signals/indicators.py:51-54 | the true range spans the bar and reaches from the close before to either end, and no further |
| `Indicators.AtrScales` | trading_engine/signals/indicators.py:51-54 | scaling all prices scales ATR by the same factor |
| `Indicators.DxRange` | trading_engine/signals/indicators.py:30-48 | the directional index of every bar is within 0..100 |
| `Indicators.DxIsShare` | trading_engine/signals/indicators.py:30-48 | the directional index is the difference of the two directional moves in percent of their sum |
| `Indicators.AdxOfUptrend` | trading_engine/signals/indicators.py:30-48 | highs that keep rising over lows that do not fall have an ADX of 100 from one bar more than the period on, and of 0 before |
| `Indicators.AdxRange` | trading_engine/signals/indicators.py:30-48 | ADX is within 0..100 on every price series, even with highs below lows |
| `Indicators.AdxScaleFree` | trading_engine/signals/indicators.py:30-48 | scaling all prices by a positive factor leaves ADX unchanged |
| `SwapGuard.AdjustmentIsOnePercent` | android/app/src/main/java/com/neuravex/app/data/PolygonDexExecutionClient.kt:320-323 | the integer slippage is one percent, rounded down |
| `SwapGuard.ToRawCutsOff` | android/app/src/main/java/com/neuravex/app/data/PolygonDexExecutionClient.kt:314-318 | the raw amount never exceeds the human amount |
| `SwapGuard.ToRawExactly` | android/app/src/main/java/com/neuravex/app/data/PolygonDexExecutionClient.kt:314-318 | and lowers it by less than one smallest unit |
| `SwapGuard.RefusesExactly` | android/app/src/main/java/com/neuravex/app/data/PolygonDexExecutionClient.kt:135-159 | a buy passes if and only if the market price is known and the quote at most 5% above it; a sell unless the quote is more than 5% below a known one |
| `SwapGuard.SellExactly` | android/app/src/main/java/com/neuravex/app/data/PolygonDexExecutionClient.kt:79-102 | a sell is sent if and only if the wallet holds the raw amount, the pool quotes and the price is not refused; its limit is the quote less one percent, cut off |
| `SwapGuard.BuyExactly` | android/app/src/main/java/com/neuravex/app/data/PolygonDexExecutionClient.kt:135-159 | a buy is sent if and only if the pool quotes, the price is not refused and the wallet covers the quote and one percent of it, cut off, which is its limit |
| `SwapGuard.BuyNeverOverpays` | android/app/src/main/java/com/neuravex/app/data/PolygonDexExecutionClient.kt:135-159 | a guarded buy spends at most 1.05 x 1.01 times market value and at most the balance, through all integer rounding |
| `SwapGuard.SellNeverUnderpaid` | android/app/src/main/java/com/neuravex/app/data/PolygonDexExecutionClient.kt:79-102 | a guarded sell brings at least 0.95 x 0.99 of market value and sells at most the quantity and the balance |
| `SwapGuard.ReportedValue` | android/app/src/main/java/com/neuravex/app/data/ExecutionRepository.kt:110-143 | reported price times reported quantity is the quote leg of the swap, for either side |
| `Candles.SortTimes` | trading_engine/execution/public_market_data.py:194 | the bucket starts in ascending order, each once |
| `Candles.GroupBars` | scripts/replay_backtest.py:155-172 | filling the bucket dictionary and summarising it in order is the plain group-by, and each candle summarises its bucket |
| `Candles.ResampleSummarises` | scripts/replay_backtest.py:160-172 | every candle of the group-by opens with the first bar of its bucket, closes with the last, spans them from lowest low to highest high and adds up their volumes; every bar has its candle, and they come in order |
| `Candles.CompleteBarsAppend` | trading_engine/execution/yahoo_market_data.py:42-56 | a chart row counts if and only if all four prices are there; a missing volume is zero |
| `Candles.FourHourCandles` | trading_engine/execution/public_market_data.py:179-195 | the live 4h builder gives the last candles of the group-by of its hourly cache, for every cache |
| `Candles.RowsOfCache` | trading_engine/execution/public_market_data.py:179-195 | a cache filled with candles in order gives those candles back in order |
| `Candles.CandlesFromChart` | trading_engine/execution/yahoo_market_data.py:42-62 | the in-place fold of chart rows, whatever their order, is the group-by of the complete rows |
| `Candles.ResampleIs` | scripts/replay_backtest.py:160-172 | a list with the right starts and the right candle for each is the group-by: it is determined by its buckets |
| `Candles.ResamplePushed` | scripts/replay_backtest.py:160-172 | one more bar extends the last candle or opens a new one |
| `Candles.ResampleComposes` | trading_engine/execution/public_market_data.py:179-195 | aggregating to a fine timeframe and then to a multiple of it equals aggregating directly |
| `HourlyView.View.constructor` | scripts/replay_backtest.py:155-165 | the indexes agree with the group-by of the bars |
| `HourlyView.View.At` | scripts/replay_backtest.py:174-185 | the answer at any time is the last `limit` candles of the group-by of exactly the bars ended by then, if and only if `limit` is positive or no candle is forming; the price is the last ended close, and the whole answer is a function of the ended bars |
| `HourlyView.AnswerSummarises` | scripts/replay_backtest.py:174-185 | every candle shown summarises the ended bars of its bucket |
| `HourlyView.ZeroShowsOne` | scripts/replay_backtest.py:174-185 | an input for the exception: a quarter of an hour into any hour a query for no candles shows one |
| `HourlyView.LookupIsGroupBy` | scripts/replay_backtest.py:174-185 | the bisect slices plus the forming candle are that group-by |
| `HourlyView.AtIsGroupBy` | scripts/replay_backtest.py:174-185 | the group-by of the ended bars splits into indexed candles and at most one forming candle |
| `HourlyView.ClosedCandles` | scripts/replay_backtest.py:174-185 | the indexed candles before the current bucket are the group-by of the bars before it |
| `HourlyView.FormingCandle` | scripts/replay_backtest.py:178-184 | the ended bars of the current bucket add one candle |
| `HourlyView.SameAnswer` | scripts/replay_backtest.py:174-185 | no look-ahead: histories that agree on the bars ended by now give the same answer, for every limit |
| `HourlyView.LiveMatchesReplay` | trading_engine/execution/public_market_data.py:179-195 | live and replay candles agree: the live 4h builder over the hourly candles of the ended bars shows what the replay's 4h view of those bars shows |
| `Backtest.RunBacktest` | trading_engine/backtesting/engine.py:42-146 | the loop over the candles, with its in-place equity, peak, drawdown and open trade, is the fold the theorems below are about; it fails exactly when that fails |
| `Backtest.EntrySizeExactly` | trading_engine/backtesting/engine.py:118-125 | an entry is worth the smallest of the risk budget at 1.5 average true ranges, the position cap and the equity |
| `Backtest.ReportExactly` | trading_engine/backtesting/engine.py:138-146 | the report's win rate is the part of the trades that made money, and its return is relative to the start |
| `Backtest.TryExit` | trading_engine/backtesting/engine.py:87-112 | whether and why an open trade is closed, at which price and with what profit |
| `Backtest.FlatRoundTripLoses` | trading_engine/backtesting/engine.py:100-105 | in and out at one price loses twice the slippage and the exit fee, on either side |
| `Backtest.SamePast` | trading_engine/backtesting/engine.py:69-76 | the run up to a candle depends on the candles up to it only |
| `Backtest.Causal` | trading_engine/backtesting/engine.py:69-146 | running on a prefix of the candles gives exactly a prefix of the equity curve and of the closed trades, and every further trade closes later |
| `Backtest.TradesDisjoint` | trading_engine/backtesting/engine.py:86-132 | trades never overlap: each opens after the warm-up, closes later, and before the next opens |
| `Backtest.EquityIsRealised` | trading_engine/backtesting/engine.py:110-111 | final equity is the start plus the sum of the profits |
| `Backtest.CurveIsRealised` | trading_engine/backtesting/engine.py:134-137 | every point of the curve is the start plus the profits of exactly the trades closed by then |
| `EquityCurve.FallOrder` | trading_engine/backtesting/engine.py:134-136 | a fall to a level is the deeper the higher it starts if the level is not negative, and never otherwise |
| `EquityCurve.PeakFallIsDeepest` | trading_engine/backtesting/engine.py:134-136 | at each point the fall from the peak is the deepest fall from any earlier positive equity, if and only if the equity is not negative or nothing positive before was below the peak |
| `EquityCurve.DeepestFallIs` | trading_engine/backtesting/engine.py:134-136 | the deepest fall of a curve that starts positive is exactly the largest fall from its reference: the peak so far, or below zero the smallest positive level so far |
| `EquityCurve.OnePassExactly` | trading_engine/backtesting/engine.py:134-136 | the one-pass drawdown of a curve is its deepest fall if and only if no level below zero falls deeper from the smallest positive level before it |
| `Backtest.MarksCurve` | trading_engine/backtesting/engine.py:134-136 | the peak and drawdown a run carries are the maximum and the one-pass drawdown of its curve |
| `Backtest.DrawdownIsDeepestFall` | trading_engine/backtesting/engine.py:134-136 | the drawdown a run reports is the maximum over all earlier/later pairs of its curve if and only if no point below zero hides a deeper fall; so whenever equity never goes negative, and then it is at most 1 |
| `BacktestRuin.DrawdownRightExactly` | trading_engine/backtesting/engine.py:134-136 | over the settings alone: every run on non-negative prices reports its deepest fall if and only if the backtest is spot only and its stake is at most the equity |
| `BacktestRuin.StakeHidesFall` | trading_engine/backtesting/engine.py:86-137 | for every spot setting with a stake above the equity whose sales bring something, a run of the engine whose reported drawdown is not its deepest fall |
| `BacktestRuin.DefaultCostsHideFall` | trading_engine/backtesting/engine.py:48-60 | such a run at the engine's own fee, slippage, warm-up and thresholds, when the whole equity is risked on every trade |
| `BacktestRisk.SpotEquityNeverNegative` | tests/test_backtesting.py:42-45 | a spot backtest whose stake, the smaller of position cap and equity with slippage, fits the equity never goes negative, on any non-negative prices and decisions, so its drawdown is the deepest fall and at most 1 |
| `BacktestRuin.NeverNegativeExactly` | tests/test_backtesting.py:42-45 | over the settings alone: no run on non-negative prices ever goes below zero if and only if the backtest is spot only and its stake is at most the equity |
| `BacktestRuin.StakeRuins` | trading_engine/backtesting/engine.py:99-132 | when the stake is more than the equity, a spot run that ends in debt |
| `BacktestRisk.StaysFunded` | trading_engine/backtesting/engine.py:99-132 | equity always covers what the open position cost |
| `BacktestRisk.LongLosesAtMostCost` | trading_engine/backtesting/engine.py:100-105 | a long loses at most what it cost |
| `BacktestRisk.SizeScales` | trading_engine/risk/position_sizing.py:39-68 | a position is sized in proportion to the equity |
| `BacktestRisk.DecisionsAgree` | trading_engine/decision_engine.py:117-167 | two fees turn a signal into the same decision if and only if neither its expected return nor its score lies between what they ask for |
| `BacktestRisk.FeesNeverHelp` | tests/test_backtesting.py:47-52 | as long as no signal lies between the fees, a spot backtest whose stake is at most the equity has at the lower fee at least as much equity at every point, and holds the same entries in proportion until the dear one has lost everything |
| `BacktestFees.FeesExactly` | tests/test_backtesting.py:47-52 | for any two fees and any repertoire of signals with a buy and a sell that come through at either: no strategy on any non-negative prices ends poorer at the lower fee, if and only if the backtest is spot only, its stake is at most the equity, and no signal of the repertoire lies between the fees; and the same over the runs in which both trade |
| `BacktestFees.FeesExactlyAgreed` | tests/test_backtesting.py:47-52 | over the strategies whose decisions are the same at both fees it is a matter of the settings alone: spot only, and a stake of at most the equity |
| `BacktestFees.FeesCanHelp` | tests/test_backtesting.py:47-52 | at any two fees below 100%, a run that closes trades at both and ends richer at the higher fee |
| `BacktestFees.StakeRun` | trading_engine/backtesting/engine.py:99-132 | with a stake above the equity, such a run on equal decisions: the cheap run has more to lose, and owes more in the end |
| `BacktestFees.ShortRun` | trading_engine/backtesting/engine.py:99-132 | with shorts allowed, such a run on equal decisions: the dear run has nothing left for the short that ruins the cheap one |
| `BacktestFees.BuyBetweenRun` | trading_engine/decision_engine.py:139-172 | for every buy signal between the fees, such a run of a spot backtest within its stake |
| `BacktestFees.SellBetweenRun` | trading_engine/decision_engine.py:139-172 | for every sell signal between the fees, such a run of any spot backtest |
| `BacktestRuin.ShortsHideFall` | trading_engine/backtesting/engine.py:99-132 | with shorts allowed, for all costs and caps, a run that goes below zero and whose reported drawdown is not its deepest fall |
| `ConfigParser.ParseSimpleYaml` | backend/app/core/config.py:103-127 | the loop over the lines loads the mapping, or names the first unsupported line |
| `ConfigParser.Assign` | backend/app/core/config.py:118-126 | the pop loop, the assignment and the push; the stack and the dictionaries stay a tree |
| `ConfigParser.Feed` | backend/app/core/config.py:103-127 | after every text the indents on the stack increase strictly from the sentinel and the dictionaries form a tree |
| `ConfigParser.PopKeepsBase` | backend/app/core/config.py:118-119 | the sentinel is never popped, and exactly the blocks indented less than the line stay open |
| `ConfigParser.FailsAtFirstBroken` | backend/app/core/config.py:115-117 | reading fails if and only if some line is unsupported, with the number of the first |
| `ConfigParser.ReadsWrittenLine` | backend/app/core/config.py:111-121 | indentation, key and value written on a line are read back from it, comment and blanks stripping included |
| `ConfigParser.RunsTree` | backend/app/core/config.py:118-126 | the assignments of any tree, run on the innermost block indented less, add exactly that tree to its dictionary and change no other |
| `ConfigParser.ReadsTree` | backend/app/core/config.py:103-127 | feeding the written lines of a tree does the same |
| `ConfigParser.ReadsBack` | backend/app/core/config.py:103-127 | printing any tree of nested mappings, each block deeper than its key by an amount of its own, and parsing it returns the same tree |
| `PythonText.NumberReadsBack` | backend/app/core/config.py:93-97 | every number that int() or float() can return is read back from its printed form, as a whole number or a decimal as it was |
| `PythonText.QuotesAreNoNumbers` | backend/app/core/config.py:93-97 | no text that starts with a quote is read as a number |
| `ConfigParser.ScalarReadsBack` | backend/app/core/config.py:87-100 | every flag, null, number and text that a line can hold, quoted where needed, is read back as itself |
| `ConfigParser.KeywordsExactly` | backend/app/core/config.py:88-92 | a value is a flag or null if and only if it is one of the words for it, in any case |
| `ConfigParser.ReadIsShowable` | backend/app/core/config.py:109-123 | and nothing else can be written: whatever a line gives a key is such a scalar |
| `ConfigParser.ConfigurationRoundTrip` | backend/app/core/config.py:87-127 | every nested mapping of such scalars, numbers included, survives being written and read |
| `ConfigParser.BlankLinesIgnored` | backend/app/core/config.py:111-113 | blank and comment lines change nothing, wherever they stand and however they are indented |
| `ConfigParser.SaysNothing` | backend/app/core/config.py:111-113 | blanks alone, and a comment at any indentation, are such lines |
| `ConfigParser.CommentIgnored` | backend/app/core/config.py:111 | a comment after a line changes nothing about it |
| `ConfigParser.NotSupported` | backend/app/core/config.py:115-117 | a line without a colon, with nothing before it, or with a list item before it is unsupported |
| `ConfigParser.PutOverwrites` | backend/app/core/config.py:122-126 | a repeated key keeps its place and takes the new value |
| `ConfigLayout.ReadAsLaidOutExactly` | backend/app/core/config.py:103-127 | a text without an unsupported line, which is always read, lays out a tree and is read as what that means if and only if every deeper line follows a key without a value, every shallower one returns to a block still open, and no block repeats a key |
| `ConfigParser.LaidOutIsRead` | backend/app/core/config.py:103-127 | whatever tree a text lays out, that is what is read |
| `ConfigLayout.LineUnderScalarIsSibling` | backend/app/core/config.py:118-123 | a line indented under a scalar, however deep, is accepted as its sibling, and is no good layout |

## Left out

- HTTP, RPC and web3j calls, SQL sessions and isolation, Celery scheduling: endpoints, tasks and ticks are atomic steps.
- Floating-point rounding: amounts are `real`; times are whole seconds.
- The Android user interface, services, credentials, authentication, Docker: no hard logic.
- Strategies, regime detection and ensemble scoring: signals, regimes and decisions are arbitrary inputs, and the entry filters of the agent are one of them.
- The settings rows behind `ai_enabled` and live trading: the tick sees them as its `dryRun` input, and the kill switch step only cancels orders.
- Log text, reason strings, JSON sanitising and the opening and closing timestamps of ledger rows.
- Strategy statistics updated at closes: a rebuild applies them again, so `Backfill` speaks of positions only.
- Marking the simulated balances to market for a snapshot: the equity of a snapshot is an input.
- Wallet adoption and the dashboard's displayed drawdown: both bypass the fills and the halt log.
- Order placement: whether the exchange takes an order is an input of `AgentTick` and `CircuitBreaker`, except on the simulated exchange.
- AgentTick.ProcessSymbol: an order that is filled and whose result then cannot be stored counts as one not placed: the portfolio state stays unreserved, as in the source, and that the exchange holds the coins is not modelled.
- The hourly cache warm-up and retries of the price feed, and `ensureApproval` on the phone: they depend on external answers.
- Orders.ExecutionServer.ReportExecution: the endpoint accepts any status from any caller, and so does the model; the protocol theorems are over phones that follow `ExecutionRepository`.
- OrderProtocol.AtMostOnce: a phone that crashes forgets its work, so an order may stay claimed for ever; nothing is promised about progress.
- Backfill.RebuildMatchesReporting: needs non-zero fills, reported symbol by symbol in creation order, and no adopted holdings.
- Drawdown.FrozenInCash: snapshots during the halt repeat the cash equity, as an account without positions does.
- PaperTick.Tick: the account is in good order when nothing is negative, its open positions are its positive coin balances, in any order, and every price is fresh; and no sell is in flight, as a simulated account has none.
- SwapGuard.ReportedValue: says nothing of a swap with a zero leg, for which the phone reports no price.
- HourlyView.View.At: needs sorted bars aligned to a bar length that divides the timeframe, as the replay's data are.
- Backtest.RunBacktest: what the strategies and the regime make of a window is an arbitrary signal, whose average confidence, average expected return and score before costs are independent of one another; the gates on it are the engine's.
- BacktestRuin.DrawdownRightExactly: for a spot setting it needs fee and slippage below 100%, so that a sale brings something; the theorems about two fees need the same.
- ConfigParser.ReadsBack: lines are given, so the splitting of a text into lines is not modelled.
- PythonText.NumberReadsBack: floats are exact decimals, without rounding, overflow or underflow; digits are the ASCII ones, and the interpreter's limit on the length of an integer is not modelled.
- ConfigParser.ScalarReadsBack: texts that contain " #" have no written form at all (`ConfigParser.ReadIsShowable`).
- ConfigParser.Assign: the nested dictionaries are entries of an arena addressed by number instead of heap objects.
- Mutable candles and dictionaries of the candle builders are values of local maps, updated by the same loops.
- `adx` with a period of zero, and swaps of non-positive quantities, which the callers never ask for.
