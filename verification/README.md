# Verified model of the trading runtime's engines

A Dafny model of the stateful engines inside the trading runtime, with proofs of what they keep
over whole runs. `dafny verify dfyconfig.toml` checks everything.

Each engine has two faces. A *specification* module gives it as a transition system on values, one
function per operation, and proves properties of its runs. An *engine* module gives it as the program
keeps it, a class whose fields the methods update in place, and proves that every method takes exactly
the specified step, whatever order a hash map is visited in.

| engine | specification | in place |
|---|---|---|
| order management and cancel protocol | `OmsSpec`, `OmsInvariants`, `OmsOrigins`, `OmsReconcile`, `OmsInversion`, `OmsCancel`, `OmsFills`, `OmsFlow` | `OmsEngine`, `OmsTask` |
| average-cost accounting and the tape ledger | `TradeAccounting`, `TapeSpec` | `TapeEngine` |
| risk task: ledger copy, settlement, day trades | `RiskTaskSpec`, `DayBooks` | `RiskTask` |
| loss limits and exposure | `RiskLimits`, `ExposureSpec` | `RiskEngine` |
| time buffer and microstructure guards | `RecentLog`, `GuardSpec` | `TimeBuffer`, `Guards` |
| tiered watchlist | `WatchlistSpec`, `WatchlistInvariants`, `WatchlistEviction`, `WatchlistLaws` | `WatchlistEngine` |
| stream framing and the bounded channel | `Framing`, `QosSpec` | `BridgeRx` |
| latency supervision | `LatencyTracker` | `LatencyTracker` |

Conventions: prices and amounts are reals, timestamps and market days naturals, and integers unbounded.
A list returned in hash-map order is a set. What the program takes from clocks, sockets, files and
time zones is a parameter: the time `now`, the market day, the bytes read, the set of orders whose
cancel command reached the bridge, the verdict of the blocklist file, and the flicker guard's verdict
on each tape event. The decoder is any function whose frames and corruption verdicts do not change
when bytes follow.

Where the program and its documents differ, the model follows the program:

- CANCEL_FLOW.md calls Cancelled and CancelRejected terminal; a fill, a status message or a sync line can
  take an order out of them (`OmsCancel.FinalStatusIsLeftExactly` says exactly when).
- CANCEL_FLOW.md escalates only CancelSent, at 5000 ms or more; the program also escalates
  PendingCancel, and only past the limit.
- WATCHLIST_LIFECYCLE.md demotes and evicts when inactivity exceeds the limits; the program does so when
  it reaches them. With D = 0 demotion acts as for D = 1, and with E = 0 a cooldown still lasts one call.
- The day-trade rule is FINRA Rule 4210(f)(8)(B). The program's window uses differences of day numbers,
  not business days, and counts a sale only when the symbol's previous fill was a buy of that day.
- The bridge receiver's heading speaks of batches of at most 512 events; the loop has no such limit.
- The guards' window, staleness and blocking periods are named milliseconds; the tape engine passes them
  event timestamps in microseconds (rust/crates/tape_engine/src/lib.rs:150). The model compares bare
  numbers, as the guards do.
- A guard with a maximum flicker count of zero never reports a flicker: its buffer has no room
  (`GuardSpec.BoundedGuardIsExactIffPositive`).

## Model

| member | source | states |
|---|---|---|
| OmsReconcile.ReconcileTwice | rust/crates/execution_engine/src/lib.rs:218-292 | For any list, duplicate ids included, reconciling twice leaves the state of reconciling once; the second call's stale ids are exactly the first call's that the list mentions |
| OmsReconcile.SecondSyncFindsNothing | rust/crates/execution_engine/src/lib.rs:218-292 | If every known broker id names an order that answers to it, the second identical sync changes nothing and reports nothing stale |
| OmsReconcile.SecondSyncIsQuietIffInverted | rust/crates/execution_engine/src/lib.rs:218-292 | In any well-formed state, the second of two identical syncs is quiet for every list exactly when the broker map inverts the orders' broker ids; an order acknowledged under two broker ids is a witness of the other case (`SecondSyncMayRepeat`) |
| OmsInversion.ApplyInverts | rust/crates/execution_engine/src/lib.rs:76-85 | Each operation keeps the broker map inverse to the orders' broker ids exactly when it gives no order a second broker id |
| OmsInversion.AbsorbAllInverts | rust/crates/execution_engine/src/lib.rs:222-265 | A sync keeps the inversion exactly when no line re-identifies an order at the moment it is absorbed |
| OmsInversion.RepeatedSyncIsQuiet | rust/crates/execution_engine/src/lib.rs:218-292 | After any run without second broker ids, repeating a sync changes nothing and reports nothing |
| OmsReconcile.ReconcilePurges | rust/crates/execution_engine/src/lib.rs:267-291 | Afterwards every working order has a listed broker id, and the returned ids are exactly the orders phase 2 turned Cancelled; nobody else moved in phase 2 |
| OmsReconcile.LastReportWins | rust/crates/execution_engine/src/lib.rs:222-265 | Phase 1 leaves each mentioned order with the last line that speaks about it, and each other order untouched |
| OmsReconcile.LastLineIsBelieved | rust/crates/execution_engine/src/lib.rs:222-291 | For any list, the order behind a line that speaks last has that line's fill data, and its status unless phase 2 cancelled it |
| OmsReconcile.BrokerIsBelieved | rust/crates/execution_engine/src/lib.rs:222-291 | With distinct lines, an inverted map and no re-identification, every reported order ends with the broker's status, filled quantity and average price |
| OmsReconcile.DistinctLinesLeadApart | rust/crates/execution_engine/src/lib.rs:225-264 | Under the same conditions two lines never lead to the same order |
| OmsInvariants.ApplyKeeps | rust/crates/execution_engine/src/lib.rs:40-292 | Every operation keeps the three maps in agreement, forgets no order, key or broker id, and reissues no order id |
| OmsInvariants.RunKeeps | rust/crates/execution_engine/src/lib.rs:40-292 | The same over any run: ids are fresh, maps point at existing orders, a cached key never changes its target |
| OmsInvariants.ClientKeysAreUnique | rust/crates/execution_engine/src/lib.rs:45-71 | In no reachable state do two orders share a nonempty client key |
| OmsInvariants.PlaceIsIdempotent | rust/crates/execution_engine/src/lib.rs:40-74 | However much happens in between, placing a request with a used key returns the first id, changes nothing, and the order still has the first terms |
| OmsInvariants.NewIdsAreFresh | rust/crates/execution_engine/src/lib.rs:49-71 | A new key receives an id no order ever had, and exactly one order is added |
| OmsOrigins.OrdersHaveOrigins | rust/crates/execution_engine/src/lib.rs:40-265 | In every reachable state each order has, for life, the client key, symbol, side, quantity, type, prices and creation time of a request placed or a line synced in the run |
| OmsOrigins.UnknownLineIsImportedWhole | rust/crates/execution_engine/src/lib.rs:241-263 | A distinct line with an unknown broker id and no known client id becomes a new order equal to the line in every field but the order id, and phase 2 leaves it |
| OmsOrigins.SyncTouchesReportsOnly | rust/crates/execution_engine/src/lib.rs:218-292 | A sync rewrites nothing of a known order but its broker id, status and fill data |
| OmsCancel.CancelPathFollowsTheFlow | rust/crates/execution_engine/src/lib.rs:124-214 | Each cancel-path operation changes a status only along its own edge, and only of the named order |
| OmsCancel.CancelPathRaisesRank | rust/crates/execution_engine/src/lib.rs:124-214 | Every status change on the cancel path strictly raises the rank Pending/Live, PendingCancel, CancelSent, CancelTimeout, final; nothing but status and time stamp moves |
| OmsCancel.CancelPathTerminates | rust/crates/execution_engine/src/lib.rs:124-214 | Over any run of cancel-path operations, the number of status changes of an order is bounded by the rank it gained |
| OmsFlow.CancelAnswers | rust/crates/execution_engine/src/lib.rs:122-145 | Each of the four answers is given exactly for its own statuses; only the positive one changes anything, and only the named order |
| OmsFlow.CancelMessagesMoveExactly | rust/crates/execution_engine/src/lib.rs:147-176 | An acknowledgement cancels exactly PendingCancel, CancelSent and CancelTimeout, a refusal ends exactly the first two, sending moves exactly the first; all stamped, nobody else moved |
| OmsFlow.AcceptedCancelIsResolved | rust/crates/execution_engine/src/lib.rs:124-176 | Over any run: an accepted cancel that nothing else reports on ends Cancelled at its first acknowledgement, even after escalation; its first refusal ends it CancelRejected exactly if it was not escalated |
| OmsCancel.CancelsSentAreBounded | rust/crates/execution_engine/src/lib.rs:122-145 | Over a whole run, positive answers to cancelling one order are at most one more than the fills, status messages and sync lines that touched it |
| OmsCancel.FinalStatusIsLeftExactly | rust/crates/execution_engine/src/lib.rs:87-292 | In any well-formed state an operation takes an order out of Cancelled, CancelRejected, Rejected or Filled exactly when it is a fill of it (of a filled order, one that leaves it short), a status message with another status, or a sync whose last line about it says otherwise and is not undone by phase 2 |
| OmsCancel.CancelledIsLeftExactly | rust/crates/execution_engine/src/lib.rs:87-292 | When the broker map inverts, a cancelled, refused or rejected order leaves that status exactly on a fill, a status message or a last sync line that says otherwise; a late partial fill is the witness (`FillRevivesCancelled`) |
| OmsCancel.FinalStatusLastsExactly | rust/crates/execution_engine/src/lib.rs:40-292 | Over any run, a final status is held after every operation exactly when no operation of the run revives the order |
| OmsCancel.UnmentionedIsKept | rust/crates/execution_engine/src/lib.rs:222-291 | A sync that does not mention an order leaves it alone, or cancels it as stale |
| OmsCancel.TimerTickLeavesNothingOverdue | rust/crates/app_runtime/src/lib.rs:209-256 | After a timer tick no order is working past 30 s or cancelling past the cancel timeout |
| OmsFlow.TickMovesExactly | rust/crates/app_runtime/src/lib.rs:209-256 | A tick moves exactly the working orders older than 30 s, to CancelSent or PendingCancel by delivery and stamped, and the cancels older than the limit; every other order is unchanged |
| OmsFlow.WorkingOrderIsCancelledOnTime | rust/crates/app_runtime/src/lib.rs:209-256 | With timer period P, a working order nothing else touches keeps working until the first tick past 30 s, at most 30 s + P after its creation, and that tick cancels it |
| OmsFlow.SweepsMoveExactly | rust/crates/execution_engine/src/lib.rs:179-214 | The rejecting and the expiring sweep move exactly the orders strictly older than their limit |
| OmsCancel.CancelEscalatesInTime | rust/crates/app_runtime/src/lib.rs:209-256 | With timer period P and cancel timeout L, an undisturbed unresolved cancel is escalated by the first tick past its deadline, at most L + P after its last update, and stays escalated |
| OmsFills.FillsAreConserved | rust/crates/execution_engine/src/lib.rs:87-109 | Over any run that does not overwrite the order, filled quantity and quantity times average price grow by exactly the fills |
| OmsFills.AveragePriceOfNewOrder | rust/crates/execution_engine/src/lib.rs:87-109 | A new order's average price is total value over total shares and lies between its lowest and highest fill price |
| OmsFills.StatusAfterFill | rust/crates/execution_engine/src/lib.rs:101-107 | Right after a fill an order is Filled exactly when the running total reached its quantity, otherwise Live |
| OmsFlow.FillMovesItsOrder | rust/crates/execution_engine/src/lib.rs:87-109 | A fill stamps its order and touches only its status and fill data; Filled and Live each exactly when the total does or does not reach the quantity |
| OmsFlow.StatusMessageRebases | rust/crates/execution_engine/src/lib.rs:111-120 | A status message is believed, its price only if positive; afterwards the fill data is the message's plus the fills that follow |
| OmsFlow.AckedOrderAnswers | rust/crates/execution_engine/src/lib.rs:76-85 | After an acknowledgement the order answers to the broker id and is Live exactly if it was Pending or Live |
| OmsFlow.PlacedOrderIsPending | rust/crates/execution_engine/src/lib.rs:49-71 | A new key files exactly one order: pending, unfilled, without broker id, stamped twice |
| OmsEngine.OrderManagementSystem.PlaceOrder | rust/crates/execution_engine/src/lib.rs:40-74 | In place: a known key returns its order, a new one creates a Pending order under the next id |
| OmsEngine.OrderManagementSystem.HandleAck | rust/crates/execution_engine/src/lib.rs:76-85 | In place: records the broker id and moves Pending to Live |
| OmsEngine.OrderManagementSystem.HandleFill | rust/crates/execution_engine/src/lib.rs:87-109 | In place: the specified fill step |
| OmsEngine.OrderManagementSystem.HandleStatus | rust/crates/execution_engine/src/lib.rs:111-120 | In place: the broker's status and quantity, its price when positive |
| OmsEngine.OrderManagementSystem.CancelOrder | rust/crates/execution_engine/src/lib.rs:124-145 | In place: marks a working order once, ignores a repeated request, refuses final states and unknown ids |
| OmsEngine.OrderManagementSystem.MarkCancelSent | rust/crates/execution_engine/src/lib.rs:147-154 | In place: PendingCancel to CancelSent only |
| OmsEngine.OrderManagementSystem.HandleCancelAck | rust/crates/execution_engine/src/lib.rs:156-166 | In place: an unresolved or expired cancel becomes Cancelled |
| OmsEngine.OrderManagementSystem.HandleCancelReject | rust/crates/execution_engine/src/lib.rs:168-176 | In place: an unresolved cancel becomes CancelRejected |
| OmsEngine.OrderManagementSystem.CheckTimeouts | rust/crates/execution_engine/src/lib.rs:188-199 | Returns exactly the Pending and Live orders created more than the timeout ago |
| OmsEngine.OrderManagementSystem.FindTimedOutOrders | rust/crates/execution_engine/src/lib.rs:179-186 | Returns the same set, by the ids in the records |
| OmsEngine.OrderManagementSystem.CheckCancelTimeouts | rust/crates/execution_engine/src/lib.rs:201-214 | Expires in place, and returns, exactly the PendingCancel and CancelSent orders last updated more than the timeout ago |
| OmsEngine.OrderManagementSystem.ReconcileState | rust/crates/execution_engine/src/lib.rs:218-292 | Both phases in place, equal to the specified reconciliation for every iteration order |
| OmsEngine.OrderManagementSystem.AbsorbOrder | rust/crates/execution_engine/src/lib.rs:223-264 | One line: known broker id, else known client id, else import |
| OmsEngine.OrderManagementSystem.CancelStale | rust/crates/execution_engine/src/lib.rs:267-289 | Phase 2 in place |
| OmsTask.TimerBranch | rust/crates/app_runtime/src/lib.rs:209-256 | The timer branch step by step moves exactly the overdue orders, as the tick does, and leaves nothing overdue |
| OmsTask.HeartbeatBranch | rust/crates/app_runtime/src/lib.rs:356-368 | Parks as Rejected exactly the Pending and Live orders older than five seconds |
| OmsTask.CancelCommand | rust/crates/app_runtime/src/lib.rs:392-424 | Marks exactly a Pending or Live order and, when the command was delivered, marks it sent at the same instant; otherwise changes nothing |
| TradeAccounting.FillMovesCash | rust/crates/core_types/src/trade_accounting.rs:5-63 | One fill of any kind changes realized PnL less position cost by exactly its cash |
| TradeAccounting.BookRefinesCash | rust/crates/core_types/src/trade_accounting.rs:5-63 | Over any fills the position is the net shares, and realized PnL less cost is the net cash |
| TradeAccounting.FlatBookHasRealizedItsCash | rust/crates/core_types/src/trade_accounting.rs:21-45 | Whenever fills from flat net to zero, realized PnL is their net cash |
| TradeAccounting.UnrealizedIsValueLessCost | rust/crates/core_types/src/trade_accounting.rs:49-63 | Unrealized PnL is position times mark less cost, long, short or flat |
| TradeAccounting.CostStaysWithinPrices | rust/crates/core_types/src/trade_accounting.rs:5-17 | The average cost of an open position stays between the lowest and highest fill price |
| TradeAccounting.ReducingKeepsAvgCost | rust/crates/tape_engine/src/lib.rs:284-309 | Reducing without closing or flipping keeps the average cost |
| TapeSpec.PnlIsCashPlusMarkedPosition | rust/crates/tape_engine/src/lib.rs:234-330 | From an empty engine, without a sync, each symbol's realized plus unrealized PnL is its cash plus its shares at the last mark: a tick's price, or at a fill the tape price if there is one, else the fill's |
| TapeSpec.TotalPnlIsAccountValue | rust/crates/tape_engine/src/lib.rs:234-330 | And the engine's two totals together are the sum of that over all symbols |
| TapeSpec.TapeKeepsTheBook | rust/crates/tape_engine/src/lib.rs:259-330 | The engine's book of a symbol is the plain book fed the admitted fills, its price the last tick's since the last reconnect, and it stays marked at the last mark, both read off the events alone |
| TapeSpec.SyncAdoptsBrokerPositions | rust/crates/tape_engine/src/lib.rs:175-191 | After an admitted sync each symbol has quantity and cost of the last line that names it, or none, and no unrealized PnL; realized PnL, prices and histories stay |
| TapeSpec.PnlAcrossSync | rust/crates/tape_engine/src/lib.rs:175-330 | The cash law across a sync: later fills act on a book opened at the broker's line, and the PnL is what was realized before plus later cash plus all shares at their mark, less the cost the broker named |
| TapeSpec.OnEventBalances | rust/crates/tape_engine/src/lib.rs:147-193 | Every event, syncs, reconnects and rejected ones included, keeps the totals equal to the sums over symbols and a flat symbol's unrealized PnL zero |
| TapeSpec.RunsBalance | rust/crates/tape_engine/src/lib.rs:147-193 | The same over any run |
| TapeSpec.OnlySyncLeavesRiskBehind | rust/crates/tape_engine/src/lib.rs:234-257 | Fills and ticks on open positions tell the risk state the total PnL; once told, only a sync that forgets unrealized PnL leaves it behind |
| TapeSpec.RiskKnowsTotal | rust/crates/tape_engine/src/lib.rs:234-342 | Over any run without a sync the risk state's PnL is the engine's total |
| TapeSpec.HistoryIsLastWindow | rust/crates/tape_engine/src/lib.rs:220-232 | With time-ordered ticks the trade deque is the last 30 s of all admitted ticks, or the newest 2000 of them |
| TapeSpec.TradingRatchetsToPeak | rust/crates/tape_engine/src/lib.rs:240-253 | On a tightening ladder, trading leaves the loss limit that belongs to the peak of the PnL reported to the risk state |
| TapeEngine.TapeEngine.OnEvent | rust/crates/tape_engine/src/lib.rs:147-193 | In place: the specified event step and the PnL report to the risk state; a rejected event is answered as flicker, a tick with the entry decision on the state and limit it leaves behind |
| TapeEngine.TapeEngine.ProcessTick | rust/crates/tape_engine/src/lib.rs:199-257 | In place: price, history and mark-to-market of one symbol, the totals, the PnL report, then the entry decision |
| TapeEngine.TapeEngine.TrimHistory | rust/crates/tape_engine/src/lib.rs:220-231 | Prunes old trades from the front, then one more if full |
| TapeEngine.TapeEngine.ProcessFill | rust/crates/tape_engine/src/lib.rs:259-342 | In place, branch by branch: open, add, reduce, close, flip, the totals and the PnL report |
| TapeEngine.TapeEngine.AdoptPositions | rust/crates/tape_engine/src/lib.rs:175-191 | In place: flatten everything, then take the broker's positions |
| TapeEngine.TapeEngine.OpenSymbols | rust/crates/tape_engine/src/lib.rs:396-407 | Two distinct open symbols, or all when fewer, in any iteration order |
| TapeEngine.TapeEngine.EvaluateEntry | rust/crates/tape_engine/src/lib.rs:367-530 | Decides exactly as tier, the risk state's entry check, the other gates and exposure say, with the verdict that belongs to the first refusal; the last exposure gate never rejects when reached |
| RiskTaskSpec.ThreeLedgersAgree | rust/crates/app_runtime/src/lib.rs:263-335 | On the same fills without a sync, the risk task's book and the OMS task's position equal the tape engine's |
| RiskTaskSpec.LedgersAgreeIff | rust/crates/app_runtime/src/lib.rs:263-335 | Over any sync-free run and any fills given to the tasks: the copies' quantities agree exactly when both saw the same net shares, the cash behind them exactly when both saw the same net cash, their PnL at every mark exactly when both |
| RiskTaskSpec.DroppedFillsSeparateIff | rust/crates/tape_engine/src/lib.rs:149-150 | When the tasks get every fill and the tape only those the flicker guard admits, quantities differ exactly when the dropped fills do not net to zero shares, and PnL differs at some mark exactly when they do not net to zero shares and zero cash |
| RiskTaskSpec.DeskBalances | rust/crates/app_runtime/src/lib.rs:484-493 | The risk task's realized total is the sum over its books |
| RiskTaskSpec.RiskKnowsRealized | rust/crates/app_runtime/src/lib.rs:451-548 | After any fills the risk state's PnL is the desk's realized total |
| RiskTaskSpec.LockedCashIsRecentSales | rust/crates/app_runtime/src/lib.rs:508-530 | The cash locked on a day is the cash the ledger received for every sale of that market day or later |
| RiskTaskSpec.DayTradesAreSalesAfterSameDayBuys | rust/crates/app_runtime/src/lib.rs:505-543 | With ascending days the recorded day trades are exactly the sales whose symbol's previous fill was a buy of the same day; a window query on the pruned deque is exact if and only if no day trade in that window is outgrown by a later one, so always for today |
| RiskTaskSpec.DeskRecordsDayTradesUpTo | rust/crates/app_runtime/src/lib.rs:505-543 | After every fill of an ascending history the deque is what recording those day trades, and no others, leaves |
| RiskTask.RiskDesk.UpdatePosition | rust/crates/app_runtime/src/lib.rs:453-503 | In place: the risk task's copy of the position arithmetic |
| RiskTask.RiskDesk.HandleFill | rust/crates/app_runtime/src/lib.rs:451-548 | In place: position, buy tracker, settlement, day trade and PnL update of one fill |
| RiskTask.OmsPositions.HandleFill | rust/crates/app_runtime/src/lib.rs:263-335 | In place: the OMS task's copy of the position arithmetic |
| RiskLimits.LimitFollowsPeak | rust/crates/risk_engine/src/lib.rs:85-116 | On a tightening ladder the limit is the least of its start and the ladder's limit at the highest PnL seen |
| RiskLimits.PeakRuleIffTightens | rust/crates/risk_engine/src/lib.rs:101-116 | For a sorted ladder the peak rule holds for all PnL histories exactly when, capped by the limit in force, no step that applies is looser than a lower one or than the initial limit; a step behind another of its threshold, or looser than the limit in force, does no harm |
| RiskLimits.RatchetIsTightestSeen | rust/crates/risk_engine/src/lib.rs:101-116 | On any ladder it is the least of its start and the limits of the PnLs seen |
| RiskLimits.TerminationIsSticky | rust/crates/risk_engine/src/lib.rs:187-192 | A PnL that terminates now would terminate after any later updates |
| RiskLimits.StopsExactlyAtALimitSeen | rust/crates/risk_engine/src/lib.rs:187-192 | After any updates trading stops exactly when the loss reaches the starting limit or the ladder's limit at some PnL seen so far |
| RiskLimits.LadderNeverLoosens | rust/crates/risk_engine/src/lib.rs:85-94 | Loading a ladder at any time loosens nothing, keeps every step in threshold order, and leaves the limit as it was or at the ladder's limit for the current PnL |
| RiskLimits.SortIsStable | rust/crates/risk_engine/src/lib.rs:88-92 | Sorting the ladder ascends by threshold and keeps the steps of each threshold in order |
| RiskLimits.HigherProfitTightens | rust/crates/risk_engine/src/lib.rs:101-109 | On a tightening ladder a higher profit never has a looser limit than a lower one |
| RiskLimits.DecidingStep | rust/crates/risk_engine/src/lib.rs:101-109 | The limit at a profit is that of the highest step it has reached, or the initial one below them all |
| RiskEngine.RiskState.SetRiskLadder | rust/crates/risk_engine/src/lib.rs:85-94 | In place: sorts and ratchets |
| RiskEngine.RiskState.UpdatePnl | rust/crates/risk_engine/src/lib.rs:96-99 | In place: records and ratchets |
| RiskEngine.RiskState.UpdateRiskLimits | rust/crates/risk_engine/src/lib.rs:101-116 | The loop finds the last step reached and only ever lowers the limit |
| RiskEngine.RiskState.AvailableCash | rust/crates/risk_engine/src/lib.rs:236-244 | Never negative, never less than total less locked cash, and exactly that when positive |
| RiskEngine.RiskState.CheckEntry | rust/crates/risk_engine/src/lib.rs:141-185 | Accepts exactly when every gate does, and gives each reason exactly when its gate is the first to refuse |
| DayBooks.PrunedCountIsFullCount | rust/crates/risk_engine/src/pdt.rs:35-53 | For any log and a day not before any recorded one the pruned deque counts what the full log counts |
| DayBooks.CountIsRecentTrades | rust/crates/risk_engine/src/pdt.rs:35-40 | The count is the number of logged trades less than five days old |
| DayBooks.PrunedCountIsExactIff | rust/crates/risk_engine/src/pdt.rs:35-53 | With days ascending and for any query day, the pruned count is the full count exactly when no trade in that day's window lies five days or more before a recorded day |
| DayBooks.DroppedTradesDecide | rust/crates/risk_engine/src/pdt.rs:35-53 | For any log, in any order of days, the counts agree exactly when no pruned trade lies in the query day's window |
| DayBooks.RecordDropsPrefix | rust/crates/risk_engine/src/pdt.rs:43-53 | The deque is the log without a prefix that some later recording day had left behind |
| DayBooks.LockedIsRecentProceeds | rust/crates/risk_engine/src/lib.rs:236-244 | Locked cash is the proceeds of sales of today's market day or later |
| RiskEngine.PdtGuard.RecordDayTrade | rust/crates/risk_engine/src/pdt.rs:43-53 | In place: append, then prune from the front |
| RiskEngine.PdtGuard.DayTradeCountLast5Days | rust/crates/risk_engine/src/pdt.rs:35-40 | Counts the trades less than five days old |
| RiskEngine.PdtGuard.WouldViolate | rust/crates/risk_engine/src/pdt.rs:56-58 | True exactly when at least the maximum number of kept trades is less than five days old |
| ExposureSpec.RunsStayContained | rust/crates/risk_engine/src/exposure.rs:77-128 | When entries are filled before the next decision and other fills only reduce, at most two symbols are open and any two have known different sectors and stored correlation below 0.5 |
| ExposureSpec.EntryStaysContained | rust/crates/risk_engine/src/exposure.rs:77-128 | An accepted symbol was not open, and fits the one that may be |
| ExposureSpec.AllowsExactlyContained | rust/crates/risk_engine/src/exposure.rs:77-128 | Beside contained positions an entry is allowed exactly when its symbol is not open and opening it keeps them contained |
| ExposureSpec.CorrelationIsSymmetric | rust/crates/risk_engine/src/exposure.rs:30-33 | A stored correlation is read back in either order and disturbs no other pair; the entry rule is symmetric |
| RiskEngine.ExposureValidator.SetCorrelationOf | rust/crates/risk_engine/src/exposure.rs:30-33 | In place, under the ordered pair |
| RiskEngine.ExposureValidator.CheckNewPosition | rust/crates/risk_engine/src/exposure.rs:77-128 | Decides exactly the exposure rule |
| TimeBuffer.TimeRingBuffer.Push | rust/crates/core_types/src/time_buffer.rs:29-39 | The circular buffer with its spare slot appends and keeps the newest entries up to its capacity |
| TimeBuffer.TimeRingBuffer.PruneExpired | rust/crates/core_types/src/time_buffer.rs:41-63 | Drops expired entries from the front, stopping at the first valid one |
| TimeBuffer.TimeRingBuffer.Len | rust/crates/core_types/src/time_buffer.rs:65-71 | The length of the queue it represents |
| TimeBuffer.TimeRingBuffer.Items | rust/crates/core_types/src/time_buffer.rs:77-84 | Iteration yields the queue's items from oldest to newest |
| TimeBuffer.TimeRingBuffer.constructor | rust/crates/core_types/src/time_buffer.rs:13-27 | An empty queue with one slot more than asked for |
| TimeBuffer.MinMax | rust/crates/core_types/src/time_buffer.rs:86-110 | For items under any strict order: one of the queue's items that none is below and one that none is above, nothing exactly when it is empty |
| TimeBuffer.RingPush | rust/crates/core_types/src/time_buffer.rs:29-39 | On index arithmetic alone: evict, write and advance is append and keep the last |
| RecentLog.PushThenPrune | rust/crates/core_types/src/time_buffer.rs:29-63 | Push and prune keep the buffer equal to the newest fresh entries of the whole log |
| RecentLog.PruneThenPush | rust/crates/tape_engine/src/lib.rs:220-232 | Prune, make room and push do the same for the trade history |
| GuardSpec.BoundedGuardIsExactIffPositive | rust/crates/risk_engine/src/guards.rs:90-117 | For every timely run the fixed buffer gives the verdicts of a guard that remembers everything, exactly when the maximum is at least one |
| GuardSpec.TrackRepresents | rust/crates/risk_engine/src/guards.rs:109-114 | The buffer exceeds the maximum exactly when the whole log does in the window, even after overwrites |
| GuardSpec.LatchHoldsForTtl | rust/crates/risk_engine/src/guards.rs:99-104 | During a trip's period every operation is refused for the same reason, and nothing prolongs it or enters the window |
| GuardSpec.TripBlocksExactlyForTtl | rust/crates/risk_engine/src/guards.rs:99-216 | A trip refuses everything for its reason for exactly its period; from then on a check is judged on the quote alone |
| GuardSpec.QuotePassesExactly | rust/crates/risk_engine/src/guards.rs:134-203 | A quote passes exactly when it is recent, tight, liquid, balanced and near the midpoint, and is refused for the first of these it fails |
| GuardSpec.LastUpdateIsLastHeard | rust/crates/risk_engine/src/guards.rs:90-203 | Over any run the update time is that of the last tracked event or passed check |
| Guards.GuardState.TrackEvent | rust/crates/risk_engine/src/guards.rs:90-117 | In place: latch, push, prune, trip |
| Guards.GuardState.CheckExecution | rust/crates/risk_engine/src/guards.rs:134-203 | In place: latch, then the first violated guard trips, else the latch clears |
| WatchlistInvariants.ReachableSizes | rust/crates/watchlist_engine/src/lib.rs:208-407 | In every reachable watchlist no symbol is in two places, entries name their map, exactly A and B are subscribed and tick-ready, and the sizes obey 20, 95 and 295 |
| WatchlistInvariants.RunsAreSound | rust/crates/watchlist_engine/src/lib.rs:208-407 | Those facts are inductive together |
| WatchlistInvariants.ApplyKeepsSound | rust/crates/watchlist_engine/src/lib.rs:208-407 | Every operation keeps them |
| WatchlistInvariants.UnreachableErrors | rust/crates/watchlist_engine/src/lib.rs:253-255 | A full tier B and an unready tier B symbol are never reported |
| WatchlistLaws.PromotionAnswers | rust/crates/watchlist_engine/src/lib.rs:243-308 | In a sound watchlist each answer to a promotion is given exactly under its own condition |
| WatchlistLaws.PromotionMovesExactly | rust/crates/watchlist_engine/src/lib.rs:243-308 | A promoted symbol is one tier up, subscribed as pending if it came from C and otherwise as it was; nobody else moves, and any other answer changes nothing |
| WatchlistLaws.DemotionMovesExactly | rust/crates/watchlist_engine/src/lib.rs:310-336 | A demoted symbol is one tier down, unsubscribed if it fell to C, gone if it was there; nobody else moves |
| WatchlistLaws.AdmissionMovesExactly | rust/crates/watchlist_engine/src/lib.rs:208-241 | Each answer under its own condition; an added symbol starts afresh in C and nobody else moves but, when C is full, its least recently active symbol, which cools down |
| WatchlistLaws.LifecycleMovesExactly | rust/crates/watchlist_engine/src/lib.rs:338-402 | Where every symbol stands after a lifecycle call: aged by one, one tier down exactly if poor, thin or idle too long, evicted exactly if idle for the eviction time |
| WatchlistLaws.CountersTellHistory | rust/crates/watchlist_engine/src/lib.rs:338-428 | While a symbol stays listed its counters are its history: ticks, lifecycle calls since the last tick, time of the last touch, last rating |
| WatchlistLaws.TickingSymbolStays | rust/crates/watchlist_engine/src/lib.rs:338-414 | A good enough symbol of A or B that ticks at least once in every D - 1 lifecycle calls is never sent down by them |
| WatchlistEviction.IdleSymbolLeaves | rust/crates/watchlist_engine/src/lib.rs:338-402 | A symbol not ticked, promoted or re-added is in no tier after max(max(D,1)+2, E) lifecycle calls, whatever else happens |
| WatchlistEviction.PatienceIsTight | rust/crates/watchlist_engine/src/lib.rs:338-402 | And one call earlier it can still be listed |
| WatchlistEviction.EvictedSymbolWaitsExactly | rust/crates/watchlist_engine/src/lib.rs:208-216 | A symbol evicted by a lifecycle call is refused for exactly max(1, E) further calls |
| WatchlistEviction.CoolingIsRefused | rust/crates/watchlist_engine/src/lib.rs:208-216 | A cooling symbol counts down one per call and is refused until the wait is over |
| WatchlistEviction.CooledIsAdmitted | rust/crates/watchlist_engine/src/lib.rs:358-364 | The call that completes the wait admits it |
| WatchlistEviction.LifecycleIsPointwise | rust/crates/watchlist_engine/src/lib.rs:338-402 | The sweep over all maps acts on each symbol separately, judging demotion and eviction before anyone moves |
| WatchlistEngine.WatchlistEngine.AddCandidate | rust/crates/watchlist_engine/src/lib.rs:208-241 | In place: refusals, eviction of an oldest symbol when full, insertion in tier C |
| WatchlistEngine.WatchlistEngine.FindOldest | rust/crates/watchlist_engine/src/lib.rs:221-226 | A symbol of tier C with the least recent activity |
| WatchlistEngine.WatchlistEngine.PromoteSymbol | rust/crates/watchlist_engine/src/lib.rs:243-308 | In place: C to B to A with every error case |
| WatchlistEngine.WatchlistEngine.DemoteSymbol | rust/crates/watchlist_engine/src/lib.rs:310-336 | In place: A to B to C to out |
| WatchlistEngine.WatchlistEngine.ProcessLifecycle | rust/crates/watchlist_engine/src/lib.rs:338-402 | In place, loop by loop, equal to the specified sweep for every iteration order |
| WatchlistEngine.WatchlistEngine.DemoteEach | rust/crates/watchlist_engine/src/lib.rs:392-396 | Demoting one after another is demoting all at once |
| WatchlistEngine.WatchlistEngine.EvictEach | rust/crates/watchlist_engine/src/lib.rs:398-402 | Evicts each and starts its cooldown |
| WatchlistEngine.CoolDown | rust/crates/watchlist_engine/src/lib.rs:358-364 | Decrements each cooldown and keeps the positive ones |
| WatchlistEngine.WatchlistEngine.UpdateTickCount | rust/crates/watchlist_engine/src/lib.rs:409-414 | Counts a tick and resets inactivity |
| WatchlistEngine.WatchlistEngine.TouchSymbol | rust/crates/watchlist_engine/src/lib.rs:416-428 | Stamps the activity of a listed symbol |
| WatchlistEngine.WatchlistEngine.RateSymbol | rust/crates/watchlist_engine/src/lib.rs:195-206 | Writes quality and volume through the mutable lookup |
| Framing.CuttingDoesNotMatter | rust/crates/bridge_rx/src/lib.rs:156-247 | Two cuts of the same bytes give the same events and the same leftover |
| Framing.SessionIsGreedy | rust/crates/bridge_rx/src/lib.rs:156-247 | Batch by batch is one greedy decode of everything read, up to the first corruption |
| Framing.GreedyExtends | rust/crates/bridge_rx/src/lib.rs:169-234 | More bytes only add to what a prefix decoded to; after corruption they add nothing |
| BridgeRx.BridgeReceiver.ReadAndProcessBatch | rust/crates/bridge_rx/src/lib.rs:156-247 | The cursor loop is the specified batch; a heartbeat ends degradation |
| BridgeRx.BridgeReceiver.CheckHeartbeat | rust/crates/bridge_rx/src/lib.rs:115-123 | More than a second of silence degrades the feed |
| QosSpec.NothingCriticalIsLost | rust/crates/bridge_rx/src/lib.rs:300-333 | For any capacity and interleaving, what was consumed or is queued is in order a part of what was offered, and misses nothing but market data and heartbeats, except the one event in a blocked send |
| QosSpec.ExactlyTheFullQueueDrops | rust/crates/bridge_rx/src/lib.rs:300-333 | What was consumed, is queued or is blocked in a send is, in order, exactly what was offered and not dropped; what was offered splits into that and the non-critical events that met a full queue |
| QosSpec.RunsStayFaithful | rust/crates/bridge_rx/src/lib.rs:300-333 | The invariant behind it |
| BridgeRx.EventBus.ProcessEvent | rust/crates/bridge_rx/src/lib.rs:300-333 | In place: enqueue, block on critical, drop the rest |
| LatencyTracker.SlaFailsExactlyOnLongBreach | rust/crates/metrics_observability/src/lib.rs:249-278 | On an ascending clock a check fails exactly when, at it or before, an unbroken run of checks above 25 ms spanned five seconds |
| LatencyTracker.PercentileBoundsTail | rust/crates/metrics_observability/src/lib.rs:295-306 | The percentile is a sample of the window exceeded by fewer than five in a hundred |
| LatencyTracker.PercentileBoundsHead | rust/crates/metrics_observability/src/lib.rs:295-306 | And at most ninety-five in a hundred samples lie below it, so the two bounds leave one rank |
| LatencyTracker.ReadingIsRecentPercentile | rust/crates/metrics_observability/src/lib.rs:280-306 | Every reading is the percentile of the newest samples as they were fewer than a hundred readings ago, at a reading whose number divides by a hundred |
| LatencyTracker.WindowIsLastSamples | rust/crates/metrics_observability/src/lib.rs:280-285 | The window is the newest samples of all ever recorded, as many as fit |
| LatencyTracker.LatencyTracker.CheckSlaHardFail | rust/crates/metrics_observability/src/lib.rs:249-278 | In place: breach start and latch |
| LatencyTracker.LatencyTracker.ReadP95 | rust/crates/metrics_observability/src/lib.rs:287-306 | In place: cached percentile, recomputed on every hundredth call |

## Left out

- Integer widths: order ids, quantities, counters and timestamps are unbounded, so wrap-around and the cast of a fill size to a signed 32-bit number are not modelled.
- IEEE rounding, infinities and NaN: amounts are exact reals.
- The map from symbols to guard states: one symbol's guard is modelled, and the program keeps one per symbol, created on first use.
- The flicker guard inside the tape engine: its verdict on each event is an arbitrary flag, so the ledger results hold for every guard behaviour.
- TapeEngine.TapeEngine.EvaluateEntry: the tier and the gates after the entry check (liquidity, regime, context, multi-time-frame, anti-chase, guards, score, net profit) are two arbitrary flags, and their refusals one verdict.
- TapeEngine.TapeEngine.ProcessTick: does not update the tape score, which only those gates read.
- TapeEngine.TapeEngine.OnEvent: inherits both.
- Other fields of a symbol's tape state, cold-start states, and setters that only create a symbol: for the ledger they act as a snapshot event does.
- The log branches, calibration logging, partial-exit orders and forwarding of commands in the runtime tasks.
- Clearing the buy tracker's always-true flag: the tracker keeps the day alone.
- WatchlistEngine.WatchlistEngine.RateSymbol: of the writes a caller can make through the mutable lookup only quality and volume, which decide demotion, are rewritten; a caller could also overwrite tick counts or labels.
- Watchlist snapshots, contexts, cold-start weights and metrics counters.
- Validation of decoded events: it depends on the wall clock; framing is stated on decoded events, the channel on the events offered to it.
- A closed event channel, and the scheduling of tasks.
- Corporate-action bookkeeping, liquidity checks, position sizing, pricing, session, calendar and regime engines, reports and dashboards: straight-line rules.
- OmsEngine.OrderManagementSystem.PlaceOrder: returns the id alone, because the program's error result never occurs.
- LatencyTracker.LatencyTracker.ReadP95: idealises the floating-point index 0.95 n to the integer floor of 95 n / 100.
- LatencyTracker.PercentileBoundsHead: idealises the floating-point index 0.95 n to the integer floor of 95 n / 100.
- LatencyTracker.PercentileBoundsTail: idealises the floating-point index 0.95 n to the integer floor of 95 n / 100.
- Liveness of a blocked send: that a waiting critical event is eventually delivered needs a fair consumer.
