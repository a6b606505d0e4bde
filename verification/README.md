# Trading ledger and candle pipeline: verification model

The repository is a trading back end. Two of its parts are modelled here, in Dafny, with exact reals for money.

**The ledger.** Five code paths write executions: the instant submit, the slices of algorithmic orders, triggered
conditional orders, the Alpaca reconciliation and the shared MT5/OANDA reconciliation. Each takes the order's row
lock, writes `Fill` rows, nets them into `Position` rows and advances the order. One locked transaction is one
atomic step. The steps are specified as functions on rows (`Orders`, `Positions`, `AlpacaFillSync`,
`BrokerFillSync`, `OrderService`, `ExecutionAlgo`, `ConditionalOrders`); the mutable objects (`Orders.Order`,
`PositionTables.Position`, `PositionTables.PositionTable`, `AlpacaSyncLoop.LagTable`) carry the code's own loops
and assignments and are proved to do what those functions say. `Ledger` puts all steps into one state machine;
`LedgerTheorems` proves what every run keeps, `LedgerFailures` shows runs of what it does not keep, and
`OcoProtocol` adds the sweeper's phases.

**The candle pipeline.** `DataQuality` is the tick gate, `Candles` the incremental aggregator and its batch
definition, `CandleStore` the one-minute table, `Rollup` the hourly query, `MarketDbWriters` the consumer loop, and
`Drawdown` the two drawdown computations over the equity curve.

Real products go through `Money.Value` and its lemmas, so that no proof depends on nonlinear search.

## Which steps each run-level theorem ranges over

- `LedgerTheorems`: every interleaving of submissions, both reconciliations, slices, triggers, user cancels,
  sibling cancels and revaluations. A reconciliation step may hit any order with a broker id. That covers the
  push handlers, which look orders up by broker id alone (app/services/alpaca_trade_stream.py:50-55,
  app/services/mt5_fill_sync.py:52-61), and so also the poll sweeps, which leave algorithmic orders out.
- `ExecutionAlgo.PushesVersusSlices`, `CancelVersusSlices` and `NothingFollowsCancel`: one algorithmic order, changed
  by its runner, by user cancels and by pushes of either reconciliation. The first lets pushes report up to what the
  parent has on record and says exactly when one ends the parent short; the second has none. A push that reports more
  adds a fill of its own to the parent, and is left to `LedgerFailures.ViewEndsParentShortExactlyWhen` and
  `ReportEndsParentShortExactlyWhen`.
- `OcoProtocol`: one sweeper, whose pass may raise at any point, beside every other step of the ledger. Housekeeping
  is proved for every adapter and every pair. The exclusion theorem speaks of one group: it assumes that this group
  was opened on its proper sides and that the adapters of its own legs fill or raise when they fire. Without either
  it fails (`BothLegsCanFillExactlyWhen`).
- `AlpacaFillSync` and `BrokerFillSync` runs: any sequence of reconciliations of one order.

## Where the code is not what its text says

- The Alpaca sync keeps an order open while a remainder is deferred, but only on a FILLED report. A cancelled,
  expired or rejected report ends the order with the deferred remainder unrecorded
  (`AlpacaFillSync.UnfilledExitLosesExactlyWhenDeferring`, `LedgerFailures.CancelledRunLosesExecution`).
- Delta pricing is said to back out the true average. When a push print overshot, the backed-out price is not
  positive, the running average is used instead, and the notionals stay apart
  (`BrokerFillSync.PollPricingSelfCorrects`, `LedgerFailures.OvershootingPrintRun`).
- The sync modules leave the parents of algorithmic orders to their runner, but the parent carries its last slice's
  broker id and the push handlers look orders up by it: the FILLED push of one slice can end the parent short of its
  quantity (`LedgerFailures.ViewEndsParentShortExactlyWhen`, `ReportEndsParentShortExactlyWhen`, `PushEndsParentRun`).
- The slice runner books the planned size of a slice whatever the adapter answers, and the Alpaca adapter may answer
  without a fill (app/services/broker_service.py:213-229): filled_qty then exceeds what was executed
  (`ExecutionAlgo.BookedBeyondExecution`, `ExecutedExactlyWhenFilledInFull`, `LedgerFailures.UnfilledSliceRun`).
- Cancelling an EXPIRED order passes the request's own guard and fails in the state machine instead
  (`OrderService.CancelRaisesExactlyWhenExpired`).
- `cash_balance` subtracts the basis of open shorts instead of adding it, so it is low by twice that basis
  (`LedgerTheorems.EquityInEveryState`, `LedgerFailures.ShortSaleRun`).
- One cancels other is promised for legs that fill later at the broker too (app/services/conditional_orders.py:21-24),
  but nothing keeps the sibling of a leg that rests there (app/services/broker_service.py:228-229) from firing: it
  fills, and then the resting leg does. Nor does anything check that the limit of a pair lies on the profitable side
  of its stop; otherwise one mark triggers both legs, and one sweep fills both. These are the only two ways
  (`ConditionalOrders.SomeMarkTriggersBothExactlyWhenImproper`, `OcoProtocol.BothLegsCanFillExactlyWhen`).
- A configured ICEBERG `display_qty` that is not positive makes the slicing loop endless
  (`ExecutionAlgo.IcebergEndsExactlyWhenDisplayPositive`).
- `_bucket_ts` is described as flooring to the candle interval; it floors the seconds field only, which is the
  same thing exactly for intervals that divide a minute (`Candles.BucketIsFloorExactlyWhenDividing`).
- A tick that is late for its bucket opens the bucket again; the second candle is emitted and then dropped by
  ON CONFLICT DO NOTHING (`CandleStore.StoredWholeExactlyWhenNotLate`, `LateTickIsNeverStored`).

## Model

| member | source | states |
|---|---|---|
| `Orders.MoveKeepsHistoryLegal` | app/models/all_models.py:411-435 | a permitted transition keeps `state_history` a chain of permitted moves from the pre-insert state to the current status |
| `Orders.LegalPath` | app/models/all_models.py:79-91 | along a legal history the rank None < NEW < SUBMITTED < PARTIAL < terminal never falls, and nothing follows a terminal entry |
| `Orders.AllowedByTarget` | app/models/all_models.py:79-91 | FILLED and PARTIAL are entered from open statuses only, CANCELLED and EXPIRED from every non-terminal one, REJECTED also before insertion, SUBMITTED before any fill, NEW only at insertion |
| `Orders.Order.Transition` | app/models/all_models.py:411-435 | raises and changes nothing exactly when the table forbids the move; otherwise status and history advance together and no other column changes |
| `Orders.RecordNotional` | app/services/alpaca_fill_sync.py:206-209 | re-weighting the average with one execution adds exactly that execution's value to filled_qty times avg_fill_price |
| `Orders.RecordAllSums` | app/services/alpaca_fill_sync.py:183-209 | booking a list of executions moves the order's quantity and notional by exactly the sums over the list |
| `Orders.RecordAllKeeps` | app/services/alpaca_fill_sync.py:183-209 | the Fill rows written carry the order's side, positive quantities and the 0.1% commission, and sum to what the order's columns gained |
| `Positions.NetFillReconciles` | app/services/positions_service.py:54-107 | one netted fill, whether it opens, extends, reduces, closes or flips, keeps the selected keys' realized P&L and signed quantity equal to what their fills say, up to one tolerance per closed row at those keys' own prices |
| `Positions.NetFillPriced` | app/services/positions_service.py:78-100 | the average cost of the selected keys' open rows stays between any bounds on those keys' fill prices |
| `Positions.NetFillOk` | app/services/positions_service.py:44-107 | netting keeps at most one open row per key, with positive quantity and unrealized P&L equal to its valuation at the last mark |
| `Positions.NettedQty` | app/services/positions_service.py:73-100 | the signed quantity after a fill is the exact sum unless the fill closes the row, which drops less than 1e-9 |
| `Positions.NettedRealizes` | app/services/positions_service.py:73-107 | a fill realizes minus its commission plus the gain since entry on exactly the quantity it takes off; what stays keeps its average cost, what is added is averaged in at the fill price, and a flip starts there |
| `Positions.NetFillMarks` | app/services/positions_service.py:103-105 | the row a fill opens or nets into is valued at the fill's own price, in every branch: unrealized P&L is signed quantity times fill price less average cost |
| `Positions.MarkRowsKeeps` | app/services/position_marks.py:72-87 | revaluation changes marks and unrealized P&L only: every identity about fills and costs survives it |
| `Positions.MarkRowIsCurrent` | app/services/position_marks.py:78-87 | after a pass with a usable quote the row is within 1e-9 of its valuation at that quote |
| `Positions.MarkRowMeans` | app/services/position_marks.py:72-87 | a pass leaves a row alone without a usable quote or when its valuation moved by less than 1e-9, and otherwise sets exactly that valuation and nothing else |
| `Positions.RemarkCountIsChanged` | app/services/position_marks.py:59-95 | the number a pass returns is the number of rows it changed |
| `Positions.EquityIdentity` | app/services/positions_service.py:116-133 | total_equity is starting cash less what the fills cost plus the open quantity at its last mark, cash_balance is that cash less twice the basis of open shorts, and realized P&L is the open basis less what the fills cost, all up to the closing dust; unrealized P&L is exactly market value less basis |
| `Positions.CashWhenAllLong` | app/services/positions_service.py:121-130 | with no open short, cash_balance is the starting cash less signed notional less commissions, up to the closing dust; and wherever it is, the basis of the open shorts is at most that dust |
| `Positions.DustIsPerClosedRow` | app/services/positions_service.py:89-93 | the dust is the tolerance times the number of closed rows |
| `Positions.EquityAtQuotes` | app/services/position_marks.py:72-87 | after a pass with a usable quote for every open row, total_equity is the cash left plus the open quantity at the pass's own quotes, up to dust and 1e-9 per open row |
| `PositionTables.Position.Net` | app/services/positions_service.py:73-107 | the in-place update of a position is the netting function, branch by branch, and leaves an open row valued at the fill's own price |
| `PositionTables.PositionTable.ApplyFill` | app/services/positions_service.py:44-107 | updates the open row of the fill's key or opens one, leaves every other row alone, and keeps the table valid |
| `PositionTables.PositionTable.FindOpen` | app/services/positions_service.py:44-52 | finds the first open row of the key, or reports that there is none |
| `PositionTables.PositionTable.MarkOpenPositions` | app/services/position_marks.py:59-95 | re-marks exactly the open rows with a usable quote whose valuation moved by the tolerance or more, and returns their number |
| `Booking.PostFill` | app/services/alpaca_fill_sync.py:184-205 | writes one Fill row with its commission and nets that same fill into the positions |
| `Booking.BookAll` | app/services/alpaca_fill_sync.py:183-209 | the booking loop leaves order, fills and positions where recording and netting the whole list leaves them |
| `AlpacaFillSync.ReplayRecordsCurveAbove` | app/services/alpaca_fill_sync.py:143-156 | a replay from an offset records the cumulative execution curve above that offset, each piece at its own price, save a leading sliver of at most 1e-9 |
| `AlpacaFillSync.ReplayStaysBelowFeed` | app/services/alpaca_fill_sync.py:148-156 | a replay never records more than the feed holds above the offset |
| `AlpacaFillSync.PassCatchesUp` | app/services/alpaca_fill_sync.py:143-158 | a pass over an extended feed brings quantity and notional up to the feed again, and the unrecorded sliver never outgrows one tolerance |
| `AlpacaFillSync.PassesCatchUp` | app/services/alpaca_fill_sync.py:121-182 | after any number of passes the order has caught up with the last feed it replayed |
| `AlpacaFillSync.IncrementalEqualsOneShot` | app/services/alpaca_fill_sync.py:143-158 | any number of passes over a growing feed record the quantity and notional of one pass over the final feed, to within one sliver |
| `AlpacaFillSync.SyncKeeps` | app/services/alpaca_fill_sync.py:121-238 | a sync adds to the order's columns exactly the Fill rows it writes |
| `AlpacaFillSync.NeverOverfills` | app/services/alpaca_fill_sync.py:121-209 | if neither report nor feed exceeds the executed quantity, a sync never lowers filled_qty nor takes it past that quantity |
| `AlpacaFillSync.RunNeverOverfills` | app/services/alpaca_fill_sync.py:121-209 | the same over every run of syncs: no execution is counted twice |
| `AlpacaFillSync.FilledExitIsComplete` | app/services/alpaca_fill_sync.py:214-229 | the order becomes FILLED if and only if the report says so and nothing is deferred, and then the broker's quantity is on record to within 1e-9 if and only if the report had a positive average or the delta was within 1e-9; with a positive average, FILLED and complete are the same |
| `AlpacaFillSync.GraceExpiryCompletes` | app/services/alpaca_fill_sync.py:168-182 | a FILLED report processed once the grace window has run out completes the order and clears its lag entry, with the broker's quantity on record if and only if it was priced or the delta was within 1e-9 |
| `AlpacaFillSync.GraceRunsFromFirstSighting` | app/services/alpaca_fill_sync.py:169-171 | an order still open after any run of FILLED reports carries the clock of the first of them in its lag entry, and has waited less than the grace |
| `AlpacaFillSync.FilledReportsComplete` | app/services/alpaca_fill_sync.py:168-229 | however the feed behaves, FILLED reports that span the grace complete the order, with the broker's quantity on record when they agree on one and price it |
| `AlpacaFillSync.LagIsFirstSighting` | app/services/alpaca_fill_sync.py:169-182 | in every run, whatever the reports, a lag entry is the clock of a pass that deferred with no entry before it, unchanged since |
| `AlpacaFillSync.MirrorsBroker` | app/services/alpaca_fill_sync.py:214-238 | cancelled, expired and rejected reports are mirrored one to one, the order stays open exactly while the broker works it or a FILLED report's remainder is deferred, and while open it becomes PARTIAL exactly on a report of fills with a priced delta |
| `AlpacaFillSync.StreamPrintIsRecorded` | app/services/alpaca_fill_sync.py:133-139 | a stream print that covers the whole delta is the one Fill row written, at its own price |
| `AlpacaFillSync.PassRecords` | app/services/alpaca_fill_sync.py:121-205 | the Fill rows of one pass, in quantities: none without a priced delta above 1e-12, the stream's print when it is within a millionth of the delta, else the replayed feed, followed once the grace is over by what it leaves uncovered at the report's average |
| `AlpacaFillSync.EmptyFeedEndsAtAverage` | app/services/alpaca_fill_sync.py:170-180 | with an empty feed and the grace over, the whole delta is one Fill row at the average |
| `AlpacaFillSync.UnfilledExitLosesExactlyWhenDeferring` | app/services/alpaca_fill_sync.py:232-238 | an order that ends cancelled, expired or rejected has the broker's quantity on record exactly when the pass did not defer and the delta had an average price or was within tolerance |
| `AlpacaFillSync.CancelDropsDeferredRemainder` | app/services/alpaca_fill_sync.py:232-238 | for every open order, a cancel that reports executed quantity while the feed is still empty inside the grace window ends the order with nothing recorded |
| `AlpacaSyncLoop.ReplayFeed` | app/services/alpaca_fill_sync.py:144-156 | the running-total loop computes the replay |
| `AlpacaSyncLoop.Decide` | app/services/alpaca_fill_sync.py:121-181 | chooses stream print, replayed feed, deferral or average fallback exactly as the plan does, and a deferral leaves the first sighting in the lag entry |
| `AlpacaSyncLoop.LagTable.Put` | app/services/alpaca_fill_sync.py:169-181 | changes one order's lag entry and no other |
| `AlpacaSyncLoop.TakeExit` | app/services/alpaca_fill_sync.py:214-238 | mirrors the report's status without the state machine raising, and drops the lag entry on terminal exits |
| `AlpacaSyncLoop.SyncOrder` | app/services/alpaca_fill_sync.py:79-238 | one locked sync: order, fills, positions and lag entry all end where the specification puts them; nothing changes when the order is no longer open |
| `BrokerFillSync.SyncKeeps` | app/services/broker_fill_sync.py:92-148 | a sync adds to the order's columns exactly the Fill row it writes |
| `BrokerFillSync.PollPricingSelfCorrects` | app/services/broker_fill_sync.py:104-132 | after a poll-priced delta the recorded notional and average are the broker's own if and only if the broker's notional exceeds the recorded one |
| `BrokerFillSync.DeltaIsPriced` | app/services/broker_fill_sync.py:92-108 | a deal print prices the delta exactly when it is within a millionth of it (or 1e-12); otherwise the record comes to the broker's notional if that exceeds the recorded one, and else the delta is booked at the broker's average |
| `BrokerFillSync.NothingToRecord` | app/services/broker_fill_sync.py:67-92 | a missing or unknown view, or an order no longer open, changes nothing, and a delta of at most 1e-12 writes nothing |
| `BrokerFillSync.FallbackLeavesNotionalsApart` | app/services/broker_fill_sync.py:106-107 | from every open, unfilled order, a push print of 100 followed by a poll of two at 10 leaves 110 on record against 20 |
| `BrokerFillSync.FilledExitLosesExactlyWhenUnpriced` | app/services/broker_fill_sync.py:108-139 | a FILLED report always closes the order, and the broker's quantity is on record exactly when there was no delta or it had a positive price |
| `BrokerFillSync.MirrorsBroker` | app/services/broker_fill_sync.py:93-148 | a covering deal print prices the delta, each terminal status is reached exactly on the broker's own, and a partial view makes the order PARTIAL exactly when it records a fill |
| `BrokerFillSync.NotionalTelescopes` | app/services/broker_fill_sync.py:92-134 | over a run that ends with a poll-priced delta, the Fill rows written sum to the broker's quantity less the order's starting one, and to its notional if and only if that exceeds what was on record before the delta |
| `BrokerFillSync.PollsStayOnCurve` | app/services/broker_fill_sync.py:100-134 | polls of one increasing notional curve, in any order and multiplicity, keep the recorded notional the broker's own at the recorded quantity |
| `BrokerFillSync.PollsReachTheBroker` | app/services/broker_fill_sync.py:88-134 | while the order stays open, polls of one curve whose quantities are more than 1e-12 apart record exactly the broker's quantity and notional at the largest quantity seen |
| `BrokerFillSync.RunKeeps` | app/services/broker_fill_sync.py:67-148 | over any run the order's columns gain exactly the Fill rows written |
| `BrokerFillSync.Converges` | app/services/broker_fill_sync.py:88-134 | while the order stays open, duplicated, stale or reordered observations leave filled_qty within 1e-12 of the largest quantity seen |
| `BrokerFillSync.MaxSeenIsMax` | app/services/broker_fill_sync.py:85-92 | the quantity converged to is an upper bound of the start and every known observation, and is one of them |
| `BrokerFillSync.ReorderedRunsAgree` | app/services/broker_fill_sync.py:67-134 | two workers that see the same observations in any order and multiplicity agree to within 1e-12 |
| `BrokerFillSync.SyncIsIdempotent` | app/services/broker_fill_sync.py:88-151 | applying the same observation again writes nothing and changes nothing |
| `BrokerFillSync.PriceDelta` | app/services/broker_fill_sync.py:93-107 | the price chosen for the delta: the deal's own when its quantity covers the delta, else the one that brings the notional to the broker's, else the running average |
| `BrokerFillSync.BookDelta` | app/services/broker_fill_sync.py:92-134 | books the delta exactly when it is above 1e-12 and has a positive price, on fills, positions and the order |
| `BrokerFillSync.SyncOrder` | app/services/broker_fill_sync.py:55-148 | one locked sync ends where the specification puts it, and its transition is never refused |
| `OrderService.SubmittedKeeps` | app/services/order_service.py:226-278 | a submission adds to the order's columns exactly the Fill row it writes, or nothing |
| `OrderService.SubmittedOutcome` | app/services/order_service.py:226-278 | rejected exactly when the adapter raises, filled exactly when it reports a fill, with one Fill row at the broker's own quantity and price or else the order's; otherwise nothing is filled |
| `OrderService.CancelRaisesExactlyWhenExpired` | app/services/order_service.py:343-354 | a cancel fails in the state machine exactly for an expired order, and succeeds exactly for a non-terminal one |
| `OrderService.CancelLegMeans` | app/services/order_service.py:360-372 | cancelling the legs of a group ends its open legs as CANCELLED and leaves every other row as it is |
| `OrderService.SubmitToBroker` | app/services/order_service.py:226-278 | rejected when the adapter raises, filled outright with the broker's own quantity and price, or resting under the broker's id |
| `OrderService.CreateOco` | app/services/order_service.py:196-218 | two linked rows: the limit leg keeps the price and loses the stop, the stop leg keeps only the stop |
| `OrderService.CancelOrder` | app/services/order_service.py:338-380 | the outcome and the new rows of the order and of every leg: open siblings of a cancelled OCO leg are cancelled with it, rows outside its group stay as they are, and no fill changes |
| `ExecutionAlgo.TwapPlan` | app/services/execution_algo.py:89-92 | equal positive slices that sum exactly to the order's quantity |
| `ExecutionAlgo.VwapPlan` | app/services/execution_algo.py:77-87 | positive slices in proportion to the curve that sum exactly to the order's quantity |
| `ExecutionAlgo.IcebergPlan` | app/services/execution_algo.py:67-75 | positive slices, all but the last equal to the displayed quantity and none above it, spending the quantity to within 1e-9 in a bounded number of trips |
| `ExecutionAlgo.SlicePlan` | app/services/execution_algo.py:61-92 | every plan spends the quantity in positive slices, and each order type has its own: TWAP equal slices, VWAP slices in proportion to the curve, both exactly, ICEBERG slices of the displayed quantity and a smaller last one |
| `ExecutionAlgo.IcebergEndsExactlyWhenDisplayPositive` | app/services/execution_algo.py:68-74 | the slicing loop terminates if and only if the displayed quantity is positive |
| `ExecutionAlgo.SliceOutcome` | app/services/execution_algo.py:156-192 | a slice is booked at its planned size, whatever the adapter reports, and completes the order exactly when it brings it within 1e-9 of its quantity |
| `ExecutionAlgo.SliceKeeps` | app/services/execution_algo.py:156-192 | a slice adds to the order's columns exactly the Fill row it writes |
| `ExecutionAlgo.PushesVersusSlices` | app/services/mt5_fill_sync.py:52-61 | over every interleaving of slices, cancels and pushes that report no more than the parent has on record, filled_qty is a prefix sum of the plan, and the parent ends FILLED with slices left if and only if a FILLED push found it open |
| `ExecutionAlgo.BookedBeyondExecution` | app/services/execution_algo.py:156-185 | over every such run filled_qty exceeds the executed quantity the adapter reported by the sum, over the slices sent, of what each was booked beyond its execution |
| `ExecutionAlgo.ExecutedExactlyWhenFilledInFull` | app/services/execution_algo.py:156-185 | while no execution exceeds its slice, filled_qty is the executed quantity if and only if every slice sent was executed in full |
| `ExecutionAlgo.CancelVersusSlices` | app/services/execution_algo.py:112-192 | over every interleaving of slices and cancels filled_qty is a prefix sum of the plan, FILLED means the whole plan was sent, and a cancelled order is never fully filled |
| `ExecutionAlgo.NothingFollowsCancel` | app/services/execution_algo.py:127-130 | once cancelled, the row, its fills and the slice counter never change again |
| `ExecutionAlgo.NothingSentAfterFailure` | app/services/execution_algo.py:145-154 | a slice whose adapter raises changes nothing and ends the schedule: no later slice is sent, whatever follows |
| `ExecutionAlgo.TakeTurn` | app/services/execution_algo.py:115-192 | one iteration, after whatever cancel came first: it stops without a trace, or writes one fill, nets it and advances the order |
| `ExecutionAlgo.RunAlgoOrder` | app/services/execution_algo.py:95-207 | the slice loop ends where the schedule's steps end, with every fill it wrote netted into the positions in order |
| `ConditionalOrders.FireKeeps` | app/services/conditional_orders.py:126-175 | firing adds to the order's columns exactly the Fill row it writes |
| `ConditionalOrders.SubmittedTriggers` | app/services/conditional_orders.py:68-80 | exactly when what was submitted with a limit and a stop triggers, in those two numbers, for STOP_LIMIT orders, limit legs and stop legs of either side |
| `ConditionalOrders.SubmittedFillsAt` | app/services/conditional_orders.py:126-148 | when the broker names no price, STOP_LIMIT orders and limit legs fill at the submitted limit and stop legs at the mark |
| `ConditionalOrders.FiredPrice` | app/services/conditional_orders.py:126-148 | when the broker names no price, a stop leg fills at the mark that triggered it and any other order at its own limit |
| `ConditionalOrders.RefiresExactlyWithoutId` | app/services/conditional_orders.py:119-175 | a fired order is armed again exactly when the adapter neither raised nor filled and gave no id |
| `ConditionalOrders.OneMarkOneLeg` | app/services/conditional_orders.py:68-80 | one mark never triggers both legs of a proper pair |
| `ConditionalOrders.SomeMarkTriggersBothExactlyWhenImproper` | app/services/conditional_orders.py:68-80 | some mark triggers both legs if and only if the limit is not on the profitable side of the stop |
| `ConditionalOrders.ExecuteTriggered` | app/services/conditional_orders.py:100-181 | fires the order if it is still armed under its lock, with the stop leg's price set to the mark, and otherwise changes nothing |
| `ConditionalOrders.CancelOcoSiblings` | app/services/conditional_orders.py:192-220 | every open leg of the group is cancelled, rows outside the group stay as they are, and no transition is refused |
| `LedgerTheorems.OrdersAgreeWithFills` | app/services/order_service.py:233-272 | in every reachable state each order's filled_qty and notional are the sums over its own Fill rows, and every Fill row belongs to an order of its key |
| `LedgerTheorems.PositionsAgreeWithFills` | app/services/positions_service.py:26-107 | in every reachable state and for any set of keys, realized P&L equals minus signed notional minus commissions plus the open basis and signed open quantity equals the signed fills, up to one tolerance per closed row at the largest price of those keys' own fills, and their average costs lie between the lowest and the highest of them |
| `LedgerTheorems.EquityInEveryState` | app/services/positions_service.py:110-133 | every snapshot in every reachable state satisfies the equity and cash identities, with the dust counted per closed row at the selected keys' own largest price |
| `LedgerTheorems.EquityIsCurrentAfterRevalue` | app/services/position_marks.py:72-87 | in every run, right after a revaluation that quotes every selected open row, total_equity is the cash left plus the open quantity at the quotes, up to dust and 1e-9 per open row |
| `LedgerTheorems.EquityIsCurrentAfterFill` | app/services/positions_service.py:103-133 | in every run, in the snapshot right after any posting, the filled key's open rows are valued at the last fill's price and its total_equity is the cash left plus the open quantity at that price, up to dust |
| `LedgerTheorems.ExecutionsCountedOnce` | app/services/alpaca_fill_sync.py:106-209 | in every run of the ledger, with syncs, cancels and other orders interleaved, filled_qty of every order only grows, and while no report exceeds a total it never passes that total plus the planned sizes of the slices booked |
| `LedgerTheorems.OnlyAlgorithmicIsSliced` | app/services/execution_algo.py:95-130 | an order that is not algorithmic has no slice booked on it in any run, so the total alone bounds it |
| `LedgerTheorems.HistoryIsALegalPath` | app/models/all_models.py:411-435 | in every run, of two states the later history extends the earlier, both are legal, the rank has not fallen, and a terminal order is final |
| `LedgerTheorems.StepEvolves` | app/services/conditional_orders.py:118-124 | no step rewrites an order's terms or history, touches a terminal row, or arms an order anew; an armed order that is not fired stays as it is or is cancelled |
| `LedgerTheorems.TriggersStayAsSubmitted` | app/services/conditional_orders.py:68-80 | in every later state of every run, a STOP_LIMIT order or a leg of a pair triggers by the limit and stop it was submitted with |
| `LedgerTheorems.InstantSubmission` | app/services/order_service.py:226-278 | an instant submission rejects, rests or fills as its adapter answered, and a fill writes exactly one Fill row with the 0.1% commission under the order's key |
| `LedgerTheorems.OnlyPassesTouchLags` | app/services/alpaca_fill_sync.py:169-182 | an order's lag entry is what its own reconciliation leaves, and no other step of the ledger changes it |
| `LedgerTheorems.ConditionalsSubmittedOnce` | app/services/conditional_orders.py:116-175 | a conditional order whose own triggers are answered (raised, filled or given an id) is sent to its broker at most once in any run, and while armed not at all and with nothing filled |
| `LedgerTheorems.SubmissionsCounted` | app/services/conditional_orders.py:116-175 | in every run a conditional order is sent to its broker at most once more than it was fired without a fill, a rejection or an id, and while armed exactly that often, with nothing filled |
| `LedgerTheorems.OpenOrdersBounded` | app/services/order_service.py:74-83 | under serialized submissions that passed the open-order check, a user never has more than one open order above the cap |
| `LedgerTheorems.UnfinishedOrdersBounded` | app/services/order_service.py:74-83 | the bound holds of all orders of the user that are not terminal |
| `LedgerFailures.CancelledRunLosesExecution` | app/services/alpaca_fill_sync.py:232-238 | a run from the empty ledger in which an executed share is never recorded |
| `LedgerFailures.OvershootingPrintRun` | app/services/broker_fill_sync.py:92-107 | a run from the empty ledger that records a notional of 110 for the broker's 20 |
| `LedgerFailures.ShortSaleRun` | app/services/positions_service.py:121-130 | one share sold short at 100: cash_balance is starting less 100.1 where the cash left is starting plus 99.9 |
| `LedgerFailures.ViewEndsParentShortExactlyWhen` | app/services/mt5_fill_sync.py:52-61 | a push reconciles an algorithmic parent to FILLED short of its quantity exactly when the view says FILLED and the quantity it leaves on record is short |
| `LedgerFailures.ReportEndsParentShortExactlyWhen` | app/services/alpaca_trade_stream.py:49-63 | the same of the trade stream: a FILLED report that is not deferred, and a short quantity, which is the one on record for an unpriced or missing delta, the report's where the stream's print or the average makes up the delta, and otherwise the report's less what the feed leaves uncovered |
| `LedgerFailures.UnfilledSliceRun` | app/services/execution_algo.py:156-185 | for every answer without a fill, a run that leaves ten filled on a parent of which nothing was executed |
| `LedgerFailures.PushEndsParentRun` | app/services/execution_algo.py:127-130 | a run in which a slice's own FILLED push ends a parent of fifty with ten filled, and no later slice is sent |
| `OcoProtocol.StepKeeps` | app/services/conditional_orders.py:229-290 | every step of the sweeper, including an aborted pass, and of every other writer keeps the exclusion invariant of a group opened on proper sides whose own legs fill or raise when fired, with the stale snapshots and cached marks of the trigger loop |
| `OcoProtocol.AtMostOneLegFills` | app/services/conditional_orders.py:229-276 | in every run, two legs of a group opened on its proper sides are never both FILLED if the adapters of that group's own legs fill or raise, whatever other orders' adapters do and on whatever sides other groups are |
| `OcoProtocol.CancelReachesItsGroup` | app/services/order_service.py:360-372 | a user cancel or a housekeeping cancel changes no row besides its own order and the legs of its own group |
| `OcoProtocol.CancelEndsGroup` | app/services/order_service.py:338-380 | after the user cancel of a leg that is not terminal the leg is CANCELLED and no leg of its group is open |
| `OcoProtocol.CompletedHousekeeping` | app/services/conditional_orders.py:230-245 | in every run, with any adapters and any pairs, a completed housekeeping phase leaves no open leg in a group that had a filled leg when the phase began, whether that leg filled at once or while resting at the broker |
| `OcoProtocol.SweepBegan` | app/services/conditional_orders.py:233-245 | every housekeeping state of a run belongs to a phase that began with the query and was not left since |
| `OcoProtocol.HousekeepingOfProperGroup` | app/services/conditional_orders.py:230-245 | when a group's own legs fill or raise and its sides are proper, the same holds of legs that fill at any time before the phase is complete |
| `OcoProtocol.BothLegsCanFillExactlyWhen` | app/services/conditional_orders.py:21-24 | some run from the empty ledger, in which the pair's own legs rest at the broker only if allowed to, fills both legs of a submitted pair if and only if they are allowed to rest or its limit is not on the profitable side of its stop |
| `Candles.BucketIsFloorExactlyWhenDividing` | app/workers/candle_aggregator.py:19-24 | the bucket is the last multiple of the interval for every time if and only if the interval divides a minute |
| `Candles.SameMinute` | app/workers/candle_aggregator.py:19-24 | two ticks share a bucket if and only if they agree on symbol and clock minute |
| `Candles.BatchIsOhlcv` | app/workers/candle_aggregator.py:46-65 | the batch bar has the first and last price, attained extremes, volume, count and quality flag of exactly the selected ticks |
| `Candles.AggregatorRefinesBatch` | app/workers/candle_aggregator.py:33-73 | for every arrival order, a bucket's emitted candles merged in emission order with the open one are the batch bar of exactly its ticks |
| `Candles.IngestPieces` | app/workers/candle_aggregator.py:46-72 | a tick opens its own bucket if needed and moves exactly the older open buckets of its symbol to the emitted ones |
| `Candles.TicksConserved` | app/workers/candle_aggregator.py:33-73 | every ingested tick is counted in exactly one candle, emitted or open |
| `Candles.CandleAggregator.Ingest` | app/workers/candle_aggregator.py:33-73 | the in-place update and the popping loop leave the open buckets, and return the completed candles, that the specification says |
| `Candles.CandleAggregator.FlushAll` | app/workers/candle_aggregator.py:75-79 | returns every open candle and leaves none open |
| `CandleStore.PiecesTellLateness` | app/workers/candle_aggregator.py:67-73 | a bucket is emitted exactly when a later tick closes it, and falls into more than one piece exactly when a tick arrives after that |
| `CandleStore.StoredIsFirstPiece` | app/workers/db_writer.py:40-54 | the table holds the first emitted piece of each bucket, which counts strictly fewer ticks than its pieces together when there are several |
| `CandleStore.StoredWholeExactlyWhenNotLate` | app/workers/db_writer.py:31-55 | the stored candle is the bar of all the bucket's ticks if and only if the bucket has closed and no tick came late |
| `CandleStore.StoredIsFinal` | app/workers/db_writer.py:52-54 | a stored candle never changes, whatever ticks follow |
| `CandleStore.LateTickIsNeverStored` | app/workers/db_writer.py:31-55 | a tick that comes after its bucket closed is never reflected in the stored candle, however the run goes on |
| `CandleStore.LateTickExample` | app/workers/candle_aggregator.py:67-73 | three ticks after which the stored candle closes at 10 and the bucket at 12 |
| `CandleStore.InOrderEmitsOnce` | app/workers/candle_aggregator.py:67-73 | when a symbol's ticks arrive in time order each of its buckets is emitted exactly once, when it closes, and stored whole |
| `Rollup.GroupIsAggregate` | app/workers/retension_task.py:43-51 | the group's earliest and latest rows, attained high and low, and sums are what the query's aggregates mean |
| `Rollup.GroupedInAnyOrder` | app/workers/retension_task.py:43-58 | the group does not depend on the order in which the table yields its rows |
| `Rollup.HourTicks` | app/workers/retension_task.py:44-44 | a one-minute bucket falls in an hour exactly when the ticks it collects do |
| `Rollup.HourIsOfTheClock` | app/workers/retension_task.py:44-44 | two times share an hour if and only if their quotients by 3,600,000,000 microseconds agree |
| `Rollup.TwoLevelsAgreeExactlyWhenHourIsOver` | app/workers/retension_task.py:40-60 | for a symbol whose ticks arrive in time order, the hourly row selected from the stored one-minute candles is the bar of the hour's ticks if and only if the symbol's last tick is outside the hour |
| `Rollup.RowWholeExactlyWhenNothingPending` | app/workers/retension_task.py:40-60 | with only the first part of the emitted candles stored, the hourly row is the bar of the hour's ticks if and only if none of the hour's candles is pending or open |
| `Rollup.WholeRowIsOhlcv` | app/workers/retension_task.py:43-51 | an hourly row that is whole has the first and last price, attained extremes, volume and count of exactly the hour's ticks |
| `DataQuality.JudgeMeans` | app/workers/dq_pipeline.py:36-80 | REJECT for exactly four reasons, PASS exactly without flags, and a spike flag exactly on a spike |
| `DataQuality.SpikesInNumbers` | app/workers/dq_pipeline.py:52-63 | from five prices on, flagged exactly when more than 5% and rejected exactly when more than 15% away from the mean of the last twenty |
| `DataQuality.OutliersInNumbers` | app/workers/dq_pipeline.py:69-74 | a volume outlier is, from ten volumes on, above fifty times the positive mean of the last fifty |
| `DataQuality.ScreeningMeans` | app/workers/dq_pipeline.py:52-80 | a screened tick is rejected, flagged or passed by these two measures alone, and carries the flag of each |
| `DataQuality.ReasonsBeforeScreening` | app/workers/dq_pipeline.py:36-46 | the reason given is the first that applies of zero price, negative volume and duplicate |
| `DataQuality.ReportedSizes` | app/workers/dq_pipeline.py:58-74 | a spike flag carries the relative distance from the mean, an outlier flag the multiple of the mean volume |
| `DataQuality.OnlyRepeatsAreDuplicates` | app/workers/dq_pipeline.py:43-50 | right after a tick, ticks that differ in price, volume or time still reach the windows, and its repeats are rejected while fewer than 500 keys are held |
| `DataQuality.RemembersLatest` | app/workers/dq_pipeline.py:61-67 | the prices remembered are all of them after a rejected spike and otherwise the last two hundred, latest last |
| `DataQuality.SpikeGateRecovers` | app/workers/dq_pipeline.py:52-67 | after a permanent move to a positive level no tick is spike-flagged from the 21st on, and after an upward move none is rejected from the 19th on |
| `DataQuality.RejectionsBounded` | app/workers/dq_pipeline.py:52-67 | over any number of ticks at the new level at most 20 are rejected as spikes, and at most 18 after an upward move |
| `DataQuality.BoundsAreReached` | app/workers/dq_pipeline.py:52-67 | both bounds are attained |
| `DataQuality.FlatHistoryRejects` | app/workers/dq_pipeline.py:56-63 | from a flat history, the exact condition under which the n-th further tick is rejected |
| `DataQuality.DQPipeline.Remember` | app/workers/dq_pipeline.py:43-50 | the duplicate set gains the key and stays bounded; past 500 keys, a hundred arbitrary ones are forgotten |
| `DataQuality.DQPipeline.CheckPrice` | app/workers/dq_pipeline.py:52-67 | compares with the last 20 prices and remembers the price either way, trimming to 200 only when it is not rejected |
| `DataQuality.DQPipeline.CheckVolume` | app/workers/dq_pipeline.py:69-78 | compares with the last 50 volumes and remembers the volume |
| `DataQuality.DQPipeline.Check` | app/workers/dq_pipeline.py:30-80 | returns the specified verdict, updates exactly the tick's own symbol, and remembers nothing of malformed or duplicate ticks |
| `MarketDbWriters.MarketDbWriter.Process` | app/workers/market_db_writer.py:55-97 | one turn accepts the routed tick with the message's own columns or reports it, keeps the loop-head invariant, empties the buffers on a timeout and on the 25th routed tick, and otherwise flushes nothing |
| `MarketDbWriters.MarketDbWriter.Flush` | app/workers/market_db_writer.py:130-137 | moves the three buffers to their stores; nothing is lost or duplicated |
| `MarketDbWriters.MarketDbWriter.Drain` | app/workers/market_db_writer.py:55-97 | over any stretch of items, appends exactly the routed ticks that were not rejected, in order and with their messages' own columns, and exactly their events, each verdict being the gate's on what it remembered at that turn |
| `MarketDbWriters.EveryRoutedTickIsAccountedFor` | app/workers/market_db_writer.py:71-88 | whatever the verdicts, every routed tick is accepted once or reported as rejected once |
| `MarketDbWriters.AcceptedTicksCameFromMessages` | app/workers/market_db_writer.py:84-88 | every accepted tick has the symbol, time, price and volume of a routed message that was not rejected, and is marked exactly when that message had flags |
| `MarketDbWriters.AcceptedVolume` | app/workers/market_db_writer.py:84-88 | the accepted ticks' volumes add up to those of the routed messages that were not rejected |
| `MarketDbWriters.EventsReportMessages` | app/workers/market_db_writer.py:80-82 | every event is the message and verdict of a routed tick that did not pass, and there are as many |
| `MarketDbWriters.WriterConserves` | app/workers/market_db_writer.py:83-97 | at every loop head the tick counts of flushed, buffered and open candles add up to the ticks stored plus the ticks buffered |
| `MarketDbWriters.TableHoldsWholeBuckets` | app/workers/market_db_writer.py:60-67 | with nothing buffered, the candle table holds the whole bar of a bucket exactly when it has closed and none of its accepted ticks came late |
| `MarketDbWriters.HourlyRowWholeExactlyWhenFlushed` | app/workers/market_db_writer.py:60-67 | at every loop head, for a symbol in time order, the hourly row rolled up from the flushed candles is the bar of all the hour's accepted ticks if and only if none of the hour's candles is open or still buffered |
| `MarketDbWriters.SpikeRejectionsBounded` | app/workers/market_db_writer.py:71-88 | over any stretch of items, once a symbol's screened ticks stay at one level, at most 20 of them are rejected as spikes, and at most 18 if the level is not below its remembered prices, whatever other symbols do |
| `Drawdown.OnePassIsPairwiseMinimum` | app/helpers/helpers.py:28-35 | over positive equities the one-pass value is attained by, and bounds from below, (e_j - e_i) / e_i over all i <= j, and lies in (-1, 0] |
| `Drawdown.MaxDrawdown` | app/helpers/helpers.py:28-35 | the peak-tracking loop computes the one-pass value of any curve |
| `Drawdown.SnapshotDrawdown` | app/services/positions_service.py:199-207 | the metrics loop divides by zero exactly when a running peak is zero, and otherwise returns one hundred times the same value |

## Left out

- Float and `Numeric(20,8)` rounding, including the rounded duplicate key and the rounded drawdown percentage: money is exact, the code's tolerances are kept.
- Sessions, locks and crashes: one locked transaction is one atomic step. A crash between a broker call and its commit, and two first fills of one key racing with no row to lock, are not modelled.
- Broker adapters, market data and HTTP: an adapter's answer, a quote or a report is an arbitrary input; executed quantities are not negative. The MT5 adapter's source is not part of this model.
- Timestamps, reasons, `OrderEvent` rows, audit entries and WebSocket nudges: they carry no ledger state.
- Ownership checks, and the notional, daily-loss and idempotency checks of the risk gate; only the open-order cap is modelled.
- The sweep as one method: its phases, stale snapshots and mark cache are the protocol of `OcoProtocol`, its two transactions are methods.
- Broker-side cancel calls, whose failures the code ignores.
- The VWAP sine curve: `VwapPlan` takes any positive weights.
- Waiting between slices and the grace clock's origin: the clock is an input of each pass.
- The kill switch (app/services/risk_service.py:46-78) and holding adoption (app/api/v1/endpoints/brokers.py:303-326): both write positions outside the fill ledger.
- The Kafka consumer and the writer's shutdown branch, failing flushes, and JSON decoding errors.
- Parsing tick times, and the wall-clock default for missing ones: a tick's time is a number of microseconds.
- Pruning, and the rollup's own ON CONFLICT clause: one rollup of one hour is modelled.
- Analytics services, reports, authentication and migrations.
- AlpacaFillSync.IncrementalEqualsOneShot: the order starts empty and the last pass replays the feed; passes that take the stream's print or fall back to the average are covered by `RunNeverOverfills` instead.
- BrokerFillSync.Converges: every known observation has a positive average and every deal a positive price; without a price the delta is not recorded, as `FilledExitLosesExactlyWhenUnpriced` states.
- DataQuality.SpikeGateRecovers: counts ticks that reach the price check; duplicates and malformed ticks are rejected before it and leave the window alone.
