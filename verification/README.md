# AlphaTrader in Dafny

AlphaTrader is a trading client: it decodes a sequenced ITCH feed, recovers from gaps by replay or
snapshot, keeps order books, and sends risk-checked OUCH orders. This project models its four hard
parts and proves what holds over every run of them. `dafny verify dfyconfig.toml` checks all of it.

**Gap recovery** (`recovery*.dfy`, `consumer_object.dfy`). `Recovery` has one transition per thing
that can happen to the market-data consumer: a live update, snapshot messages, a replay status with
frames, an end of stream. `RecoveryRuns` puts it in front of an exchange that publishes a history
and serves snapshots of it, and of a network that loses, repeats and reorders. The main theorem is
`RecoveryTheorems.PushedBookIsTrue`: in every reachable state, what was pushed to the engine means
exactly the orders of updates baseline..next-1. `EveryPrefixIsTrue` says the same of any consumed
prefix, and `EndToEnd.StrategySeesTrueBook` carries it through the linked books and the engine to the
quotes that strategies are shown; `EndToEnd.OrderSeesTrueBook` says it of the book behind every order sent.
`RecoveryOutcomes` and `RecoveryModes` say exactly when a recovery succeeds, restarts, escalates or is
given up.

**The order book** (`feed_*.dfy`, `book_*.dfy`, `order_book.dfy`). Two sorted level maps, intrusive
doubly linked lists, a reference index, pooled nodes and a cached best bid and offer all refine one plain
map from order reference to side, price and quantity, and `FeedMeaning` says of that map, order by order,
what it holds. `BookRuns` says what an update may do to a whole book and follows books through runs.

**Orders, risk and profit** (`pnl*.dfy`, `desk*.dfy`, `tables.dfy`, `trading_*.dfy`, `engine*.dfy`). One
slot's order table, reservations and positions as one state with one step per event, and theorems over
every run of it; the objects that compute those steps; and the engine, whose slots share one id counter
and one request queue. `TradingFloor.SlotIsRun` shows that each slot of the engine goes through such a run
whatever the others do, so that the theorems hold of every slot.

**Framers** (`wire.dfy`, `framing.dfy`, `itch_*.dfy`, `ouch_framer.dfy`, `framer_objects.dfy`). A
theory of receive loops that wait, skip or emit, the ITCH and OUCH loops as instances of it, and
the stateful ITCH decoder compared with the messages it reads and with the book it feeds.

Each operation that changes state in the source is a method of a class, proved against a function
of the old state; the theorems are about those functions.

## Where the code falls short

These expected properties do not hold of the code. Each comes with an instance, reached by a run where
it is about a state, and an exact condition. Line numbers are those of the repository's own README where
they say so.

- Updates received during recovery are queued, not dropped (repository README, line 161). Several
  branches clear the queue: `RecoveryBoot.DenialDropsQueued`, `RecoveryTheorems.LiveDataKeptIff`. Safety
  survives, because the missing numbers show up as a new gap.
- The synchronized flag means an authoritative book (repository README, line 246). If the boot snapshot
  is cut, any live update becomes the baseline and a later replay raises the flag:
  `RecoveryBoot.SynchronizedWithoutSnapshot`, `RecoveryTrust.TrustworthyIffBaselineIsOne`.
- A replace relinks a node without clearing its old links, and a strategy can then be shown a quote
  that nobody made: `BookSteps.ReplaceIff`, `BookSteps.MovesCleanlyMeans`, `BookRuns.TraceOkIff`,
  `BookBbo.PhantomBestBid`, `EndToEnd.StrategySeesPhantomBid`.
- Pending buys are netted against pending sells, so the position limit can be passed:
  `DeskExamples.NettingBreach`, `DeskLimits.SubmissionIff`, `DeskLimits.RunStaysWithinIff`,
  `DeskBreach.UnbreachableIff`.
- Replaces do not change the reserved quantity: `DeskTheorems.ReservationOfLiveOrder`,
  `DeskTheorems.RekeyFailsIff`, `DeskExamples.GrownOrderCannotBeReplaced`.
- A reservation can outlive its order: `DeskLeaks.LeaksIff`, `DeskExamples.PartialCancelLeaks`,
  `DeskTheorems.OrphanForever`.
- The decoder's table and a book fed by it part ways on a repeated reference, on an empty order, and on
  a replace whose new reference makes the ticker's vector move, because the old entry is cleared
  through a reference taken before the resize: `ItchTable.RepeatedAddDiverges`,
  `ItchTable.ReplaceKeepsOldEntry`, `ItchTable.AgreementIff`, `ItchFramer.DecoderBookIff`.
- A truncated or out-of-order replay restarts from the last applied number (repository README, lines
  222-223). Only a stream that ends inside a frame does. One that ends between frames, short of the queued
  updates, and a frame out of order both end the recovery and drop what it had received:
  `RecoveryOutcomes.TruncatedReplayGivesUp`, `RecoveryOutcomes.DisorderedReplayGivesUp`,
  `RecoveryOutcomes.RestartsIff`.
- A frame of the feed is read whole. Those of 65536 sequence numbers start like the registration token and
  are taken for it: `ItchMeaning.FrameTakenIff`, `ItchMeaning.SendableIff`.

## Model

| member | source | states |
|---|---|---|
| RecoveryTheorems.PushedBookIsTrue | src/market_data/market_data_recovery.cpp:7-265 | in every reachable state, whatever was lost, repeated, reordered, denied, cut or aborted, folding everything pushed gives exactly the book of history entries baseline..next_exp-1 |
| RecoveryTheorems.EveryPrefixIsTrue | src/market_data/market_data_recovery.cpp:7-265 | any consumed prefix ending outside a snapshot block means the history from the prefix's baseline to some entry; once it holds a snapshot or began with update 1, that is the exchange's own book at some point of its history |
| RecoveryRuns.RunKeepsInv | src/market_data/market_data_recovery.cpp:50-220 | every run keeps the invariant: in replay mode the staged frames are exactly next_exp..last_applied in order, across resumed requests after a cut; queued updates are the history's; the staged snapshot is the open block; the reader of the queue expects what the consumer expects |
| RecoveryRuns.StepKeepsInv | src/market_data/market_data_recovery.cpp:7-265 | each single step keeps that invariant |
| RecoveryRuns.StepCoherent | src/market_data/market_data_recovery.cpp:30-74 | after every step, whatever the server sends, the recovery flag, the mode and one open connection coincide, connections close once each in the order opened, and nothing is staged or queued outside recovery |
| RecoveryTheorems.AnyRunCoherent | src/market_data/market_data_recovery.cpp:165-265 | the same over every run with an arbitrary network and server; the sync flag is up only outside recovery |
| RecoveryTheorems.PushOnlyOnSuccess | src/market_data/market_data_recovery.cpp:123-141 | during recovery a step appends to the queue or moves the expected number only by completing the recovery; aborts, denials, cuts and failed merges push nothing |
| RecoveryTheorems.LogIsInPlace | src/market_data/market_data_incremental.cpp:5-44 | pushed incrementals are consecutive, each one more than the last or than the END just delivered; snapshot updates enter the queue only as complete blocks with one START and one END, and no block is left open |
| RecoveryTheorems.LiveDataKeptIff | src/market_data/market_data_recovery.cpp:30-36 | a step keeps every queued live update exactly when it takes none of the clearing branches or had none at or above the expected number |
| RecoveryOutcomes.RestartsIff | src/market_data/market_data_recovery.cpp:203-220 | a step of a replay opens a new request from the last applied number, with everything received kept, exactly when the stream ends inside a frame; every other truncated or out-of-order replay is given up, its frames and queued updates gone |
| RecoveryOutcomes.TruncatedReplayGivesUp | src/market_data/market_data_recovery.cpp:203-208 | a run whose replay is cut between two frames: frame 3 and queued update 6 are dropped and nothing more is asked for |
| RecoveryOutcomes.DisorderedReplayGivesUp | src/market_data/market_data_recovery.cpp:152-156 | the same run with frame 5 right after frame 3 |
| RecoveryOutcomes.ReplaySucceedsIff | src/market_data/market_data_recovery.cpp:111-220 | over every run, through cuts inside frames and whatever arrives live: a replay that finishes leaves the consumer synchronized exactly when the queued updates continue the frames without a hole; then the number expected is one past all of them, and every update from the missing one up to there has been pushed |
| RecoveryOutcomes.SnapshotSucceedsIff | src/market_data/market_data_recovery.cpp:7-28 | a read of snapshot messages synchronizes exactly when one of them is the END of an open block that the queued updates continue without a hole; then the number expected is one past that END and everything queued |
| RecoveryModes.EventLeadsTo | src/market_data/market_data_recovery.cpp:111-220 | event by event, from any coherent consumer and whatever the server sends: the mode it leads to, and which connection is closed and which opened |
| RecoveryModes.DenialEscalates | src/market_data/market_data_recovery.cpp:123-129 | a denied replay goes on as a snapshot on the next connection, nothing pushed |
| RecoveryModes.GapAsks | src/market_data/market_data_incremental.cpp:31-44 | a gap of up to 8192 asks for a replay from the last number taken, a wider one for a snapshot, and the update that showed it is queued |
| RecoveryModes.LiveIsHarmless | src/market_data/market_data_incremental.cpp:5-29 | outside recovery an update taken before changes nothing; during recovery an update only joins the queue |
| RecoveryModes.SyncedIff | src/market_data/market_data_recovery.cpp:165-265 | after any event the synchronized flag is up exactly when the event ended a recovery with success, or when it was up and no gap opened |
| RecoveryBoot.DenialDropsQueued | src/market_data/market_data_recovery.cpp:123-129 | a run whose consumer forgets a queued update if its replay is denied |
| RecoveryRuns.ReplayPushesNothing | src/market_data/market_data_recovery.cpp:111-163 | unless the server says it is current, reading replay bytes leaves the queue and the expected number alone |
| RecoveryBoot.SynchronizedWithoutSnapshot | src/market_data/market_data_incremental.cpp:13-17 | a run in which the boot snapshot is cut, and the flag goes up over a book that lacks an order the exchange has |
| RecoveryTrust.TrustworthyIffBaselineIsOne | src/market_data/market_data_incremental.cpp:13-17 | what a run has pushed means the true book for every exchange and every run that could have pushed it exactly when its baseline is 1 |
| Recovery.ContiguousIffTailIsAll | src/market_data/market_data_recovery.cpp:165-192 | the check passes exactly when the queued numbers from resume on are resume..resume+n-1, and then the tail to push is all of them |
| EndToEnd.StrategySeesTrueBook | src/trading/trade_engine.h:191-227 | over every run, each notice shows a book after some prefix of the queue; that book was sound throughout exactly when no update of the prefix spoiled it, and then, from the first delivered snapshot on, a called strategy sees the exchange's own orders at some point of its history and both quotes the best of them |
| EndToEnd.OrderSeesTrueBook | src/trading/trade_engine.h:207-227 | every request that a drain adds to the queue was pushed while its strategy was called on a book out of a snapshot; as far as no update spoiled it, that book is the exchange's own, with its best quotes |
| EndToEnd.StrategySeesPhantomBid | src/trading/trade_engine.h:207-227 | a run of consumer and engine in which a strategy is called on a best bid of 101 for nothing while the exchange has 20 bid at 100 |
| EndToEnd.FaithfulBlockExists | src/market_order_book.cpp:229-242 | at every point of every history some snapshot block loads exactly the true book, so the assumption on the exchange can be met |
| ConsumerObject.CheckQueued | src/market_data/market_data_recovery.cpp:223-232 | the first pass answers whether the queued numbers from resume on have no hole, and returns the number after the last |
| ConsumerObject.FlushQueued | src/market_data/market_data_recovery.cpp:237-244 | the second pass pushes exactly the tail in ascending order and empties the map |
| ConsumerObject.TakeFrames | src/market_data/market_data_recovery.cpp:145-159 | the frame loop stages all frames when they are consecutive, else stops at the first that is not |
| ConsumerObject.MarketDataConsumer.StartSnapshotSync | src/market_data/market_data_recovery.cpp:30-48 | the new state is the snapshot-start transition of the old one |
| ConsumerObject.MarketDataConsumer.StartReplaySync | src/market_data/market_data_recovery.cpp:50-74 | the new state is the replay-start transition, keeping staged and queued updates when resuming |
| ConsumerObject.MarketDataConsumer.FinishSnapshotSync | src/market_data/market_data_recovery.cpp:222-253 | delivers block and tail, or discards the block, as the transition says |
| ConsumerObject.MarketDataConsumer.FinishReplaySync | src/market_data/market_data_recovery.cpp:165-201 | delivers frames and tail, or aborts, as the transition says |
| ConsumerObject.MarketDataConsumer.ProcessSnapshotMessage | src/market_data/market_data_recovery.cpp:7-28 | START restarts staging, other messages join an open block, END finishes it |
| ConsumerObject.MarketDataConsumer.ReadSnapshot | src/market_data/market_data_recovery.cpp:97-108 | a buffer of snapshot messages, one after another, including those after the recovery has ended |
| ConsumerObject.MarketDataConsumer.ReadReplay | src/market_data/market_data_recovery.cpp:111-163 | status byte and frames: granted, denied, current or unexpected |
| ConsumerObject.MarketDataConsumer.OnEof | src/market_data/market_data_recovery.cpp:203-220 | end of stream finishes, resumes or aborts |
| ConsumerObject.MarketDataConsumer.AbortSnapshotSync | src/market_data/market_data_recovery.cpp:255-265 | clears staging and queue, leaves what was pushed and the expected number |
| ConsumerObject.MarketDataConsumer.ProcessLive | src/market_data/market_data_incremental.cpp:5-29 | a live update is queued, taken as baseline, pushed, opens a gap or is ignored |
| ConsumerObject.MarketDataConsumer.GapDetected | src/market_data/market_data_incremental.cpp:31-44 | a gap up to the replay capacity asks for a replay, a larger one for a snapshot |
| ConsumerObject.MarketDataConsumer.Handle | src/market_data/market_data_recovery.cpp:76-109 | one event takes the object to the specified state; flags, connection and buffers stay coherent, and before an exchange the invariant of runs is kept |
| ConsumerObject.MarketDataConsumer.Serve | src/market_data/market_data_consumer.cpp:86-98 | after any run of events the object's queue means exactly the history from its baseline to the number it expects next |
| FeedMeaning.RestingIff | src/market_order_book.cpp:144-201 | after any updates an order is in the plain map exactly when some update entered it and none since removed it or used it up, with that update's side and price and its quantity less all that was taken since |
| FeedMeaning.InSnapshotIff | src/market_order_book.cpp:229-242 | a book is in a snapshot exactly from a START to the next END |
| BookSteps.ApplyOk | src/market_order_book.cpp:144-201 | every update takes a well-formed book to what the plain map says, and the book stays well formed exactly unless the update is a spoiling replace |
| BookSteps.ReplaceIff | src/market_order_book.cpp:120-142 | a replace keeps lists, index and totals well formed exactly when the node's next was null and its prev was null or the destination level exists; the orders are right either way |
| BookSteps.MovesCleanlyMeans | src/market_order_book.cpp:127-137 | that is: the order is last in its level, and alone there or moving to a level that exists |
| BookTables.LinkedIff | src/market_order_book.cpp:40-50 | appending a node keeps a doubly linked list exactly when the node brings no stale links |
| BookTables.UnlinkedStaysLinked | src/market_order_book.cpp:52-66 | unlinking the i-th node leaves the other nodes linked in their order |
| BookTables.InsertClean | src/market_order_book.cpp:12-50 | adding a clean node keeps every level list, total, the index bijection and the pool |
| BookTables.InsertPlain | src/market_order_book.cpp:162-172 | and adds exactly that order to the plain map |
| BookTables.InsertDirty | src/market_order_book.cpp:127-137 | adding a node with stale links leaves no well-formed book |
| BookTables.EraseOk | src/market_order_book.cpp:91-107 | erasing keeps every list, total, the index bijection and the pool, and drops a level that became empty |
| BookTables.ErasePlain | src/market_order_book.cpp:91-107 | and removes exactly that order from the plain map |
| BookSteps.ShrinkOk | src/market_order_book.cpp:109-118 | reducing an order keeps the book well formed, its level total still the sum modulo 2^32 |
| BookSteps.ShrinkPlain | src/market_order_book.cpp:109-118 | and changes only that order's quantity in the plain map |
| BookBbo.TopIsBest | src/market_order_book.cpp:68-89 | on a well-formed book the cached quote is the best price of the plain map with the quantity summed at it, or the invalid marker when the side is empty |
| BookBbo.TotalIsDepth | src/market_order_book.cpp:40-66 | a level's total is the sum of the quantities of the orders at its price, modulo 2^32 |
| BookBbo.PhantomBestBid | src/market_order_book.cpp:127-137 | four updates after which an empty level is cached as the best bid |
| BookBbo.PoolCount | src/market_order_book.cpp:27-38 | allocated nodes number exactly the tracked orders |
| BookRuns.BookStepOk | src/market_order_book.cpp:144-242 | one update, markers included, takes a sound book to what the plain view says, and to a sound book exactly unless it is a spoiling replace of its ticker |
| BookRuns.TraceOkIff | src/market_order_book.cpp:144-242 | over a run of updates the book is sound throughout exactly when no update spoils the book it meets |
| BookRuns.TraceFollows | src/market_order_book.cpp:144-242 | up to the first spoiling replace, and including it, the book holds the fold of the updates |
| BookRuns.SoundQuotes | src/market_order_book.cpp:68-89 | a sound book's cached quotes are the best price of each side of its orders with the quantity there, or the invalid marker |
| BookRuns.TopOf | src/market_order_book.cpp:68-89 | the first level of a side is its best |
| BookRuns.ApplyTo | src/market_order_book.cpp:144-201 | applyUpdate on a book held as a value does one such step |
| OrderBook.MarketOrderBook.LinkOrder | src/market_order_book.cpp:40-50 | the tables after linking are those of the specification |
| OrderBook.MarketOrderBook.UnlinkOrder | src/market_order_book.cpp:52-66 | the tables after unlinking are those of the specification |
| OrderBook.MarketOrderBook.EraseOrder | src/market_order_book.cpp:91-107 | reports whether the order was known, and erases it |
| OrderBook.MarketOrderBook.ReduceOrder | src/market_order_book.cpp:109-118 | reduces or erases the order |
| OrderBook.MarketOrderBook.ReplaceOrder | src/market_order_book.cpp:120-142 | moves the node with its links as they are, or refuses |
| OrderBook.MarketOrderBook.UpdateBBO | src/market_order_book.cpp:68-89 | both cached quotes are those of the first levels, nothing else changes |
| OrderBook.MarketOrderBook.FreeLevels | src/market_order_book.cpp:203-227 | walking every list frees each node once, each still handed out when freed, and none is left |
| OrderBook.MarketOrderBook.Clear | src/market_order_book.cpp:203-227 | an empty book with no quotes, the snapshot flag as it was |
| OrderBook.MarketOrderBook.OnSnapshotStart | src/market_order_book.cpp:229-233 | an empty book with no quotes, in a snapshot |
| OrderBook.MarketOrderBook.OnSnapshotClear | src/market_order_book.cpp:235-237 | an empty book with no quotes, the snapshot flag as it was |
| OrderBook.MarketOrderBook.OnSnapshotEnd | src/market_order_book.cpp:239-242 | the same tables, out of the snapshot, quotes brought up to date |
| OrderBook.MarketOrderBook.OnMarker | src/market_order_book.cpp:145-157 | a snapshot marker does the step specified for it |
| OrderBook.MarketOrderBook.ApplyUpdate | src/market_order_book.cpp:144-201 | does the specified step; the contents follow the plain view on every update, ignored ones included; the book stays sound, quotes included, exactly unless a replace spoils it |
| OrderBook.MarketOrderBook.ApplyToTables | src/market_order_book.cpp:161-201 | an update of the book's own orders, on any book whose index leads to nodes, spoiled ones included |
| OrderBook.MarketOrderBook.ApplyAll | src/market_order_book.cpp:144-201 | a run of updates follows the fold of the plain view and stops exactly at the first update that spoils the book it meets |
| PnlLedger.RunBalanced | src/trading/pnl_tracker.h:48-101 | after any run of fills and marks, realized profit is cash flow plus net times average plus the truncation remainders; the average lies between the prices that opened the position and is the invalid marker exactly when flat |
| PnlLedger.Equity | src/trading/pnl_tracker.h:90-137 | over every run, realized plus unrealized profit is cash plus the holding at the price of the last mark taken plus the remainders; without a mark the unrealized profit is zero |
| PnlLedger.ClosingIsExact | src/trading/pnl_tracker.h:56-82 | opens, partial closes, full closes and flips lose nothing |
| PnlLedger.AveragingLosesRemainder | src/trading/pnl_tracker.h:59-64 | averaging loses exactly the division's remainder, smaller in size than the new net quantity |
| PnlLedger.DriftBound | src/trading/pnl_tracker.h:48-88 | the total lost is at most the number of averaging fills times the largest position |
| Pnl.MarkIsRecorded | src/trading/pnl_tracker.h:90-101 | a mark is taken exactly when it is a price at which the open profit fits 64 bits; it becomes the position's mark, the open profit follows, nothing else moves |
| Pnl.RefusedIff | src/trading/pnl_tracker.h:48-88 | an execution is refused exactly when it has no price or no quantity, or when the profit realized by closing or the open profit of what is then held does not fit 64 bits |
| Pnl.MeanBetween | src/trading/pnl_tracker.h:59-64 | a mean truncated toward zero lies between the two prices |
| TradingObjects.PnLTracker.RegisterTicker | src/trading/pnl_tracker.h:25-32 | a known ticker is accepted and kept as it is, a new one starts flat, refused when the table is full |
| TradingObjects.RiskManager.RegisterTicker | src/trading/risk_manager.h:47-56 | limits are added unless negative, already present or the table is full |
| TradingObjects.PnLTracker.Execute | src/trading/pnl_tracker.h:48-88 | updates exactly the ticker's position, or nothing when refused |
| TradingObjects.PnLTracker.MarkTicker | src/trading/pnl_tracker.h:90-101 | revalues exactly the ticker's position, or nothing when refused |
| TradingObjects.PnLTracker.TotalPnL | src/trading/pnl_tracker.h:103-112 | the sum of all realized and unrealized profit, or none when it does not fit 64 bits |
| DeskLimits.RunStaysWithin | src/trading/risk_manager.h:62-154 | from a desk within its limits, under any fills, cancels, rejects, replaces and one-sided submissions, the position and the position plus exposure never leave the limit |
| DeskLimits.RunStaysWithinIff | src/trading/risk_manager.h:62-154 | for any submissions: what is held and outstanding stays within the limit in every state of the run exactly when every submission that went through fitted its own side; then position and position plus exposure stay within it |
| DeskLimits.FillConserves | src/trading/risk_manager.h:111-144 | an accepted fill leaves net quantity plus pending exposure unchanged |
| DeskLimits.SubmissionIff | src/trading/risk_manager.h:62-89 | a submission that passes the check keeps the ticker safe exactly when position plus everything outstanding on its own side, itself included, is within the limit; so when nothing is outstanding against it |
| DeskLimits.StepKeepsWithinIff | src/trading/risk_manager.h:91-154 | a step keeps a ticker within its limit exactly unless it submits an order too large for its own side |
| DeskLimits.SubmitsIff | src/trading/order_manager.h:74-102 | a new order adds its reservation, and only that, exactly when there is a place for it, the check passes and the queue takes it |
| DeskBreach.UnbreachableIff | src/trading/risk_manager.h:111-154 | on any desk, leaked reservations and lowered orders included: no sequence of responses to the order manager can breach the limit exactly when the position plus all that can still fill on each side is within it |
| DeskBreach.WithinIffUnbreachable | src/trading/risk_manager.h:146-154 | when every reservation has its live order behind it, that is exactly that each side's outstanding quantity fits by itself |
| DeskExamples.NettingBreach | src/trading/risk_manager.h:146-154 | a run from start-up: behind a buy of 100 a sell of 200 passes a limit of 100, and its fill makes the position -200 |
| DeskRequests.VerdictIsFirstFailure | src/trading/risk_manager.h:62-89 | the verdict names the first check that fails in the order of the source, and is a pass exactly when none does |
| DeskRequests.RequestsAreChecked | src/trading/risk_manager.h:62-89 | whatever the slots do, every request in the queue was pushed by an event of some slot and is what that event asked for; a new order was pushed while its slot was trading, for a registered ticker, within its limits on quantity, value and projected position |
| DeskRequests.NothingNewWhileOff | src/trading/risk_manager.h:58-64 | while a slot's trading is off, nothing it does queues a new order |
| DeskRequests.StepQueues | src/trading/order_manager.h:74-139 | each request a step queues has the kind, id, terms and quantities that its event and its order call for |
| DeskRequests.CancelQueues | src/trading/order_manager.h:104-116 | a cancel goes out exactly for the first order under its id, live and without a cancel on its way, when the queue has room |
| DeskRequests.ReplaceQueues | src/trading/order_manager.h:118-128 | so does a replace |
| DeskRequests.NewIsRecorded | src/trading/order_manager.h:81-101 | a pushed order is on record with all its terms in the place of a finished one or a new place, and no other order changes |
| DeskRequests.ReplacedGoesOn | src/trading/order_manager.h:125-138 | a replaced order goes on under the new id with the new price and quantity, all else about it unchanged |
| DeskRequests.CancelIsNoted | src/trading/order_manager.h:110-115 | a cancel that goes out is noted on its order and changes nothing else |
| DeskRequests.StepDraws | src/trading/order_manager.h:77-83 | a step draws one id exactly for a new order that finds a place or a replace of an open order, sent or not; only the switch changes the switch |
| DeskRequests.MarksTouch | src/trading/pnl_tracker.h:90-101 | a mark moves the mark and open profit of its ticker and nothing else; no other event but a response touches a position |
| DeskRequests.QueueNeverOverflows | src/trading/order_manager.h:90-91 | over every run of the engine the request queue holds no more than it has room for |
| TradingObjects.PendingExposure | src/trading/risk_manager.h:146-154 | the loop over the pending table computes buys minus sells |
| TradingObjects.RiskManager.CheckSubmit | src/trading/risk_manager.h:62-89 | the verdict of the specification, in the source's order of checks |
| TradingObjects.RiskManager.OnSubmitted | src/trading/risk_manager.h:91-98 | adds the reservation unless the id is pending or the table is full |
| TradingObjects.RiskManager.OnReplaced | src/trading/risk_manager.h:100-109 | moves the reservation, quantity unchanged, to the new id, or refuses |
| TradingObjects.RiskManager.ReleaseAt | src/trading/risk_manager.h:126-136 | lowers or swap-erases the reservation, touching no other |
| TradingObjects.RiskManager.OnOrderResponse | src/trading/risk_manager.h:111-144 | reservation and position after the response are those of the specification, or both unchanged |
| KeyedTables.SwapEraseRemoves | src/trading/risk_manager.h:190-190 | overwriting an entry with the last one removes exactly its key |
| KeyedTables.Scan | src/trading/risk_manager.h:183-188 | the index of the key, or the length when it is absent |
| DeskTheorems.RunKeepsInv | src/trading/order_manager.h:74-215 | every run keeps recorded ids distinct and issued by this slot, and every live order backed by its reservation |
| DeskTheorems.ReservationOfLiveOrder | src/trading/order_manager.h:74-215 | in every reachable state a live order reserves what it was first sent with minus what has filled, which is its open quantity exactly when its replaces kept the quantity |
| DeskTheorems.EvenRun | src/trading/order_manager.h:118-139 | with quantity-keeping replaces, every live order has exactly one reservation, equal to quantity minus filled |
| DeskTheorems.RekeyFailsIff | src/trading/order_manager.h:126-131 | the re-keying after a pushed replace fails exactly for an order that has filled all it was first sent with |
| DeskExamples.GrownOrderCannotBeReplaced | src/trading/order_manager.h:126-131 | a run from start-up: an order replaced upward and filled for its first quantity, whose next replace is pushed and then refused locally |
| DeskTheorems.NewIsReserved | src/trading/order_manager.h:74-102 | no new order reaches the queue without its reservation and its record |
| DeskTheorems.TerminalForever | src/trading/order_manager.h:143-215 | over every run, a finished order never becomes live again under its id |
| DeskTheorems.OthersUntouched | src/trading/order_manager.h:143-215 | a response changes no order but the one it names |
| DeskTheorems.OrphanForever | src/trading/order_manager.h:258-265 | a reservation whose order lost its table slot is never released again |
| DeskLeaks.LeaksIff | src/trading/order_manager.h:165-195 | a response leaves a reservation without a live order exactly when it cancels less than is reserved, is a fill for more than is reserved, without a price, on a ticker without a position or with a profit beyond 64 bits, or completes an order whose quantity was replaced downward |
| DeskExamples.PartialCancelLeaks | src/trading/order_manager.h:183-195 | a run from start-up: an order for ten canceled for four leaves six reserved |
| DeskFills.FillsAreAccounted | src/trading/order_manager.h:156-181 | in every reachable state, through replaces and slot reuse, an order's filled quantity is the total of its accepted executions and its average price is their running truncated mean, which stays among their prices |
| DeskFills.MeanDrift | src/trading/order_manager.h:174-177 | that mean times the quantity is off the executions' value by at most the quantity for each execution after the first |
| DeskStatus.StateIsHistory | src/trading/order_manager.h:143-215 | in every reachable state a live order is partially filled, active or not active according to its fills and acceptances, waits for a cancel exactly when one was queued and not refused since, and a completed order has filled all its quantity |
| DeskStatus.ResponseEffect | src/trading/order_manager.h:143-215 | for every status, the state a response leaves a live order in, what it adds to the fills and which flags it sets |
| DeskStatus.AcceptsIff | src/trading/order_manager.h:143-215 | a response is accepted exactly when it names an order that can still take it |
| DeskStatus.RefusedChangesNothing | src/trading/order_manager.h:157-169 | a refused response changes nothing, except that an execution which cannot be booked kills its order |
| TradingDesk.Find | src/trading/order_manager.h:238-243 | the first order with the id, or the count |
| TradingDesk.AllocSlot | src/trading/order_manager.h:258-265 | the first finished order's place, or the count |
| TradingObjects.OrderManager.SendNewOrder | src/trading/order_manager.h:74-102 | id drawn, risk checked, queued, reserved and recorded, as the specification says; true exactly when a request was queued |
| TradingObjects.OrderManager.SendCancelRequest | src/trading/order_manager.h:104-116 | queues a cancel once for a live order |
| TradingObjects.OrderManager.SendReplaceRequest | src/trading/order_manager.h:118-139 | queues the replace, re-keys the reservation, continues under the new id; false also when the re-keying fails after the push |
| TradingObjects.OrderManager.OnOrderResponse | src/trading/order_manager.h:143-215 | order, reservation and position after any response are those of the specification, and so is the verdict |
| TradingObjects.OrderManager.OnFill | src/trading/order_manager.h:156-181 | a fill: refused, killing the order, or applied with the new average |
| TradingObjects.OrderManager.OnCanceled | src/trading/order_manager.h:183-195 | a cancel report, with zero quantity skipping the risk manager |
| TradingObjects.OrderIdAllocator.Next | src/trading/order_id_allocator.h:23-25 | the slot over the masked counter, which advances by one |
| Wire.IdsEqualIff | src/trading/order_id_allocator.h:23-25 | two ids are equal exactly when slots are equal and counters differ by a multiple of 2^48 |
| Wire.AllocationsDistinct | src/trading/order_id_allocator.h:23-25 | whatever slots draw in whatever order, any 2^48 draws in a row are pairwise distinct |
| Wire.OwnerIff | src/trading/order_id_allocator.h:28-31 | an id belongs to the slot in its high bits, and to none when there is no such slot |
| Wire.TokenRoundTrip | src/order_gateway/order_gateway.cpp:55-65 | parsing a made token returns the id |
| Wire.TokenFindsOwner | src/trading/order_id_allocator.h:23-31 | next, makeToken, parseToken, ownerOf returns the issuing slot |
| Engine.SlotsAreIndependent | src/trading/trade_engine.h:180-189 | however responses interleave, each slot ends where its own responses in order would have taken it alone |
| Engine.ResponseReachesOwner | src/trading/trade_engine.h:180-189 | a response to a slot's token changes that slot and no other |
| Engine.ColumnIsTrace | src/trading/trade_engine.h:191-205 | routing updates by ticker and markers to all takes each book through a run of the whole queue |
| Engine.NoticeSeesPrefix | src/trading/trade_engine.h:207-227 | every notice goes to a slot that registered the ticker and shows the book right after some prefix of the queue |
| Engine.NoticeSeesRun | src/trading/trade_engine.h:207-227 | that is, a stage of one book's run of the queue |
| EngineOrders.SnapshotNoticeIsQuiet | src/trading/trade_engine.h:214-224 | a notice of a book that is loading a snapshot leaves counter, queue, orders and reservations of every slot as they were |
| EngineOrders.NoticeMarks | src/trading/trade_engine.h:219-222 | a notice marks the notified slot's position of that ticker at the price given, if that can be taken, and no other |
| EngineOrders.RequestHasCall | src/trading/trade_engine.h:214-227 | over a drain, every request added to the queue was pushed during a notice whose book is out of a snapshot |
| EngineOrders.CallSends | src/trading/trade_engine.h:226-226 | a call that the check and the queue let through sends exactly its order under the next id of the slot |
| EngineOrders.CalledOnceMarked | src/trading/trade_engine.h:219-226 | out of a snapshot the strategy's calls are made, after the mark |
| EngineOrders.CallsInTurn | src/trading/trade_engine.h:226-226 | a strategy's calls are made one after another |
| EngineOrders.EveryoneIsTold | src/trading/trade_engine.h:191-217 | every update is told to every slot that registered a book it concerns, with the book right after it |
| TradingFloor.SlotIsRun | src/trading/trade_engine.h:52-68 | however the slots draw from one id counter and push to one request queue, each slot goes through a run of its own desk in which the others appear only by the ids they drew and the requests they pushed |
| TradingFloor.SlotSteps | src/trading/order_id_allocator.h:23-25 | each thing that happens to one slot is, for every other slot, nothing but a later counter and a longer queue |
| TradingFloor.OrdersAreOwned | src/trading/order_id_allocator.h:28-31 | in every state an order's id leads its responses to the slot that holds it, so no id is held by two slots |
| TradingFloor.ReachableSlot | src/trading/trade_engine.h:100-105 | wherever the engine gets from start-up, every slot keeps the invariant of desks and the ownership of its ids |
| Engine.RoundReaches | src/trading/trade_engine.h:100-105 | a round's responses and notices take the slots from where they were by moves on the shared floor |
| EngineObject.TradeEngine.DrainResponses | src/trading/trade_engine.h:180-189 | desks after the drain are those of routing each response in turn; counts exactly the unowned and refused |
| EngineObject.TradeEngine.FindTicker | src/trading/trade_engine.h:229-234 | the first book of the ticker, or the count |
| EngineObject.TradeEngine.FindOrCreateTicker | src/trading/trade_engine.h:236-245 | the ticker's book, appended empty when new and there is room |
| EngineObject.TradeEngine.RegisterTicker | src/trading/trade_engine.h:72-92 | exactly when a slot may register a ticker, what that changes, and what a refusal leaves behind |
| EngineObject.TradeEngine.ProcessBookUpdate | src/trading/trade_engine.h:207-227 | the book does the specified step, then every slot that registered the ticker is told, in slot order |
| EngineObject.TradeEngine.ProcessSlotUpdate | src/trading/trade_engine.h:214-227 | a slot with the ticker marks its position if there is a mark, and its strategy makes its calls unless the book is in a snapshot; a slot without it is left alone |
| EngineObject.TradeEngine.MakeCall | src/trading/order_manager.h:74-139 | a strategy's call takes its id from the shared counter, pushes to the shared queue when that has room, and changes no desk but its own |
| EngineObject.TradeEngine.TellSlots | src/trading/trade_engine.h:210-211 | every slot that registered the ticker is told, in slot order |
| EngineObject.TradeEngine.RunOnce | src/trading/trade_engine.h:100-105 | responses first, then updates: desks, counter, queue, books and log are those of the specification |
| EngineObject.TradeEngine.Run | src/trading/trade_engine.h:169-178 | any number of rounds takes the slots from where they were by moves on the shared floor |
| EngineObject.MaySubmit | src/trading/risk_manager.h:62-89 | the check passes exactly when the specification says so |
| EngineObject.Submit | src/trading/order_manager.h:74-102 | an order sent from a desk held as a value does the specified step |
| EngineObject.ExposureOn | src/trading/risk_manager.h:146-154 | the loop over the reservations computes buys minus sells |
| EngineObject.TradeEngine.DrainMarketUpdates | src/trading/trade_engine.h:191-205 | every book goes through the whole queue; log, desks, counter and queue are exactly those of the specified notices, per update, per book, per slot |
| Framing.ParseSplit | src/market_data/market_data_consumer.cpp:103-141 | one delivery's leftover is all the next one needs: parsing a+b is parsing a, then what was left plus b |
| Framing.ChunkIndependence | src/market_data/market_data_consumer.cpp:103-141 | for any loop whose decisions progress and do not depend on later bytes, every cut of a stream gives the same messages, state and leftover |
| ItchFramer.ItchChunkIndependence | src/market_data/market_data_consumer.cpp:103-141 | so for the ITCH loop: updates, decoder table and leftover bytes |
| ItchFramer.ActProgresses | src/market_data/market_data_consumer.cpp:112-135 | every decision but waiting consumes at least one byte and no more than there are |
| ItchFramer.ActOnPrefix | src/market_data/itch_decoder.cpp:15-85 | a decision does not change when more bytes follow |
| ItchTable.AgreementIff | src/market_data/itch_decoder.cpp:149-311 | a decoded update keeps decoder table and book equal exactly when it is a new non-empty order (or an exact repeat), a replacement that is not empty, takes a free reference and does not make the vector move, a marker with nothing to clear, or any reduction or delete |
| ItchMeaning.DecodesIff | src/market_data/itch_decoder.cpp:149-311 | a message is decoded exactly when it is an add, a snapshot marker or names a live order; its update has the frame's number, the message's kind, references and shares, an add its own terms, anything else the side and, unless replaced, the price of the order held |
| ItchMeaning.DecodedLeaves | src/market_data/itch_decoder.cpp:149-311 | which orders of every ticker the decoder believes in after each message |
| ItchMeaning.StreamMeans | src/market_data/market_data_consumer.cpp:103-141 | a stream of frames known when they arrive is read back one update per frame, each saying what its frame means to the decoder at that point |
| ItchMeaning.ActIff | src/market_data/market_data_consumer.cpp:112-135 | at each offset the loop waits exactly for a truncated frame, takes exactly a complete known one, and otherwise skips one byte |
| ItchMeaning.TokenDropped | src/market_data/market_data_consumer.cpp:116-121 | a registration token is dropped whole and the rest read as if it had not been there |
| ItchMeaning.GarbageDropped | src/market_data/market_data_consumer.cpp:129-134 | a byte in front of which no frame starts costs nothing but itself |
| ItchMeaning.SendableIff | src/market_data/market_data_consumer.cpp:14-15 | the frames that do not start like the token are those whose sequence number is not one of 65536 |
| ItchMeaning.FrameTakenIff | src/market_data/market_data_consumer.cpp:116-126 | a known frame is taken exactly when its sequence number is none of these |
| ItchTable.RepeatedAddDiverges | src/market_data/itch_decoder.cpp:149-164 | two adds under one reference after which decoder and book disagree |
| ItchTable.ReplaceKeepsOldEntry | src/market_data/itch_decoder.cpp:297-308 | a replace under the next reference after which the decoder believes in both orders and the book only in the new one |
| ItchFramer.DecoderBookIff | src/market_data/itch_decoder.cpp:149-311 | on every byte stream, table and book agree after each update exactly when every update was clean for the table and the book it met |
| ItchFramer.CleanStreamAgrees | src/market_data/itch_decoder.cpp:149-311 | after a clean stream the decoder holds the book of everything it emitted |
| ItchTable.AssignLive | src/market_data/itch_decoder.cpp:157-163 | resizing and assigning a slot writes exactly that order of that ticker |
| ItchWire.MessageRoundTrip | src/market_data/itch_decoder.cpp:149-311 | every message that fits its fields is read back as written |
| ItchWire.StreamRoundTrip | src/market_data/market_data_consumer.cpp:103-141 | a stream of decodable frames, none starting like the registration token, is read back update by update with nothing skipped or left |
| OuchFramer.OuchChunkIndependence | src/order_gateway/order_gateway.cpp:158-234 | any split or coalescing of response bytes gives the same responses and leftover |
| OuchFramer.ResponsesRoundTrip | src/order_gateway/order_gateway.cpp:158-234 | a stream of complete responses is read back in order, each once, with nothing left |
| OuchFramer.GarbageDropped | src/order_gateway/order_gateway.cpp:163-225 | a byte that starts no response is dropped and the rest read as if it had not been there |
| OuchFramer.NeverRejected | src/order_gateway/order_gateway.cpp:173-225 | no response bytes ever produce a rejection |
| FramerObjects.Socket.Compact | src/market_data/market_data_consumer.cpp:137-140 | the bytes behind the offset, moved to the front in place |
| FramerObjects.ItchDecoder.Decode | src/market_data/itch_decoder.cpp:15-85 | update, size and table on success; on failure the table is untouched and need-more tells truncation from garbage |
| FramerObjects.ItchDecoder.DecodeReduce | src/market_data/itch_decoder.cpp:183-233 | executions and cancels reduce the slot or refuse, as specified |
| FramerObjects.ItchDecoder.DecodeDelete | src/market_data/itch_decoder.cpp:235-283 | markers by locate code, deletes of known orders, refusals otherwise |
| FramerObjects.ItchDecoder.DecodeReplace | src/market_data/itch_decoder.cpp:285-311 | writes the new slot, then clears the old one unless the vector moved in between |
| FramerObjects.ItchDecoder.DecodeMessage | src/market_data/itch_decoder.cpp:66-85 | dispatch by message type, system events refused |
| FramerObjects.ItchDecoder.Reset | src/market_data/itch_decoder.cpp:313-316 | an empty table |
| FramerObjects.ItchRead | src/market_data/market_data_consumer.cpp:112-135 | one turn of the loop is one decision of the specification |
| FramerObjects.ReachesParse | src/market_data/market_data_consumer.cpp:112-135 | a loop that takes such decisions one after another from the front is bound for the parse of the buffer |
| FramerObjects.ItchScan | src/market_data/market_data_consumer.cpp:103-141 | from a loop bound for some result, the loop emits its updates, reaches its table and stops at its leftover |
| FramerObjects.ItchReceive | src/market_data/market_data_consumer.cpp:103-141 | one callback: updates, table and buffer afterwards are those of parsing the bytes held |
| FramerObjects.OuchRead | src/order_gateway/order_gateway.cpp:163-225 | one turn of the response loop is one decision of the specification |
| FramerObjects.OuchScan | src/order_gateway/order_gateway.cpp:158-228 | from a loop bound for some result, the loop queues its responses in order until the queue is full and stops at its leftover |
| FramerObjects.OuchReceive | src/order_gateway/order_gateway.cpp:158-234 | one callback: the queue holds as many parsed responses as fit, the buffer the leftover |

## Left out

- Sockets, connecting, sending, registration timers, threads, memory order, logging: one step per consumer or engine action; what arrives is an input.
- Wire structs, queues and object pool come from a library that is not part of this model: ITCH sizes and offsets are those of Nasdaq TotalView-ITCH 5.0, OUCH sizes those of tools/compete.py:16-45 with the fields of OUCH 4.2 (sections 2 and 3); a replaced response is read with the layout of an accepted one. The two sources disagree on Order Replace: 35 bytes in ITCH 5.0, 34 in tools/compete.py:17, whose own reader takes a price from bytes 31 to 34; the model uses 35.
- The decoder during recovery: live and recovery bytes share one decoder that a snapshot resets, so recovery takes already decoded updates as its inputs, and `decodeSnapshot` is not modelled.
- Sequence numbers, references and net quantities do not wrap: 64-bit overflow is not modelled; 32-bit level totals, 32-bit prices, the masked id counter and the 64-bit profit checks are.
- Queue-full and pool-exhausted assertions in the consumer and the book stop the process; the model has room. A full request or response queue, which the source handles, is modelled.
- Book nodes are indices into a table of nodes rather than heap objects, and the two level maps are one map keyed by side and price: aliasing is kept (links are indices), memory reuse is not.
- After a spoiling replace the book is followed by value as long as its index leads to nodes; clearing broken lists, or following an index that leads nowhere, is undefined in the source and may yield any book here. The book object is specified up to the spoiling replace.
- Writing through the decoder's dangling reference is undefined in the source; the model takes the write to be lost. How much a vector grows when it moves is the library's choice; the model takes at least twice its size.
- The engine keeps desks and books as values, stepping by the functions and relations that the order-manager and order-book objects are proved to compute. Mark prices, the calls strategies make and how far the gateway has emptied the request queue are inputs. Tickers are registered before updates flow.
- decodeAddOrder and decodeOrderReplace resize a ticker's vector to the reference plus one and are noexcept, so a reference beyond what memory holds ends the process; the framer theorems speak of every byte stream as if there were memory for it.
- Fields of responses that the order manager never reads (market id, side, price, quantity), order-update callbacks, statistics counters and the decoder's tracked count (which replace increments without decrementing).
- DeskBreach.UnbreachableIff: assumes a position as the profit tracker keeps it, whose open profit would still fit 64 bits if all that can fill on its own side filled at the average; beyond that, which fills are refused depends on rounding.
- DeskBreach.WithinIffUnbreachable: for desks whose reservations all have their live order behind them; DeskBreach.UnbreachableIff covers the others.
- DeskLimits.RunStaysWithin: for runs whose submissions meet no opposite-side reservation; for all others DeskLimits.RunStaysWithinIff gives the exact condition.
- Features, the FeatureEngine fold, LiquidityTaker thresholds, main.cpp, tools and scripts: short formulas and orchestration that would only add easy members.
- That a recovery ever ends: it depends on what the server sends. What each end of it does is covered.
- TradingFloor.SlotIsRun: for fewer than 2^48 ids drawn in all; Wire.IdsEqualIff says when ids repeat after that.
- What the exchange fills under an old id after a replace: the client re-keys at once, and only its own records are modelled.
