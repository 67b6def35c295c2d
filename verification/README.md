# Verified model of the finam-tradebot core

The bot trades quarterly FORTS futures. Its network shell wraps a handful of
stateful algorithms: a lock-free queue, an order-book feed and the imbalance
score built on it, conversion of cumulative fills to deltas, lot matching and a
risk gate shared by many runner threads, the contract calendar, the session,
flow and spoof analysers with the entry machine that composes them, and the
backtest accounting. This project models them in Dafny and proves what each one
means over whole histories and whole interleavings.

Conventions: doubles are `real`, timestamps are integer nanoseconds since the
epoch, `std::map` is a sorted sequence, `std::unordered_map` a `map`. Objects
the source mutates are classes; their `Valid()` ties every field to a function
of the ghost history of calls. Threads are step functions over one shared state,
split at each atomic load, store, slot access or lock, and theorems quantify
over every enabled sequence of steps. Verify with `dafny verify dfyconfig.toml`.

| file | content |
|---|---|
| `Common.dfy`, `BitMask.dfy` | shared types and arithmetic; masks on unsigned words |
| `SpscQueue.dfy` | the ring as a two-thread protocol, the queue object, and many pushing threads |
| `OrderBookFeed.dfy`, `OrderBookState.dfy` | rows to snapshots to level events to decayed scores |
| `OrderClient.dfy`, `RiskManager.dfy`, `StrategyRunner.dfy` | fills, lots, limits, breaker, runners |
| `Contract.dfy` | Gregorian calendar, contract choice, symbol codes |
| `SessionContext.dfy`, `TradeFlow.dfy`, `SpoofFilter.dfy`, `Confluence.dfy` | analysers and the entry machine |
| `Backtest.dfy` | backtest accounting |

## Where the code departs from its intent

Each of these is stated as an exact condition or shown by a concrete input.

- The runner pushes from several threads. Where pushes overlap, items are lost, overwritten or reordered exactly when some publish finds another head than it loaded, a full ring or another item in its slot, or some write hits a readable slot (`QueueStaysWholeExactly`); a push over a stale head can also be refused with room to spare, even on an empty ring of any size (`QueueIsFifoExactly`, `EmptyRingRefuses`).
- `decay_tick` reports a stale score unless no decay time has passed (`ReportedScoreIsStale`). Neither it nor the spoof filter's `on_large_fill` has a caller in the repository; for the adds and cancels the strategy does make, a price can be flagged without an add exactly if one event is enough and the cancel ratio is at most one (`FeedFlagsNeedAnAddExactly`).
- An upsert whose read is stale when it writes counts fills twice (`DeliveredDeltasExactly`). A stream report that precedes the submit record names no symbol and is booked by every runner; the submit record then takes its quantity back, and the next report adds it again: with k runners 5 lots are booked as 5k + 5 (`LateSubmitIsBookedByAll`). A quantity executed under another status than a fill, such as a cancelled remainder, is not booked at all. The books follow the reports exactly when each rise is a fill booked by one runner and nothing falls (`BooksFollowReportsExactly`).
- A fill that does not cover the lot it closes, or reuses an id in use, drops quantity from the books (`NothingDroppedExactly`, `PartialCloseDropsALot`).
- Stream updates carry price 0, so live fills never realise profit and a position opened by them never reaches its stop or target (`LiveFillsRealiseNothing`, the last clause of `ConfluenceStrategy.OnQuote`).
- An update without a symbol is booked once per runner, which changes the lots exactly if the first booking closed one (`FillIsBookedOnceExactly`, `RepeatIsHarmlessExactly`).
- Closing a short position sells again (`CloseFlattensOnlyLongs`); the strategy's position misses every quantity not reported as a complete fill and whatever is held at a session opening or rollover (`PositionRightExactly`).
- With base size one an entry without a narrow-range day has quantity zero and is rejected (`EntryIsAcceptedExactly`).
- The first quote closes the opening range at any time of day, and with no bar seen that leaves no bias for the session (`ConfluenceStrategy.OnQuote`, `EmptyWindowHasNoBias`); tests/unit/test_session_context.cpp:49-51 expects a bias there.
- After a day that was reset, a day without a reading before the opening minute is not (`DayIsResetExactly`).
- Trades out of order can leave stale ones in the flow windows (`WindowIsRightExactly`).
- The rollover rule is right for every date only for leads of -10 to 14 days (`NearestIsEarliestExactly`); `expiry_day` reads 2030 as 2020 (`ExpiryDayWrongIn2030`); `check_expiry` passes every generated symbol whose ticker lacks '-' or '.', and every symbol of the old format with a two-digit year, on every date (`ExpiryRefusesExactly`, `GeneratedSymbolsPassExpiryExactly`, `OldFormatIsNeverRefused`). tests/unit/test_contract.cpp:27 and the comments in src/core/interfaces.hpp expect the old symbol format; the model follows the code.
- A backtest runner used twice keeps its old peak and may report a drawdown that is not the run's own (`ReportsOwnDrawdownExactly`). It trades exactly if some bar signals an entry (`NoTradesExactly`), which the strategy's `on_bar` never does.
- After a rollover to another contract the strategy keeps its old symbol: it ignores the new contract's bars and quotes, the client records what its entries execute, and neither the books nor the position do (`HistoryIsTakenExactly`, `OnQuote`, `EntryIsHeardExactly`, `OnStreamReport`, `ForeignContractIsUnheard`).
- Any number of entries pass the position limit on one reading of the account (`OneReadingAdmitsAny`).

## Model

| member | source | states |
|---|---|---|
| BitMask.SizeTestAdmitsPowersOfTwo | src/core/spsc_queue.hpp:25 | the template's bit test accepts exactly the powers of two from 2 up |
| BitMask.MaskIsMod | src/core/spsc_queue.hpp:31 | masking with N-1, bit by bit, is the remainder modulo N |
| BitMask.MaskedWordSub | src/core/spsc_queue.hpp:73 | the masked unsigned difference is the distance modulo N even when the subtraction wraps |
| SpscProtocol.StepKeepsInv | src/core/spsc_queue.hpp:29-74 | every atomic step of either thread keeps the link between indices, slots, both threads' stale local values and the push/pop histories |
| SpscProtocol.RunKeepsInv | src/core/spsc_queue.hpp:29-74 | the same over every interleaving |
| SpscProtocol.NothingLost | src/core/spsc_queue.hpp:29-63 | in every reachable state items popped followed by ring contents are the items pushed, in order; at most N-1 are held |
| SpscProtocol.WriteNeverTouchesReadableSlot | src/core/spsc_queue.hpp:36 | the slot about to be written is in range, not readable and not being read |
| SpscProtocol.RefusalIsExact | src/core/spsc_queue.hpp:33-58 | push refuses exactly with N-1 live items at its tail load, pop exactly with none at its head load |
| SpscProtocol.SizeIsOneSided | src/core/spsc_queue.hpp:70-74 | size stays in 0..N-1, an upper bound when the producer returns from it, a lower bound for the consumer |
| SpscProtocol.StepRefinesFifo | src/core/spsc_queue.hpp:29-63 | each step is silent or one legal operation of a FIFO of capacity N-1 |
| SpscProtocol.RunRefinesFifo | src/core/spsc_queue.hpp:29-63 | the results returned along any interleaving are a legal bounded-FIFO history ending in the ring's contents |
| SpscProtocol.EmptyMeansDrained | src/strategy/strategy_runner.hpp:143-146 | in every reachable state a pop comes back empty exactly when everything pushed by then has been popped, whatever was pushed during the draining |
| SpscQueue.SoloPushAppends | src/core/spsc_queue.hpp:29-39 | the producer's steps taken alone append unless N-1 items are held |
| SpscQueue.SoloPopRemoves | src/core/spsc_queue.hpp:54-63 | the consumer's steps taken alone remove the oldest item unless none is held |
| SpscQueue.SpscQueue.Push | src/core/spsc_queue.hpp:29-39 | succeeds exactly below N-1 items, then the contents gain the item at the end; same state as the protocol's steps |
| SpscQueue.SpscQueue.Pop | src/core/spsc_queue.hpp:54-63 | empty result exactly on an empty queue, otherwise the oldest item leaves |
| SpscQueue.SpscQueue.Size | src/core/spsc_queue.hpp:70-74 | the number of items held |
| SpscQueue.SpscQueue.Empty | src/core/spsc_queue.hpp:65-68 | true exactly when nothing is held |
| ManyProducers.SeparateCallsRefineFifo | src/core/spsc_queue.hpp:11-13 | any number of pushing threads whose calls do not overlap, interleaved with the consumer, refine the bounded FIFO and lose nothing |
| ManyProducers.QueueStaysWholeExactly | src/strategy/strategy_runner.hpp:190-205 | for every interleaving of any number of pushing threads with the consumer: at no point is an item lost, duplicated or reordered exactly when every publish finds its loaded head, room and its own item in the slot, and every write a slot nobody can read or already holding that item |
| ManyProducers.StepKeepsIntactExactly | src/core/spsc_queue.hpp:29-63 | the same for a single step of any thread or of the consumer |
| ManyProducers.RefusalExactly | src/core/spsc_queue.hpp:33-34 | on an intact ring a push that loaded the present head is refused exactly when the ring is full; one with a stale head exactly when the slot after that head is the tail, and then there is room |
| ManyProducers.StepIsLegalExactly | src/core/spsc_queue.hpp:29-63 | on an intact ring a step is a legal one of the bounded FIFO, refusals included, exactly when it is sound and refuses no push over a stale head |
| ManyProducers.QueueIsFifoExactly | src/strategy/strategy_runner.hpp:190-205 | for every interleaving of any number of pushing threads with the consumer: every step is legal exactly when every step is of that kind, and all results are then one bounded-FIFO history ending in the ring's contents |
| ManyProducers.EmptyRingRefuses | src/core/spsc_queue.hpp:33-34 | an instance for every ring size: nine steps from the start reach an empty ring that refuses a push |
| ManyProducers.OverlappingPushesLoseExactly | src/strategy/strategy_runner.hpp:190-205 | two pushes and no other step between: from every ring state and in every order of finishing, if both load before either publishes, both succeed with one item gone exactly when the ring was not full at the loads; a full ring refuses both |
| ManyProducers.OverlapCanFinish | src/strategy/strategy_runner.hpp:190-205 | from every ring state two such pushes can run to their end |
| OrderBookFeed.PutIsMapUpdate | src/market_data/market_data_client.cpp:293-305 | storing a row keeps the side sorted and changes the lookup at its price only |
| OrderBookFeed.EraseIsMapRemoval | src/market_data/market_data_client.cpp:293-305 | erasing keeps the side sorted and empties its price only |
| OrderBookFeed.RowKeepsFold | src/market_data/market_data_client.cpp:287-306 | one more row keeps a side equal to the last-writer-wins fold of the rows |
| OrderBookFeed.FoldIsUnique | src/market_data/market_data_client.cpp:308-314 | sortedness and the last write at every price determine the snapshot side completely |
| OrderBookFeed.OrderBookStream.OnMessage | src/market_data/market_data_client.cpp:286-314 | after all rows of all parts, one snapshot: bids falling, asks rising; a price whose last row on a side since the reconnect removes it or has a negligible size is absent, otherwise it shows that size without its fraction; no other price appears; a row with a buy size speaks of the bids only |
| OrderBookFeed.SnapshotShowsRows | src/market_data/market_data_client.cpp:287-314 | the sorted fold of the rows shows just that |
| OrderBookFeed.OrderBookStream.OnReconnect | src/market_data/market_data_client.cpp:320-326 | both sides and their write history start over |
| OrderBookFeed.LevelDiff.OnBook | src/market_data/market_data_client.cpp:410-448 | one event per changed level of five, in order, with the level's sizes before and after and the price of its current bid, else current ask, else previous bid, else previous ask; the event log stays that of the whole run of snapshots |
| OrderBookFeed.EventsChain | src/market_data/market_data_client.cpp:410-448 | over any run, reconnects included, each level's events chain from the starting sizes to the current ones |
| BookPipeline.ChainTelescopes | src/market_data/market_data_client.cpp:410-448 | a chain's imbalances add up to the net change of bid minus ask |
| BookPipeline.UndecayedScoreIsNetChange | src/strategy/order_book_state.hpp:28-38 | without decay or drops a level's score is the change of bid minus ask size since the reset |
| OrderBookState.LevelScoreStep | src/strategy/order_book_state.hpp:69-81 | decay-then-add on one more entry equals the closed sum of imbalances each decayed by its own age |
| OrderBookState.ClockIsRunningMaximum | src/strategy/order_book_state.hpp:69-81 | with timestamps after the epoch in any order the decay clock is the latest one, and total decay time its distance from the first |
| OrderBookState.AgeIsClockDifference | src/strategy/order_book_state.hpp:69-81 | hence each entry is aged by the latest timestamp now minus the latest when it came |
| OrderBookState.EventKeepsTracking | src/strategy/order_book_state.hpp:28-38 | after an event every level score is its closed form and the score is the weighted dot product |
| OrderBookState.TickKeepsTracking | src/strategy/order_book_state.hpp:40-44 | the same after a decay tick, with the reported score behind by exactly the decay since the last event |
| OrderBookState.ReportedScoreIsStale | src/strategy/order_book_state.hpp:40-44 | the reported score is live exactly when no decay time has passed since the last book event or the score is zero |
| OrderBookState.SomeLevelAbove | src/strategy/order_book_state.hpp:48-52 | a weighted score above a bound needs one level above it |
| OrderBookState.SomeLevelBelow | src/strategy/order_book_state.hpp:48-52 | the mirror image for scores below |
| OrderBookState.OrderBookState.PrecomputeWeights | src/strategy/order_book_state.hpp:62-67 | five positive weights in geometric ratio that sum to one |
| OrderBookState.OrderBookState.ApplyTimeDecay | src/strategy/order_book_state.hpp:69-81 | scales score and levels by the factor for the time passed, never backwards, not at all on the first reading |
| OrderBookState.OrderBookState.OnBookEvent | src/strategy/order_book_state.hpp:28-38 | an in-range event joins the history and every field keeps its closed form; any other changes nothing, not even the clock |
| OrderBookState.OrderBookState.DecayTick | src/strategy/order_book_state.hpp:40-44 | decays the live scores and returns the last event's result with a new timestamp |
| OrderBookState.OrderBookState.CurrentVote | src/strategy/order_book_state.hpp:48-52 | long exactly above the threshold, short exactly below its negative (and not above it); a long (short) vote comes with a level score above (below) the threshold |
| OrderBookState.OrderBookState.Reset | src/strategy/order_book_state.hpp:54-59 | back to the empty history |
| FillDeltas.BookedIsStoredExactly | src/order/order_client.cpp:239-245 | the quantity booked from positive deltas with a fill status is the stored quantity after every report exactly when reports never fall and every rise comes as a fill |
| FillDeltas.BookedBalance | src/order/order_client.cpp:239-245 | deltas add up to the stored quantity; the booked quantity exceeds it by what fell and misses what rose without a fill |
| FillDeltas.FallHidesMissedFill | src/order/order_client.cpp:239-245 | an instance where the last report alone is right by accident |
| FillDeltas.LateSubmitCountsTwice | src/order/order_client.cpp:157-168 | an instance: a submit record stored after the first stream report makes 5 lots come to 10, each positive delta counted once |
| UpsertProtocol.StepKeepsIdInv | src/order/order_client.cpp:236-268 | read, write and callback steps of any threads keep an order's deltas equal to those of its writes, if upserts of that order do not overlap |
| UpsertProtocol.DeliveredDeltasMatchStored | src/order/order_client.cpp:236-268 | without overlap, with none in flight, the delivered deltas are the changes of the stored quantity in order and sum to it; what is booked from them is it exactly when as much fell as rose without a fill |
| UpsertProtocol.DeliveredDeltasExactly | src/order/order_client.cpp:236-268 | for every interleaving at all, with none in flight: delivered deltas are those the writes formed and sum to the stored quantity plus what writes replaced beyond what their upserts had read; the booked quantity is that plus what the deltas took back less what came without a fill |
| UpsertProtocol.ClaimsAreChangesExactly | src/order/order_client.cpp:240-245 | each delta is its write's change exactly when every write still finds the quantity its upsert had read |
| UpsertProtocol.UndisturbedRunsCountOnce | src/order/order_client.cpp:240-265 | upserts of an order may overlap as long as no write comes between another's read and write: deltas sum to the stored quantity, and all of it is booked once if it never falls and rises by fills only |
| UpsertProtocol.OverlapCountsTwice | src/order/order_client.cpp:240-265 | an instance of a stale read: two overlapping upserts make 5 lots be booked as 10 |
| OrderClient.SentFillsMatchStored | src/order/order_client.cpp:236-268 | the same balance for the client object over every history of calls |
| OrderClient.OrderClient.Upsert | src/order/order_client.cpp:236-268 | stores the record, sends the change; replaying an unchanged quantity sends zero |
| OrderClient.OrderClient.Submit | src/order/order_client.cpp:116-172 | accepted exactly with a client id, a positive quantity, a price if limited, and an answer, otherwise the error says which is missing; then the request is stored whole with no fill and sent; a rejected request leaves orders and updates alone, a refused call only uses an id |
| OrderClient.Int32Wraps | src/order/order_client.cpp:236-268 | the transaction id is the order id modulo 2^32, the same within 32 bits |
| OrderClient.OrderClient.OnStreamOrder | src/order/order_client.cpp:286-317 | stores the whole report under the symbol of the stored record, or none, with price 0; other orders and the id counter stay; the update carries the change in quantity |
| RiskLedger.LotsStayOneSided | src/risk/risk_manager.cpp:121-149 | in every reachable state open lots are all long or all short |
| RiskLedger.PeakIsRunningMaximum | src/risk/risk_manager.cpp:96-101 | the peak is the largest liquid value ever held, zero included, so drawdown is never negative |
| RiskLedger.BaseIsConstant | src/risk/risk_manager.cpp:134-135 | between refreshes liquid value minus daily profit does not change |
| RiskLedger.StepConserves | src/risk/risk_manager.cpp:114-150 | for one fill, profit is cash plus change in open value plus what the fill drops |
| RiskLedger.NothingDroppedExactly | src/risk/risk_manager.cpp:140-146 | the open quantity follows the fill exactly when it covers the lot it closes or opens under an unused id |
| RiskLedger.MoneyIsConserved | src/risk/risk_manager.cpp:114-150 | over every run and every choice of lot: total profit is net cash plus open entry value plus the dropped value; open quantity is net fills less the dropped quantity |
| RiskLedger.EqualFillsConserve | src/risk/risk_manager.cpp:114-150 | with equal-sized fills and fresh ids nothing is dropped and both laws hold exactly |
| RiskLedger.PartialCloseDropsALot | src/risk/risk_manager.cpp:140 | a buy of 2 closed by a sale of 1 leaves no open lot |
| RiskLedger.RepeatIsHarmlessExactly | src/risk/risk_manager.cpp:121-149 | a fill booked several times leaves the lots as the first booking did exactly when that one opened a lot |
| RiskLedger.ZeroPricedFillsRealiseNothing | src/risk/risk_manager.cpp:131-135 | fills without a price never change the account figures |
| RiskManager.LimitsAreExact | src/risk/risk_manager.cpp:221-246 | the loss and drawdown checks pass exactly when the loss or drop is below the allowed share, without division |
| RiskManager.SymbolAlwaysPassesExactly | src/risk/risk_manager.cpp:293-333 | for a given parser a generated symbol passes on every date exactly when it does not read as the old format |
| RiskManager.GeneratedSymbolsPassExpiryExactly | src/risk/risk_manager.cpp:293-333 | a generated symbol passes on every date, whatever the parser, exactly when its ticker lacks '-' or lacks '.' |
| RiskManager.RiskManager.RefreshAccount | src/risk/risk_manager.cpp:96-101 | one refresh event joins the history |
| RiskManager.RiskManager.OnFill | src/risk/risk_manager.cpp:114-150 | one fill event joins the history, closing some opposite lot whenever one exists |
| RiskManager.RiskManager.Check | src/risk/risk_manager.cpp:202-286 | passes exactly with the breaker open, loss, drawdown and position count below their limits, the symbol tradable and, if a margin is known, that margin free and within the per-trade share; the error code is that of the first limit missed, want of free margin alone giving its own |
| RiskManager.ExpiryRefusesExactly | src/risk/risk_manager.cpp:293-333 | a symbol is refused on some date exactly when its last but one character is a month letter and it reads as the old format all the same |
| RiskManager.OldFormatReads | src/risk/risk_manager.cpp:297-305 | ticker-month.year gives back its month and year |
| RiskManager.OldFormatIsNeverRefused | src/risk/risk_manager.cpp:293-333 | so an old-format symbol with a two-digit year passes on every date |
| RiskManager.RiskManager.TripCircuitBreaker | src/risk/risk_manager.cpp:154-158 | only the first trip sets the reason |
| RiskGate.StepKeepsLatch | src/risk/risk_manager.cpp:154-158 | with the exchange and the reason store as separate steps of N runners, the trip and its winner are permanent |
| RiskGate.TripIsForever | src/risk/risk_manager.cpp:154-219 | in every run from the start, once tripped, every later state is tripped by the same first winner, whose reason is the one stored |
| RiskGate.LatchFromStart | src/risk/risk_manager.cpp:154-219 | the latch invariant holds after every run from the initial state |
| RiskGate.AtMostOneMoreEntry | src/strategy/strategy_runner.hpp:251-267 | after the trip a runner submits at most one more entry, only if it loaded the breaker before, and then never again |
| RiskGate.OneMoreEntryExactly | src/strategy/strategy_runner.hpp:251-267 | the bound is attained: after the trip some continuation lets a further entry of a runner out exactly when it had loaded the breaker before and its drawdown check is behind it or can still pass |
| RiskGate.PeakBounds | src/risk/risk_manager.cpp:96-101 | every run keeps the peak, which never falls, at or above the liquid value, as that needs |
| RiskGate.ClosesAlwaysPass | src/strategy/strategy_runner.hpp:251-266 | a close goes out whatever steps other runners, the breaker and the account take meanwhile |
| RiskGate.EntryPassedEveryCheck | src/risk/risk_manager.cpp:202-286 | in every interleaving an entry about to be submitted has passed each check in its turn: each limit held on the account as it was when the runner came to that check |
| RiskGate.OneReadingAdmitsAny | src/risk/risk_manager.cpp:249-257 | between two account readings the position limit bounds nothing: any number of entries, by any runners, all pass on one reading and are submitted |
| StrategyRunner.EntryIsAcceptedExactly | src/strategy/confluence_strategy.hpp:191-192 | an entry order passes the client's validation exactly with base size two, or one after a narrow-range day |
| StrategyRunner.LiveFillsRealiseNothing | src/order/order_client.cpp:302-316 | whatever a client sends, the account figures the limits read never change by fills |
| StrategyRunner.HandleSignal | src/strategy/strategy_runner.hpp:239-268 | a signal to trade is submitted exactly when it is a close or the risk manager's limits admit it; the stored order and the update sent for it are a buy exactly for a long entry, with the signal's symbol, kind, price and quantity; a refusal trips the breaker with its message unless tripped already, except for want of free margin alone |
| StrategyRunner.SignalToPosition | src/strategy/strategy_runner.hpp:239-268 | from a signal through check, client, fill and update to the strategy: an admitted and answered signal that is then filled raises the position by the fill for a long entry, lowers it for a short one or a close; any other leaves it alone |
| StrategyRunner.FillNewOrder | src/order/order_client.cpp:286-317 | a complete fill of a new order moves the position up for a buy, down for a sale, exactly if the runner's filter lets it pass |
| StrategyRunner.FillIsBookedOnceExactly | src/strategy/strategy_runner.hpp:71-89 | a named fill is booked once if some runner trades it and never otherwise; one without a symbol once per runner; an update that is no positive fill never |
| StrategyRunner.NotifyAll | src/strategy/strategy_runner.hpp:71-89 | calling back all runners adds exactly that many bookings of the update to the shared risk history, and the update to every accepting queue with room |
| StrategyRunner.BooksFollowReportsExactly | src/strategy/strategy_runner.hpp:71-82 | from exchange reports to the books, for every order of a client and any distinct runners: they book the stored quantity after every report exactly when nothing falls and each rise is a fill naming a traded symbol, or none with a single runner; at any time the books differ from it by what fell, what came unnamed for every runner but one, what rose without a fill and what nobody trades |
| StrategyRunner.NamedOrderIsBookedExactly | src/strategy/strategy_runner.hpp:71-82 | hence an order named throughout by a traded symbol is booked right exactly when its reports never fall and rise by fills only |
| StrategyRunner.LateSubmitIsBookedByAll | src/order/order_client.cpp:295-316 | an instance for any number of runners k: an unnamed report, the submit record and a named report book 5 lots as 5k + 5, with the client's own history in order |
| StrategyRunner.EntryIsHeardExactly | src/strategy/strategy_runner.hpp:71-77 | updates of an entry are passed on exactly while the active symbol is the strategy's own |
| StrategyRunner.Rollover | src/strategy/strategy_runner.hpp:155-176 | the active symbol moves on; the strategy, reset, takes in exactly the bars of its own symbol, so a daily history of the next contract in whole or not at all |
| StrategyRunner.OnStreamReport | src/order/order_client.cpp:286-317 | from a stream report of a known order to one runner: the client stores what was executed; the books and the queue gain the change exactly when the order's symbol is active or empty |
| StrategyRunner.PositionFollowsExactly | src/strategy/confluence_strategy.hpp:90-103 | through the runner's filter the strategy's position moves with the client's updates, after each of them, exactly when every one with a quantity is a complete fill naming the active symbol or none |
| StrategyRunner.ForeignContractIsUnheard | src/strategy/strategy_runner.hpp:155-176 | after a rollover to another contract the position stays zero whatever the strategy's own orders execute |
| StrategyRunner.OnUpdate | src/strategy/strategy_runner.hpp:71-89 | complete and partial fills of a positive quantity under the active symbol or none reach the risk history, all updates under it the queue while there is room, others nothing |
| StrategyRunner.DrainQueue | src/strategy/strategy_runner.hpp:143-146 | everything queued is dispatched oldest first and the queue is left empty |
| Calendar.DaysAreConsecutive | src/core/contract.hpp:70-75 | the day numbering starts at 1970-01-01 and gives each next date the next number |
| Calendar.CalendarOrder | src/core/contract.hpp:70-75 | calendar order is number order and a number names one date |
| Contract.ThirdFridayIsTheThird | src/core/contract.hpp:20-32 | the result is a Friday of that month with exactly two Fridays before it |
| Contract.PicksEarliest | src/core/contract.hpp:77-88 | for leads from -10 to 14 days the choice is the earliest contract whose roll date is strictly ahead |
| Contract.NearestIsEarliestExactly | src/core/contract.hpp:77-88 | it is that on every date exactly for those leads |
| Contract.NearestNeverMovesBack | src/core/contract.hpp:77-88 | the choice never moves back as time advances, for any lead |
| Contract.CodesCollideEveryTenYears | src/core/contract.hpp:90-96 | equal codes only a multiple of 40 contracts apart, and there always |
| Contract.RolloverIsDetected | src/strategy/strategy_runner.hpp:114-120 | comparing codes tells apart any two of 40 consecutive contracts |
| Contract.ExpiryDayReadsBack | src/core/contract.hpp:103-121 | reading a generated symbol recovers its third Friday exactly when the years and leap years between it and the year of 2020-2029 with its last digit add up to whole weeks, so always in 2020-2029 |
| Contract.ExpiryDayWrongIn2030 | src/core/contract.hpp:110 | the first contract after that decade is misread |
| Contract.NearestContract | src/core/contract.hpp:63-99 | the in-place computation at any clock reading yields the ticker, H, M, U or Z for March, June, September or December, and the last digit of the year of the chosen contract |
| Contract.LettersRead | src/core/contract.hpp:103-121 | those letters with a digit read back as the third Friday of their month in 2020-2029, any other letter as none |
| Contract.NextQuarterlyInPlace | src/core/contract.hpp:46-50 | updates month and year to the next quarterly contract |
| SessionContext.AtrIsInHull | src/strategy/session_context.hpp:90-94 | the average lies between the smallest and largest range ever seen |
| SessionContext.AtrIsWeightedSum | src/strategy/session_context.hpp:90-94 | while no range is negligible it is the geometrically weighted sum of the whole history |
| SessionContext.AtrStaysInHull | src/strategy/session_context.hpp:90-94 | the same bound for the field in every state after the first bar |
| SessionContext.RingIndexBack | src/strategy/session_context.hpp:98-102 | the backward ring index stays in bounds and is the slot of the bar that many days ago |
| SessionContext.SessionContext.OnDailyBar | src/strategy/session_context.hpp:27-34 | keeps the ring and average equal to their meaning over the full history; the day is narrow exactly if its range is below each of the period's ranges before it, all of which are known and within the ring |
| SessionContext.SessionContext.UpdateNr7 | src/strategy/session_context.hpp:96-105 | set exactly when the period is at most 30, enough bars exist and the last range is strictly the narrowest of the period |
| SessionContext.BreakoutExactly | src/strategy/session_context.hpp:52-64 | long bias exactly on a close above every high of a seen and wide enough window; short on one below every low |
| SessionContext.EmptyWindowHasNoBias | src/strategy/session_context.hpp:60 | closing the range before any bar leaves no bias at any price |
| SessionContext.SessionContext.OnIntradayBar | src/strategy/session_context.hpp:36-50 | with the range open, a bar in the first minutes from the opening extends the window, a later one closes the range at its close; others change nothing |
| SessionContext.SessionContext.FinalizeOrb | src/strategy/session_context.hpp:52-64 | closes the range once, at the given price and current average |
| SessionContext.SessionContext.SessionReset | src/strategy/session_context.hpp:66-73 | forgets window and closing, keeps daily history |
| TradeFlow.DropOldIsWithinExactly | src/strategy/trade_flow_analyzer.hpp:50-58 | popping old trades from the front keeps exactly the recent ones when no recent one comes before an old one, and only then |
| TradeFlow.WindowIsRightExactly | src/strategy/trade_flow_analyzer.hpp:50-58 | for timestamps in any order: the window is right after every trade exactly when a trade once out of the span, and all before it, stays out |
| TradeFlow.WindowIsWithin | src/strategy/trade_flow_analyzer.hpp:50-58 | hence for timestamps in order the queue holds exactly the session's trades within the span of the latest |
| TradeFlow.StampsAreOfWindow | src/strategy/trade_flow_analyzer.hpp:55-57 | the velocity queue holds the timestamps of such a window |
| TradeFlow.StaleTradeHides | src/strategy/trade_flow_analyzer.hpp:53-54 | an instance out of order: a trade 101 s old stays in the five-second window |
| TradeFlow.NormalizedIsBounded | src/strategy/trade_flow_analyzer.hpp:66-75 | with nonnegative volumes the imbalance is between -1 and 1 |
| TradeFlow.VoteIsSymmetricExactly | src/strategy/trade_flow_analyzer.hpp:40-45 | exchanging buyers and sellers negates the vote on every window exactly when the threshold is not negative |
| TradeFlow.TradeFlowAnalyzer.OnTrade | src/strategy/trade_flow_analyzer.hpp:24-30 | queues, signed volume and last volumes follow the history; the delta rises by a buy and falls by a sale; the last volumes are those of the period; the result reports them, and a large print exceeds its multiple of the average |
| TradeFlow.TradeFlowAnalyzer.NormalizedTfi | src/strategy/trade_flow_analyzer.hpp:66-75 | the loop computes what was bought less what was sold as a share of the window's volume: 1 exactly with buyers only, -1 exactly with sellers only, 0 without volume |
| TradeFlow.TradeFlowAnalyzer.CurrentVote | src/strategy/trade_flow_analyzer.hpp:40-45 | long exactly on net buying above the threshold's share of the volume, short on such net selling; with a threshold not negative a long vote needs a buyer in the window, a short one a seller |
| TradeFlow.ImbalanceHasDirection | src/strategy/trade_flow_analyzer.hpp:66-75 | the same law of the imbalance for every window |
| TradeFlow.TradeFlowAnalyzer.AvgVolume | src/strategy/trade_flow_analyzer.hpp:77-82 | times the count it is the sum; one when empty |
| TradeFlow.TradeFlowAnalyzer.SessionReset | src/strategy/trade_flow_analyzer.hpp:32-36 | clears windows and delta, keeps recent volumes |
| SpoofFilter.CountersAreBacked | src/strategy/spoof_filter.hpp:23-43 | with timestamps more than a window past the epoch each counter has a real add at its last-add time or has seen only fills |
| SpoofFilter.SurvivorsHadRecentAdd | src/strategy/spoof_filter.hpp:77-84 | after an add or cancel every surviving counter had an add within the window |
| SpoofFilter.FlagsNeedAnAddExactly | src/strategy/spoof_filter.hpp:65-75 | no flag without a large add, over all runs, exactly when the cancel ratio times the least number of events exceeds one |
| SpoofFilter.FeedFlagsNeedAnAddExactly | src/strategy/confluence_strategy.hpp:252-263 | for the adds and cancels the strategy makes, over all runs, no flag without a large add exactly when a flag takes two events or a ratio above one |
| SpoofFilter.FlaggedHadAnAdd | src/strategy/spoof_filter.hpp:65-75 | then every price ever flagged had a large add |
| SpoofFilter.SpoofFilter.OnLargeAdd | src/strategy/spoof_filter.hpp:23-29 | one add joins the history |
| SpoofFilter.SpoofFilter.OnLargeCancel | src/strategy/spoof_filter.hpp:31-37 | one cancel joins the history |
| SpoofFilter.SpoofFilter.OnLargeFill | src/strategy/spoof_filter.hpp:39-43 | one fill joins the history |
| SpoofFilter.SpoofFilter.EvictOld | src/strategy/spoof_filter.hpp:77-84 | erasing while iterating in any order keeps exactly the recent counters |
| SpoofFilter.SpoofFilter.IsSpoofed | src/strategy/spoof_filter.hpp:45-50 | true exactly when the last cancel that flagged the price came less than the time to live ago |
| SpoofFilter.FlaggedExactly | src/strategy/spoof_filter.hpp:65-75 | over every run a price carries the time of the last cancel that flagged it, if any |
| SpoofFilter.FlagsExactly | src/strategy/spoof_filter.hpp:65-75 | a cancel flags exactly with enough cancels and fills counted and the cancels at least the ratio's share of them |
| SpoofFilter.CountedExactly | src/strategy/spoof_filter.hpp:77-84 | for timestamps in order, after every add or cancel a price is counted exactly while it had a large add within the window |
| SpoofFilter.KeyIsNearest | src/strategy/spoof_filter.hpp:86-88 | a price's key is the nearest number of hundredths, away from zero when halfway |
| SpoofFilter.KeysTellApart | src/strategy/spoof_filter.hpp:86-88 | prices share a key only within one hundredth, and keys rise with prices |
| SessionClock.ResetsOncePerDay | src/strategy/confluence_strategy.hpp:265-275 | for timestamps in order two resets fall on different UTC days |
| SessionClock.MinuteFromSeconds | src/strategy/confluence_strategy.hpp:277-282 | the minute of day through whole seconds is the one the session rules use, before the epoch too |
| SessionClock.OpenedExactly | src/strategy/confluence_strategy.hpp:265-275 | the session counts as opened exactly when some reset has not been followed by a reading before the opening minute |
| SessionClock.ResetAtExactly | src/strategy/confluence_strategy.hpp:270-274 | a reading resets exactly when it falls in the five opening minutes and every earlier reset was followed by a reading before the opening minute |
| SessionClock.DayIsResetExactly | src/strategy/confluence_strategy.hpp:265-275 | for timestamps in order a day is reset at all exactly when its first reading in the opening minutes meets that condition |
| SessionClock.QuietMorningSkipsReset | src/strategy/confluence_strategy.hpp:270-274 | an instance: two days first read at the opening minute are reset once |
| ConfluenceState.SpacedStep | src/strategy/confluence_strategy.hpp:165-185 | an entry past the cool-down keeps all entries of the session in order and five seconds apart |
| ConfluenceState.PositionRightExactly | src/strategy/confluence_strategy.hpp:98-102 | over every run of updates and resets the kept position is what was executed after each event exactly when every update other than a complete fill has quantity zero and every reset comes at an executed position of zero |
| Confluence.ConfluenceStrategy.PositionIsExecuted | src/strategy/confluence_strategy.hpp:90-140 | so the strategy's position is what was executed as long as its history lost nothing |
| Confluence.ConfluenceStrategy.TryEnter | src/strategy/confluence_strategy.hpp:157-187 | an entry exactly when due; a long one rests on a book level above its threshold, flow above its threshold and a justified breakout, a short one on the mirror image; at market, for the base size or half of it; entry times stay spaced |
| Confluence.ConfluenceStrategy.EntryDueExactly | src/strategy/confluence_strategy.hpp:157-187 | for thresholds not negative an entry is due exactly when flat, five seconds after the last, the range closed above (below) every bar of a wide enough window, book score and flow beyond their thresholds on that side and neither side of the market flagged |
| Confluence.ConfluenceStrategy.Decide | src/strategy/confluence_strategy.hpp:161-183 | the conditions hold together exactly when an entry is due, and imply what was observed |
| Confluence.ConfluenceStrategy.StrongVote | src/strategy/confluence_strategy.hpp:168-175 | a strong vote means one book level and the flow beyond their thresholds on the same side |
| Confluence.ConfluenceStrategy.OnBookEvent | src/strategy/confluence_strategy.hpp:113-117 | spoof history, then book history, then an entry exactly when due in the new state |
| Confluence.ConfluenceStrategy.UpdateSpoofOnBook | src/strategy/confluence_strategy.hpp:252-263 | large size appearing is an add, large size vanishing a cancel, per side, bid first |
| Confluence.AppearingAndVanishing | src/strategy/confluence_strategy.hpp:252-263 | sizes that appear from nothing are one add per side above the limit, and vanishing again as many cancels |
| Confluence.NothingLargeExactly | src/strategy/confluence_strategy.hpp:252-263 | no cancel exactly when each side keeps its size or was not above the limit, no add exactly when neither grows beyond it |
| Confluence.ConfluenceStrategy.OnTradeEvent | src/strategy/confluence_strategy.hpp:119-123 | the trade joins the flow, then an entry exactly when due in the new state |
| Confluence.ConfluenceStrategy.OnOrderUpdate | src/strategy/confluence_strategy.hpp:90-103 | a complete buy raises the position by its quantity, a complete sale lowers it, anything else leaves it; so it stays the net of completed orders, and the entry price that of the one that opened it |
| Confluence.ConfluenceStrategy.OnSessionOpen | src/strategy/confluence_strategy.hpp:131-140 | every part forgets the session; daily history stays |
| Confluence.ConfluenceStrategy.HandleSessionOpen | src/strategy/confluence_strategy.hpp:265-275 | resets exactly where the reading history calls for it, otherwise leaves every part alone |
| Confluence.ConfluenceStrategy.OnIntradayBar | src/strategy/confluence_strategy.hpp:64-67 | the bar may reset the session, then extends the window or closes the range of what is left |
| Confluence.ConfluenceStrategy.OnBar | src/strategy/confluence_strategy.hpp:55-73 | daily bars feed the ranges and leave the window alone, intraday bars reset, extend or close the session; other symbols do neither |
| Confluence.ConfluenceStrategy.OnMid | src/strategy/confluence_strategy.hpp:79-87 | a quote may reset the session, closes the range that is left open at the mid price, and exits exactly when due |
| Confluence.ConfluenceStrategy.LoadHistory | src/strategy/strategy_runner.hpp:219-234 | own daily bars add their ranges, own intraday ones their clock readings, in order; the history of another contract leaves past, ranges, window and closing as they were |
| Confluence.HistoryIsTakenExactly | src/strategy/strategy_runner.hpp:219-234 | a daily history is taken in whole by a strategy of its contract and not at all by any other |
| Confluence.ConfluenceStrategy.OnQuote | src/strategy/confluence_strategy.hpp:75-88 | closes an open range at the mid price at any time; exits exactly when due; never while every fill had price zero |
| Confluence.ConfluenceStrategy.CheckExit | src/strategy/confluence_strategy.hpp:212-240 | a close for the whole position exactly when a priced position's price is beyond the stop or the target on its side, or both votes are against it |
| Confluence.ExitInPrices | src/strategy/confluence_strategy.hpp:218-236 | the exit rule in prices: within stop and target only a reversal exits |
| Backtest.DropStep | tests/backtest/backtest_runner.cpp:76-78 | the running peak and drawdown update keeps the largest fall between any two points of the curve |
| Backtest.BookingKeepsAccounts | tests/backtest/backtest_runner.cpp:63-97 | one more trade keeps every accumulator equal to its meaning over all trades |
| Backtest.EveryTradeIsPriced | tests/backtest/backtest_runner.cpp:37-70 | every stop-loss trade loses exactly stop, slippage and commission; every take-profit earns the target less both |
| Backtest.NoTradesExactly | tests/backtest/backtest_runner.cpp:20-35 | a run has no trades exactly when no bar signals an entry |
| Backtest.GrossSplitsTotal | tests/backtest/backtest_runner.cpp:109-114 | total profit is gross win minus gross loss |
| Backtest.ProfitFactorAboveOne | tests/backtest/backtest_runner.cpp:115 | with some loss, the factor exceeds one exactly when the run made money |
| Backtest.ReportsOwnDrawdownExactly | tests/backtest/backtest_runner.cpp:76-78 | a run reports its own drawdown exactly when no point after a trade lies further than that below the starting peak |
| Backtest.DrawdownIsOwnExactly | tests/backtest/backtest_runner.cpp:76-78 | every run does so exactly on a runner whose peak is still zero |
| Backtest.StalePeakInflatesDrawdown | tests/backtest/backtest_runner.cpp:76 | an instance: a single loss of 1 is reported as 1 plus the old peak |
| Backtest.BacktestRunner.Run | tests/backtest/backtest_runner.cpp:5-35 | for every bar list and signal sequence: each trade goes from the bar whose signal opened it, at its close made worse by the slippage, to the first later bar touching a level, else the last one, with no entry signal passed over while flat; all are priced and counted, with the winners and extremes among them, total as their sum, drawdown as the largest fall of the curve from the starting peak, the run's own exactly when the peak is within reach |
| Backtest.TradesAreRoundTrips | tests/backtest/backtest_runner.cpp:12-61 | the reference trade list is that chain of round trips |
| Backtest.BacktestRunner.CheckExit | tests/backtest/backtest_runner.cpp:37-49 | a bar touching both levels counts as a stop |
| Backtest.BacktestRunner.ClosePosition | tests/backtest/backtest_runner.cpp:63-97 | books the closing trade and goes flat |
| Backtest.BacktestRunner.Finalize | tests/backtest/backtest_runner.cpp:103-116 | win rate and profit factor of the booked trades |

## Left out

- Floating-point rounding, infinities and NaN: doubles are reals; an ATR period of zero, which divides by zero, is excluded by the constructor, and a tick size is positive by its type.
- Weak memory ordering: loads and stores are sequentially consistent steps, with stale local values kept in each thread.
- Integer widths: quantities and counters are unbounded, except queue indices (modelled as words) and the 32-bit transaction id.
- `exp` and `pow`: the level ratio is any positive real, the decay a power of a per-nanosecond ratio.
- StrategyRunner.DrainQueue, StrategyRunner.HandleSignal, StrategyRunner.OnUpdate, StrategyRunner.NotifyAll: run with no step of another thread inside; interleaving is covered by SpscProtocol (a push during the draining by its EmptyMeansDrained) and RiskGate.
- SpscProtocol: `empty()` is not a separate action, it compares the same two loads as `size()`; src/core/event_bus.hpp repeats the ring and is not modelled again.
- RiskGate.AtMostOneMoreEntry: the expiry and margin answers are arbitrary inputs at each check.
- RiskManager.RiskManager.Check: the margin the exchange names, for a purchase or a sale as the order is, is a parameter, absent where it cannot be fetched.
- RiskManager.GeneratedSymbolsPassExpiryExactly: the decimal parser is a parameter; SymbolAlwaysPassesExactly holds for each one.
- OrderBookState.AgeIsClockDifference: a timestamp at or before the epoch restarts the clock; the general closed form by elapsed decay time still covers it.
- Network, authentication, protobuf decoding, logging, reconnect backoff, maintenance windows, health server, CSV loading and printing.
- The rollover handler's unsubscribe and resubscribe calls, and `cancel`, `active_orders` and `find` of the order client: lookups and foreign calls.
