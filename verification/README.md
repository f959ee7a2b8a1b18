# Verified model of the Asterion trading core

This Dafny project models the deterministic core of Asterion and proves what the core promises: two
order books that must behave as one, a matching engine and its independent Python reference, replay
of market data on one thread, over many symbols in one pass and across two threads, the risk state
kept in front of the engine, the audit manifest format, and the synthetic event generators.

Run `dafny verify dfyconfig.toml` to verify everything.

## How the project is laid out

| files | what they hold |
|---|---|
| `Types`, `Checksum`, `Ranking` | orders, sides, folds over an arbitrary mixing function, price ranking |
| `Books` | the abstract book: per side a map from price to a FIFO queue, with add, cancel, reduce, replace, clear |
| `OrderBook`, `BookChecks` | the default book (ordered maps, list queues, a locator index) and its run-time check |
| `FlatOrderIndex`, `Pool`, `PoolSteps`, `PooledOrderBook`, `PoolChecks` | the tombstoned open-addressing index, the pooled book (level vectors, doubly linked queues and a free list in one node vector), and its run-time check |
| `TimePriority`, `BookViews`, `ChecksumCoverage` | time priority and contents after any run, told from the operations; what best orders, L2 views and checksums show |
| `BookParity` | the two books side by side |
| `Reports`, `Exchange`, `MatchingLaws`, `ExchangeLaws`, `PriceLaws` | the matching contract on values, and its properties |
| `Outcomes`, `RequestEffects`, `ReportLedger` | why each request is refused, what it leaves behind, and what the reports of a run add up to |
| `Bridge`, `MatchProgress`, `MatchingEngine`, `ReferenceMatcher`, `MatchParity` | the C++ engine over the real book, the Python reference over order ids, and the two compared |
| `Events`, `Replay`, `ReplayEngine`, `ReplayModes`, `ReplayRefusals` | single-thread replay, and which streams it accepts |
| `SharedReplay`, `MultiSymbolBook`, `AggregateReplay`, `AggregateRefusals` | grouped and shared multi-symbol replay |
| `SpscRing`, `SpscPipeline`, `SpscProgress`, `SpscDrops` | the ring buffer and the two-thread replay protocol |
| `ClientOrderIds`, `RateLimits`, `WorkingOrders`, `RiskGateway`, `GatewayRuns`, `GatewayVerdicts`, `Portfolio` | risk state |
| `JsonText`, `Manifest`, `ManifestIo`, `ManifestShape` | the audit manifest format, its printer and its parser |
| `BookFrames`, `Generator`, `GeneratorShapes`, `GeneratorLaws`, `GeneratorBounds`, `AdversarialFlow` | the synthetic generators against replay |

Each C++ or Python class that updates its fields is a Dafny class whose methods are proved against a
function of the old state; the properties are then lemmas about those functions. The pooled book's
links, free list and hash table are the real stored values; ghost fields name the queues, the free
list and the map they encode.

## Assumptions

- Prices, quantities, notionals and counters are mathematical integers. Division truncates toward zero
  where C++ divides and floors where Python does. The manifest's integer ranges are modelled.
- The checksum mixing step, the hash that picks a bucket and the rendering of a reason as text are
  arbitrary functions. Equal checksums are proved from equal contents, never the other way round.
- Atomic loads and stores of the two-thread replay are sequentially consistent, one per step.
- Risk limits are fixed when the gateway is made. The bounds on message rates take the times of a
  client's messages as non-decreasing.
- Random draws of the generator are arbitrary values within their bounds; clocks are parameters.
- A run-time check that walks a queue assumes that following next links ends. On a cyclic chain the
  C++ walk does not end; no operation makes one.

## Findings

Five promises do not hold of the code on every input. Each is proved with its exact condition.

| what was promised | when it holds | where |
|---|---|---|
| The engine and the reference emit the same reports. | Exactly when the symbol is set, or no well-formed good-till-cancelled limit order with an unused client order id is submitted. The engine's book refuses orders of symbol zero, so the engine rejects what the reference rests. | `MatchParity.AgreeIff`, `MatchParity.UnsetSymbolDisagrees` |
| Two-thread replay under the blocking policy gives single-thread replay's result. | Exactly when the queue's capacity is at least one; a capacity of zero is refused with an error result. | `SpscProgress.ParityIff` |
| Light validation gives Full validation's result. | Exactly unless an empty stream is replayed, with book checks on, into a book that is already crossed. An engine used again after it stopped at a crossed book is such a case. | `Replays.LightIsFull`, `ReplayModes.EmptyAfterCrossed` |
| Generated single-symbol flow replays without a diagnostic. | Exactly when the middle price is at least one tick, or fewer than two events are generated, or replay does not check the book. | `GeneratorBounds.AcceptedIffMid` |
| The adversarial flow replays without a diagnostic. | Exactly when the middle price is at least minus four, or at most seven events are generated. | `AdversarialFlows.AdversarialAcceptedIff` |

Open quantity also stays within its limit only for as long as no execution report raises a tracked
order past it; `GatewayRuns.WithinWhileFitting` says exactly when. A replacement finds the order its
exchange id was given to only for as long as no report gives that id to another working order;
`GatewayRuns.BoundWhileApart` says exactly when.

## Model

| member | source | states |
|---|---|---|
| Books.ApplySound | cpp/src/book/order_book.cpp:47-134 | the book invariant (no empty level, orders valid and filed under their own side and price, no id twice) survives every operation, and a refused operation changes nothing |
| Books.RunSound | cpp/src/book/order_book.cpp:47-134 | the invariant holds after every sequence of operations |
| Books.DropSound | cpp/src/book/order_book.cpp:68-85 | cancelling removes exactly one id and keeps the invariant |
| Books.ShrinkSound | cpp/src/book/order_book.cpp:87-111 | a partial reduce keeps every id and the invariant |
| Books.PushSound | cpp/src/book/order_book.cpp:47-66 | adding a fresh valid order adds exactly its id and keeps the invariant |
| TimePriorities.KeepsOrder | cpp/src/book/order_book.cpp:47-134 | no operation changes the order in which two orders of one queue stand, except for the order it adds, replaces or takes out; a partial reduce moves none |
| TimePriorities.EntersLast | cpp/src/book/order_book.cpp:113-134 | an added order stands last in its price's queue, and so does a replaced one, with its new terms |
| TimePriorities.RunHolds | cpp/src/book/order_book.cpp:47-134 | after any run the book holds exactly the orders that each id's own operations leave, with their terms |
| TimePriorities.RunAnswers | cpp/src/book/order_book.cpp:47-134 | every answer of a run is decided by the history of the id the operation names |
| TimePriorities.RunPriority | cpp/src/book/order_book.cpp:47-134 | after any run, the orders of each queue stand in the order in which they were last added or replaced |
| BookViews.BestComesFirst | cpp/src/book/order_book.cpp:160-174 | after any run the best order of a side comes before every other order there, by price and then by when it was last added or replaced |
| BookViews.ViewListsBest | cpp/src/book/order_book.cpp:198-226 | an L2 view lists each side's best prices in order, as many as asked for or as there are, and no unlisted price is better than a listed one |
| ChecksumCoverage.BookCovered | cpp/src/book/order_book.cpp:18-37 | the checksum leaves nothing of a book out: two well-formed books that fold the same values are the same book |
| OrderBooks.OrderBook.AddOrder | cpp/src/book/order_book.cpp:47-66 | adds at the back of its level exactly when the abstract book does, with the same answer |
| OrderBooks.OrderBook.CancelOrder | cpp/src/book/order_book.cpp:68-85 | removes the order through its locator, and its level with the last order |
| OrderBooks.OrderBook.ReduceOrder | cpp/src/book/order_book.cpp:87-111 | takes the quantity in place, or the whole order when nothing would be left |
| OrderBooks.OrderBook.ReplaceOrder | cpp/src/book/order_book.cpp:113-134 | loses time priority: removed, and added at the back with its new terms |
| OrderBooks.OrderBook.FindOrder | cpp/src/book/order_book.cpp:136-142 | finds exactly the resting order with this id |
| OrderBooks.OrderBook.BestOrder | cpp/src/book/order_book.cpp:160-174 | the oldest order at the best price of a side |
| OrderBooks.OrderBook.TotalQuantityAt | cpp/src/book/order_book.cpp:190-196 | the cached level total is the sum of the level's orders |
| OrderBooks.OrderBook.L2 | cpp/src/book/order_book.cpp:198-226 | the best levels of each side in order, with summed quantities, to any depth |
| OrderBooks.OrderBook.Checksum | cpp/src/book/order_book.cpp:18-37 | the level walk folds in exactly the abstract book's values, in order |
| BookChecks.CheckInvariants | cpp/src/book/order_book.cpp:232-300 | the check finds nothing exactly in a consistent store, whatever its fields hold |
| BookChecks.ReachableIsConsistent | cpp/src/book/order_book.cpp:232-300 | every book the operations can reach is consistent |
| FlatOrderIndexes.FlatOrderIndex.Insert | cpp/src/book/pooled_order_book.cpp:494-531 | refines inserting into a finite map; duplicates and the zero id are refused; the recursion and the rehash end |
| FlatOrderIndexes.FlatOrderIndex.Find | cpp/src/book/pooled_order_book.cpp:533-551 | finds exactly what the map holds, through tombstones and with no empty slot left |
| FlatOrderIndexes.FlatOrderIndex.Erase | cpp/src/book/pooled_order_book.cpp:553-574 | removes exactly one key and leaves a tombstone that stops no probe |
| FlatOrderIndexes.FlatOrderIndex.Clear | cpp/src/book/pooled_order_book.cpp:477-484 | empties the map and keeps the table's capacity |
| FlatOrderIndexes.FlatOrderIndex.Reserve | cpp/src/book/pooled_order_book.cpp:486-492 | keeps the map and makes room for the expected number of keys |
| FlatOrderIndexes.FlatOrderIndex.Rehash | cpp/src/book/pooled_order_book.cpp:596-615 | keeps the map while every entry moves to the new table |
| FlatOrderIndexes.FlatOrderIndex.NextCapacity | cpp/src/book/pooled_order_book.cpp:576-584 | a power of two from eight up that keeps the table at most a quarter full |
| FlatOrderIndexes.ProbeMiss | cpp/src/book/pooled_order_book.cpp:533-551 | a probe that meets an empty slot, or goes all the way round, has shown the key absent |
| FlatOrderIndexes.SomeSlotFree | cpp/src/book/pooled_order_book.cpp:494-531 | with fewer occupied slots than slots, a full round of probing meets a free one |
| FlatOrderIndexes.EraseStores | cpp/src/book/pooled_order_book.cpp:553-574 | a tombstone in place of an entry keeps all other entries reachable |
| Pools.AppendLinked | cpp/src/book/pooled_order_book.cpp:393-406 | appending a node keeps next and previous links inverse to each other and the queue in order |
| Pools.UnlinkLinked | cpp/src/book/pooled_order_book.cpp:408-422 | unlinking closes the links over any node of a queue, at either end or inside |
| Pools.InsertLevel | cpp/src/book/pooled_order_book.cpp:424-444 | a level inserted at its place keeps the vector sorted best-first with one queue per price |
| Pools.RemoveLevel | cpp/src/book/pooled_order_book.cpp:354-370 | removing a level keeps the vector sorted and its queues covered |
| PoolSteps.AcquiredOk | cpp/src/book/pooled_order_book.cpp:372-383 | the node handed out was not in use, and the free list shrinks by exactly that node |
| PoolSteps.FreeSurvives | cpp/src/book/pooled_order_book.cpp:385-391 | releasing a node puts exactly that node in front of the free list |
| PoolSteps.AddedOk | cpp/src/book/pooled_order_book.cpp:31-53 | the pool after an add is well formed and shows the abstract add |
| PoolSteps.DroppedOk | cpp/src/book/pooled_order_book.cpp:55-75 | the pool after a cancel is well formed and shows the abstract cancel |
| PoolSteps.TrimmedOk | cpp/src/book/pooled_order_book.cpp:77-100 | the pool after a partial reduce is well formed and shows the abstract reduce |
| PooledOrderBooks.FindBidLevel | cpp/src/book/pooled_order_book.cpp:424-433 | finds a bid price's level or the only place it can be inserted |
| PooledOrderBooks.FindAskLevel | cpp/src/book/pooled_order_book.cpp:435-444 | finds an ask price's level or the only place it can be inserted |
| PooledOrderBooks.PooledOrderBook.AddOrder | cpp/src/book/pooled_order_book.cpp:31-53 | does to the abstract book what the default book does; the pool grows only when no node is free; nothing is reallocated within reserved capacity |
| PooledOrderBooks.PooledOrderBook.CancelOrder | cpp/src/book/pooled_order_book.cpp:55-75 | does what the default book does and allocates nothing |
| PooledOrderBooks.PooledOrderBook.ReduceOrder | cpp/src/book/pooled_order_book.cpp:77-100 | does what the default book does and allocates nothing |
| PooledOrderBooks.PooledOrderBook.ReplaceOrder | cpp/src/book/pooled_order_book.cpp:102-124 | does what the default book does, within the capacity the live orders need |
| PooledOrderBooks.PooledOrderBook.FindOrder | cpp/src/book/pooled_order_book.cpp:126-133 | finds exactly the resting order with this id |
| PooledOrderBooks.PooledOrderBook.BestOrder | cpp/src/book/pooled_order_book.cpp:151-165 | the head of the first level is the oldest order at the best price |
| PooledOrderBooks.PooledOrderBook.L2 | cpp/src/book/pooled_order_book.cpp:189-217 | the abstract book's L2 view at any depth |
| PooledOrderBooks.PooledOrderBook.Checksum | cpp/src/book/pooled_order_book.cpp:454-475 | the walk along the links folds in exactly the abstract book's values |
| PooledOrderBooks.PooledOrderBook.Clear | cpp/src/book/pooled_order_book.cpp:23-29 | the empty book again, with every container's capacity kept |
| PooledOrderBooks.PooledOrderBook.ReserveOrderCapacity | cpp/src/book/pooled_order_book.cpp:219-224 | changes no content and gives every container room for that many orders |
| PoolChecks.CheckStorage | cpp/src/book/pooled_order_book.cpp:226-322 | the walk over heads, links, tails, counts, totals, index and active nodes finds nothing exactly when both sides are sorted, linked both ways, counted and totalled right, every active node is queued and the index maps exactly the active nodes |
| PoolChecks.CheckInvariants | cpp/src/book/pooled_order_book.cpp:226-322 | the check finds nothing in any pooled book the operations can reach |
| PoolChecks.ReachableIsRight | cpp/src/book/pooled_order_book.cpp:226-322 | every reachable pool has everything the check looks at right |
| PoolChecks.OnePlace | cpp/src/book/pooled_order_book.cpp:372-422 | every pool node is at exactly one position of exactly one level queue, or at exactly one position of the free list |
| BookParity.RunBoth | cpp/src/book/pooled_order_book.cpp:31-124 | for every sequence of operations both books give the same answers, represent the same abstract book, and the pool's length is the peak number of resting orders since the last clear |
| BookParity.CompareRun | cpp/src/book/pooled_order_book.cpp:126-217 | after any run best prices, best orders, level totals, lookups, L2 views at any depth and checksums of the two books agree |
| BookParity.RunWithoutAllocating | cpp/src/book/pooled_order_book.cpp:219-224 | after reserving for n orders, no run that rests at most n orders at a time makes any container grow |
| Exchanges.TakeKeeps | cpp/src/matching/matching_engine.cpp:263-308 | one trade keeps the exchange well formed and leaves strictly less wanted |
| Exchanges.MatchKeeps | cpp/src/matching/matching_engine.cpp:263-308 | matching ends filled or no longer crossing, keeps every order's terms, and rests nothing new |
| MatchingLaws.FillsAreShortestPrefix | cpp/src/matching/matching_engine.cpp:263-308 | the fill is the smaller of the wanted quantity and the acceptable depth, taken from a prefix of the offers in which only the last one can be left part filled |
| MatchingLaws.MatchFollowsPriority | cpp/src/matching/matching_engine.cpp:263-308 | matching takes exactly the price-then-FIFO prefix, reports each fill as a resting and incoming pair, and the opposing side loses exactly what was filled |
| PriceLaws.MatchPrices | cpp/src/matching/matching_engine.cpp:202-221 | the filled quantity is the smaller of wanted and executable, no fill passes the limit, and fill prices never move back toward the best |
| ExchangeLaws.WalkFindsDepth | cpp/src/matching/matching_engine.cpp:223-241 | the level walk accepts exactly when the executable depth covers the required quantity |
| ExchangeLaws.FillableIffFilled | cpp/src/matching/matching_engine.cpp:223-241 | the fill-or-kill test accepts exactly when matching that request would leave nothing |
| ExchangeLaws.FillOrKill | cpp/src/matching/matching_engine.cpp:64-68 | a fill-or-kill order is rejected with book and states unchanged, or filled completely |
| ExchangeLaws.ImmediateNeverRests | cpp/src/matching/matching_engine.cpp:83-105 | market, immediate-or-cancel and fill-or-kill orders never rest |
| ExchangeLaws.HandleGood | cpp/src/matching/matching_engine.cpp:12-200 | after every request the book is uncrossed and every resting order has a live Limit state on its own side and price |
| ExchangeLaws.RequestIsClean | cpp/src/matching/matching_engine.cpp:243-261 | trades come in equal pairs between one opening and at most one closing report, and no pair joins two orders of one client |
| Outcomes.CrossesIffFacing | cpp/src/matching/matching_engine.cpp:202-221 | looking at the best opposing price decides whether any resting order is at or through the limit |
| Outcomes.SubmitRefusal | cpp/src/matching/matching_engine.cpp:12-68 | each refusal of a new order, exactly when its cause is there, told by the resting orders it meets: post-only exactly when one is at or through its limit, fill-or-kill exactly when what is left of those it meets is too little; a refusal changes nothing else |
| RequestEffects.PostOnlyNeverTrades | cpp/src/matching/matching_engine.cpp:53-57 | a post-only order never emits a trade: it is refused, or all of it rests last at its price and every other order keeps its state |
| RequestEffects.SubmitEffect | cpp/src/matching/matching_engine.cpp:70-108 | an accepted order trades all that is left of the orders it meets, up to its quantity; its rest stands last at its price, or is cancelled or rejected, as its type says; other queues only lose orders from the front |
| RequestEffects.CancelRefusal | cpp/src/matching/matching_engine.cpp:110-122 | a cancel is refused exactly for a used id or an order that does not rest |
| RequestEffects.CancelEffect | cpp/src/matching/matching_engine.cpp:124-137 | a cancel takes exactly the named order out of its queue, reports it, and changes nothing else |
| RequestEffects.ReplaceRefusal | cpp/src/matching/matching_engine.cpp:139-172 | each refusal of a replacement, exactly when its cause is there |
| RequestEffects.ReplaceEffect | cpp/src/matching/matching_engine.cpp:173-200 | a replacement takes the order out of its place, keeps what it traded before, trades all it can at the new price, and leaves the rest last at that price |
| ReportLedgers.RunKept | cpp/src/matching/matching_engine.cpp:263-308 | over any run every order's trade reports add up to what it traded and paid, every report's running fill and average price are those of the reports up to it, and reports carry their order's identity |
| ReportLedgers.LatestShowsBook | cpp/src/matching/matching_engine.cpp:324-352 | after any run an order's latest report shows its status and what of it rests in the book, at which price |
| ChecksumCoverage.ReportCovered | cpp/src/matching/execution_report.cpp:117-133 | the report checksum covers every field of a report |
| Bridge.TakeMeets | cpp/src/matching/matching_engine.cpp:263-308 | reducing the resting order in the book does what one trade does to the order states |
| Bridge.RestMeets | cpp/src/matching/matching_engine.cpp:310-322 | the book takes the rest of an order exactly when the symbol is set |
| Bridge.ViewShows | python/asterion/testing/reference_matcher.py:173-186 | the book's cached level totals are the totals recomputed from order states, at any depth |
| MatchingEngines.MatchingEngine.SubmitOrder | cpp/src/matching/matching_engine.cpp:12-108 | reports, states, book, used ids and running checksum are those of the contract |
| MatchingEngines.MatchingEngine.CancelOrder | cpp/src/matching/matching_engine.cpp:110-137 | reports, states, book, used ids and running checksum are those of the contract |
| MatchingEngines.MatchingEngine.ReplaceOrder | cpp/src/matching/matching_engine.cpp:139-200 | reports, states, book, used ids and running checksum are those of the contract |
| MatchingEngines.MatchingEngine.MatchAgainstBook | cpp/src/matching/matching_engine.cpp:263-308 | the loop over the best opposing order is the contract's matching |
| MatchingEngines.MatchingEngine.CanFullyFillFromBook | cpp/src/matching/matching_engine.cpp:223-241 | the walk over the L2 view decides as the contract does |
| MatchingEngines.MatchingEngine.WouldSelfTradeInBook | cpp/src/matching/matching_engine.cpp:243-261 | true exactly when some resting order of the same client could be reached |
| ReferenceMatchers.ReportsAgree | python/asterion/testing/reference_matcher.py:480-512 | the reference's floored average price is the engine's truncated one, because no notional is negative |
| ReferenceMatchers.ReferenceMatcher.SubmitOrder | python/asterion/testing/reference_matcher.py:208-277 | reports and state are those of the contract |
| ReferenceMatchers.ReferenceMatcher.CancelOrder | python/asterion/testing/reference_matcher.py:279-295 | reports and state are those of the contract |
| ReferenceMatchers.ReferenceMatcher.ReplaceOrder | python/asterion/testing/reference_matcher.py:297-342 | reports and state are those of the contract |
| ReferenceMatchers.ReferenceMatcher.MatchAgainstBook | python/asterion/testing/reference_matcher.py:407-446 | the loop that recomputes levels and keeps its own set of resting ids is the contract's matching |
| ReferenceMatchers.ReferenceMatcher.CanFullyFillFromBook | python/asterion/testing/reference_matcher.py:359-381 | the recomputed level walk decides as the contract does |
| ReferenceMatchers.ReferenceMatcher.L2Levels | python/asterion/testing/reference_matcher.py:173-186 | the recomputed levels are those the contract shows |
| MatchParity.AgreeIff | python/asterion/testing/cross_check.py:173-240 | both matchers emit the same reports at every request exactly when the symbol is set or nothing asks to rest |
| MatchParity.FlatAgreeIff | python/asterion/testing/cross_check.py:173-240 | the two flat lists of reports of a run are equal exactly under the same condition |
| MatchParity.AsksAtIs | cpp/src/matching/matching_engine.cpp:310-322 | whether a request asks to rest can be read off the list of requests |
| MatchParity.UnsetSymbolDisagrees | cpp/src/matching/matching_engine.cpp:310-322 | one resting limit order for symbol zero makes the two differ |
| MatchParity.CrossCheck | python/asterion/testing/cross_check.py:173-240 | comparing the lists of reports, L2 views at any depth and the running checksum over a whole run succeeds exactly when `AgreeIff` says |
| Replays.AcceptedApplies | cpp/src/market_data/replay.cpp:172-343 | an event the checks let through fails to apply exactly when it repeats a resting snapshot order |
| Replays.FedSound | cpp/src/market_data/replay.cpp:107-154 | the book invariant holds through every stream |
| Replays.HaltedIffInvalid | cpp/src/market_data/replay.cpp:107-154 | a stream is halted exactly when its result is invalid |
| Replays.LightIsFull | cpp/src/market_data/replay.cpp:95-105 | Light and Full validation agree exactly unless an empty stream meets a crossed book |
| Replays.FreshLightIsFull | cpp/src/market_data/replay.cpp:345-394 | a fresh engine gives the same result in both modes on every stream |
| ReplayRefusals.AcceptedIff | cpp/src/market_data/replay.cpp:107-154 | a stream is replayed to its end, without a diagnostic, exactly when each event is numbered one after the one before, is no earlier, has the terms of its kind, names an order the events before it left fit for it, and leaves no crossed book, told from the list of events |
| ReplayRefusals.RefusedAt | cpp/src/market_data/replay.cpp:156-343 | otherwise replay stops at the first event that fails, with one diagnostic there that names the first cause, with the numbers, times or prices it shows |
| ReplayRefusals.AcceptedChecksums | cpp/src/market_data/replay.cpp:95-170 | the checksums of an accepted stream cover all its events, its executions and trades, and the book its operations leave |
| ReplayRefusals.PrefixGoes | cpp/src/market_data/replay.cpp:107-154 | as far as events pass, the book is the one their operations leave, and the position is one past the last number and time |
| ChecksumCoverage.EventCovered | cpp/src/market_data/event.cpp:201-213 | the event checksum covers every field of an event |
| ReplayModes.EmptyAfterCrossed | cpp/src/market_data/replay.cpp:95-105 | an engine that stopped at a crossed book and is given an empty stream complains in Light mode only |
| ReplayEngines.ReplayEngine.ReplayStep | cpp/src/market_data/replay.cpp:107-154 | one event does to stream state, book and result what the specification's step does |
| ReplayEngines.ReplayEngine.ValidateBeforeApply | cpp/src/market_data/replay.cpp:172-269 | the first reason to refuse an event, in the order of the checks |
| ReplayEngines.ReplayEngine.FinalizeStream | cpp/src/market_data/replay.cpp:95-105 | the deferred check and the final checksum |
| ReplayEngines.ReplayEngine.ReplayEvents | cpp/src/market_data/replay.cpp:156-170 | the whole stream, stopping at the first refusal |
| ReplayEngines.HaltedStays | cpp/src/market_data/replay.cpp:156-170 | nothing after a halt changes anything |
| SharedReplays.SummariesAgree | cpp/src/market_data/replay_aggregate.cpp:325-439 | one symbol's shared summary is its grouped summary: all checksums, diagnostics and the error |
| AggregateReplays.ReplayBySymbol | cpp/src/market_data/replay_aggregate.cpp:264-310 | grouped replay reports each symbol from its own events alone, by symbol |
| AggregateReplays.ReplaySharedBySymbol | cpp/src/market_data/replay_aggregate.cpp:325-439 | for every interleaving and configuration the single pass reports what grouped replay reports, down to the aggregate checksum |
| AggregateRefusals.SymbolAcceptedIff | cpp/src/market_data/replay_aggregate.cpp:325-439 | a symbol's summary is valid exactly when each of its own events passes, with numbers checked only where that is asked for, whatever other symbols do; it counts its events and shows their first and last numbers and times |
| ChecksumCoverage.SummaryCovered | cpp/src/market_data/replay_aggregate.cpp:18-36 | the aggregate checksum covers every figure of a summary |
| AggregateReplays.CombinedMismatch | cpp/src/market_data/replay_aggregate.cpp:325-439 | the cross-check of the combined checksums never fails |
| AggregateReplays.CompareParity | cpp/src/market_data/replay_aggregate.cpp:454-515 | the comparison of the two replays always says they match |
| MultiSymbolBooks.MultiSymbolBookSet.Apply | cpp/include/asterion/market_data/multi_symbol_book.hpp:41-76 | an event changes its own symbol's book only, which is created when it is missing |
| MultiSymbolBooks.MultiSymbolBookSet.CombinedChecksum | cpp/include/asterion/market_data/multi_symbol_book.hpp:89-97 | folds the symbols in order, each with its own book's checksum |
| SpscRings.SpscRingBuffer.TryPush | cpp/include/asterion/concurrency/spsc_ring_buffer.hpp:48-57 | appends exactly when fewer than capacity items wait |
| SpscRings.SpscRingBuffer.TryPop | cpp/include/asterion/concurrency/spsc_ring_buffer.hpp:60-68 | takes the oldest item exactly when one waits |
| SpscRings.SpscRingBuffer.SizeApprox | cpp/include/asterion/concurrency/spsc_ring_buffer.hpp:76-80 | the wrapped index difference is the number of waiting items |
| SpscPipelines.ProducerKeepsInv | cpp/src/market_data/spsc_replay.cpp:65-104 | every producer step keeps the protocol invariant, however stale its view of the head is |
| SpscPipelines.ConsumerKeepsInv | cpp/src/market_data/spsc_replay.cpp:106-128 | every consumer step keeps the protocol invariant |
| SpscPipelines.FifoAlways | cpp/include/asterion/concurrency/spsc_ring_buffer.hpp:48-80 | in every interleaving the popped sequence is a prefix of the pushed one, no unread slot is overwritten, and depth never exceeds capacity |
| SpscPipelines.FinishedIsReplayed | cpp/src/market_data/spsc_replay.cpp:65-128 | every interleaving that finishes under the blocking policy gives single-thread replay's result, early halts included |
| SpscPipelines.CleanShutdown | cpp/src/market_data/spsc_replay.cpp:106-128 | a run that ends on the end marker consumed all it produced, saw one marker and dropped only under the drop policy |
| SpscDrops.FinishedOnTaken | cpp/src/market_data/spsc_replay.cpp:65-128 | under either policy every interleaving that finishes gives single-thread replay's result on the stream with some events left out, in its order |
| SpscDrops.DropsOnlyWhenFull | cpp/src/market_data/spsc_replay.cpp:66-104 | an event is dropped only under the drop policy and only when the queue holds all it can |
| SpscDrops.DepthIsMeasured | cpp/src/market_data/spsc_replay.cpp:66-104 | the reported depth is the largest number of waiting items found after publishing |
| SpscProgress.NeverStuck | cpp/src/market_data/spsc_replay.cpp:66-128 | no reachable unfinished state leaves both threads unable to get on |
| SpscProgress.FairScheduleFinishes | cpp/src/market_data/spsc_replay.cpp:66-128 | every schedule of enough rounds, each with a consumer turn and two producer turns in any order, finishes, and then with single-thread replay's result |
| SpscProgress.NoRoomNoDelivery | cpp/src/market_data/spsc_replay.cpp:44-49 | without capacity nothing is ever delivered |
| SpscProgress.ParityIff | cpp/src/market_data/spsc_replay.cpp:44-128 | two-thread replay gives single-thread replay's result exactly when capacity is at least one |
| ClientOrderIds.ClientOrderIdSet.BucketCountFor | cpp/src/risk/risk_gateway.cpp:22-30 | the smallest power of two from sixteen up that keeps the set at most half full |
| ClientOrderIds.ClientOrderIdSet.Probe | cpp/src/risk/risk_gateway.cpp:69-88 | the unbounded probe loop ends, at the id or at an empty bucket that shows it absent |
| ClientOrderIds.ClientOrderIdSet.Contains | cpp/src/risk/risk_gateway.cpp:69-88 | true exactly for ids in the set, the zero id included |
| ClientOrderIds.ClientOrderIdSet.Rehash | cpp/src/risk/risk_gateway.cpp:43-60 | keeps the set while every id moves |
| ClientOrderIds.ClientOrderIdSet.Insert | cpp/src/risk/risk_gateway.cpp:90-115 | adds exactly this id; at most half of the buckets are ever taken |
| RateLimits.RateLimiter.Allows | cpp/src/risk/risk_gateway.cpp:705-731 | decides each message as the specification does for the client's whole history |
| RateLimits.SlidingBound | cpp/src/risk/risk_gateway.cpp:705-731 | in every half-open window the sliding limiter lets through at most the maximum |
| RateLimits.SlidingExact | cpp/src/risk/risk_gateway.cpp:705-731 | the sliding limiter refuses a message exactly when more than the maximum were sent in the window that ends with it, refused ones included |
| RateLimits.FixedLetsMore | cpp/src/risk/risk_gateway.cpp:705-731 | a fixed window lets through whatever a sliding one does |
| RateLimits.FixedBound | cpp/src/risk/risk_gateway.cpp:705-731 | in every half-open window the fixed limiter lets through at most twice the maximum less one |
| RateLimits.FixedBoundIsMet | cpp/src/risk/risk_gateway.cpp:705-731 | some message times reach the fixed limiter's bound |
| WorkingOrders.RegisterAgrees | cpp/src/risk/risk_gateway.cpp:173-199 | registering an order keeps open quantity per symbol and each client's price levels equal to the sums over working orders |
| WorkingOrders.ReleaseAgrees | cpp/src/risk/risk_gateway.cpp:201-253 | releasing an order keeps them equal to the sums |
| WorkingOrders.ReplaceAgrees | cpp/src/risk/risk_gateway.cpp:695-700 | releasing and adding back with new terms keeps them equal to the sums |
| WorkingOrders.BestDecides | cpp/src/risk/risk_gateway.cpp:733-758 | looking at the client's best opposing price decides whether any own opposing order would be reached |
| RiskGateways.RiskGateway.ReleaseOrder | cpp/src/risk/risk_gateway.cpp:242-253 | forgets exactly this order and raises no open quantity |
| RiskGateways.RiskGateway.OnExecutionReport | cpp/src/risk/risk_gateway.cpp:255-318 | a terminal report releases by the report's client order id; any other gives the found order the reported quantity, the reported price if there is one, and its exchange id, which then leads back to it, and touches no other order; the open limit survives exactly when the report fits |
| RiskGateways.RiskGateway.CancelAll | cpp/src/risk/risk_gateway.cpp:401-419 | forgets every working order and every total |
| RiskGateways.RiskGateway.CheckNewOrder | cpp/src/risk/risk_gateway.cpp:475-569 | gives the first refusal in order; the message is counted unless the switch or the connection refuses it; an accepted order is registered, its id remembered, and open quantity stays within its limit |
| RiskGateways.RiskGateway.CheckReplaceOrder | cpp/src/risk/risk_gateway.cpp:571-703 | gives the first refusal in order; an accepted replacement re-prices the named order under its first client order id and keeps the limit |
| GatewayVerdicts.NewFirst | cpp/src/risk/risk_gateway.cpp:475-569 | a new order is answered with the first cause there is against it, and accepted exactly when there is none |
| GatewayVerdicts.ReplaceFirst | cpp/src/risk/risk_gateway.cpp:571-703 | a replacement is answered with the first cause there is against it, and accepted exactly when there is none |
| RiskGateways.RiskGateway.SelfTradeAllows | cpp/src/risk/risk_gateway.cpp:733-758 | refuses exactly when a working order of the same client would be reached |
| RiskGateways.GrossExposure | cpp/src/risk/risk_gateway.cpp:769-779 | the sum over positions with a known price, whatever order they are visited in |
| GatewayRuns.WithinWhileFitting | cpp/src/risk/risk_gateway.cpp:540-548 | over any run, open quantity has stayed within its limit up to a point exactly when every report up to it fitted |
| GatewayRuns.BoundWhileApart | cpp/src/risk/risk_gateway.cpp:345-355 | over any run, exchange ids and the orders bound to them have stayed one to one up to a point exactly when no report gave an order another one's exchange id |
| GatewayRuns.NamedUntilReleased | cpp/src/risk/risk_gateway.cpp:285-318 | once a report has given a working order its exchange id, and while no report gives an order another one's, a replacement of that id names that order until it is released or given another id |
| GatewayRuns.RunGateway | cpp/src/risk/risk_gateway.cpp:475-703 | running any list of operations on the gateway goes through states that each operation, answered as it was, allows |
| Portfolios.FillDrift | cpp/src/risk/portfolio_risk.cpp:89-121 | a fill moves realised result and cost basis away from cash by at most the new position less one when it extends, and not at all when it reduces, closes or flips |
| Portfolios.FilledQuantity | cpp/src/risk/portfolio_risk.cpp:89-121 | the position is the signed sum of the fills |
| Portfolios.ReduceExact | cpp/src/risk/portfolio_risk.cpp:89-121 | reducing, closing and flipping fills add no rounding error |
| Portfolios.ClosesAtCost | cpp/src/risk/portfolio_risk.cpp:108-125 | a fill against the holding realises the gain per unit on the smaller of fill and holding and on nothing else; the average cost stays while the side stays, is the fill's price after a flip and zero when flat |
| Portfolios.ExtendsAtAverage | cpp/src/risk/portfolio_risk.cpp:97-106 | a fill with the holding realises nothing; the new average cost is the whole cost over the whole holding, rounded toward zero |
| Portfolios.FlipIsCloseAndOpen | cpp/src/risk/portfolio_risk.cpp:108-125 | a flipping fill is a closing fill and an opening fill at the same price |
| Portfolios.ClosesInParts | cpp/src/risk/portfolio_risk.cpp:108-125 | closing in two fills at one price is closing in one |
| Portfolios.PortfolioRiskMonitor.ApplyFill | cpp/src/risk/portfolio_risk.cpp:89-126 | updates position, cost and realised result in place as specified, and adds the fill to cash and slack |
| Portfolios.PortfolioRiskMonitor.TotalPnl | cpp/src/risk/portfolio_risk.cpp:149-159 | total result differs from net cash plus positions at their marks by at most the accumulated slack |
| JsonText.UnescapeEscape | cpp/src/risk/audit_manifest.cpp:79-105 | unescaping an escaped string gives the string back |
| JsonText.OnlyOwnKey | cpp/src/risk/audit_manifest.cpp:47-77 | inside a printed field a quoted key stands only at the start, and is the field's own, whatever the value says |
| Manifests.ReadBack | cpp/src/risk/audit_manifest.cpp:47-77 | looking up one of a line's keys gives that field's raw text |
| Manifests.ReadsNothing | cpp/src/risk/audit_manifest.cpp:47-77 | looking up a key that is not on the line gives nothing, even from strings that spell it |
| Manifests.RoundTrip | cpp/src/risk/audit_manifest.cpp:327-461 | parsing a serialized manifest gives exactly the original, for all strings |
| ManifestShape.ReadIff | cpp/src/risk/audit_manifest.cpp:367-461 | a text is a manifest exactly when its lines are one header and then files, blank lines aside; it then holds what the header says and the files in order |
| ManifestShape.FirstWrong | cpp/src/risk/audit_manifest.cpp:392-450 | otherwise reading stops at the first line that does not fit, with its number and what is wrong with it |
| ManifestIo.JsonUnescape | cpp/src/risk/audit_manifest.cpp:79-105 | the cursor loop is the unescaping function |
| ManifestIo.JsonRawValue | cpp/src/risk/audit_manifest.cpp:47-77 | the cursor loops find the raw text after a quoted key |
| ManifestIo.SerializeManifest | cpp/src/risk/audit_manifest.cpp:327-355 | writes the lines of the format in order |
| ManifestIo.ParseManifest | cpp/src/risk/audit_manifest.cpp:366-461 | reads line by line, with the first error and its line number |
| ManifestIo.RoundTripped | cpp/src/risk/audit_manifest.cpp:327-461 | printing and then reading gives the manifest back |
| Generators.GenerateEvents | cpp/src/market_data/synthetic_generator.cpp:167-237 | the generator's loop makes the specified events and active list |
| GeneratorShapes.FlowIsRegular | cpp/src/market_data/synthetic_generator.cpp:167-237 | whatever is drawn, every event is numbered and timed in order, and has the terms, the order id and the trade id its kind demands, with prices within range |
| GeneratorShapes.DrawnAtOdds | cpp/src/market_data/synthetic_generator.cpp:58-98 | each mode draws its kinds of events at fixed odds in a hundred; the deep-book mode never cancels |
| GeneratorLaws.StreamIsClean | cpp/src/market_data/synthetic_generator.cpp:167-237 | after every generated event replay has no complaint and the active list is exactly the book's resting orders |
| GeneratorLaws.FlowIsAccepted | cpp/src/market_data/synthetic_generator.cpp:167-237 | harmless flow replays in full, without a diagnostic, in either mode |
| GeneratorBounds.AcceptedIffMid | cpp/src/market_data/synthetic_generator.cpp:48-56 | every draw's flow is accepted exactly when the middle price is at least one, or fewer than two events are made, or the book is not checked |
| AdversarialFlows.GenerateAdversarial | cpp/src/market_data/synthetic_generator.cpp:102-163 | the loop over cycles makes the specified flow, cut at the event count |
| AdversarialFlows.AdversarialAcceptedIff | cpp/src/market_data/synthetic_generator.cpp:102-163 | the flow is accepted exactly when at most seven events are made or the middle price is at least minus four |

## Left out

- File and stream input and output, log rotation, the audit log of decisions, HMAC signing and manifest verification: plumbing around the modelled core.
- Clocks, elapsed time, throughput and the count of backpressure events beyond its being counted: they depend on timing.
- Weak memory: acquire and release orders are taken as sequentially consistent, and the steady-state variant of two-thread replay is not modelled.
- FNV-1a and the hash finalizers: any mixing function and any bucket function.
- Machine integer overflow, except the manifest's integer ranges.
- Index masks: a mask with a power-of-two capacity is modelled as a remainder.
- List iterators: a list node is named by a handle that stays with it.
- Vector growth policy: capacities and reallocations are ghost counters, and growth is to at least one more.
- `set_limits` during a run: switching self-trade tracking on or off would leave client books out of step with working orders.
- Releasing by exchange id: a terminal report found by its exchange id releases by the report's own client order id, as in the C++ code, so it may release nothing.
- The packed key of client and symbol: a pair.
- Steps after a halt: replay stops at the first refusal, and calling the step function again by hand is not modelled.
- A third validation mode: the enumeration has only Full and Light, so the branch for an unsupported mode is not modelled.
- The multi-symbol mode of the random generator, and its adapter that hands events out one by one.
- Portfolio limits, `set_position` and the order check of the portfolio monitor: comparisons against limits; setting a position by hand starts a new account of cash.
- The text of diagnostics and reject reasons: a reason is a value, rendered by an arbitrary function.
- Parsing digits: `from_chars` is modelled as the number its digits stand for.
- `open_orders`, `canonical_state` and the reference's own running checksum: further views of states that are proved equal.
- Benchmarks, fuzz drivers, Python bindings, strategies, inference, the broker session, event log codecs and the exchange normaliser.
