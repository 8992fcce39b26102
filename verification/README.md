# Trading system: a verified model

This project models a simulated exchange and its trading client in Dafny and proves what the two promise
each other. It stands in two layers. The lower files state what each part must do as functions on plain
values (a price-time book, event replay, recovery, sessions, queues); the classes beside them have the
program's own fields, loops and pointer rings and are proved to do exactly that. What those functions mean is
proved in turn, in terms of what a user of the part sees: which requests are answered how, which frames enter,
which orders are sent, which quotes appear. The theorems then speak of
whole runs: of the matching engine, of the recovery protocol between two threads, of the order round trip.

## How it is organised

- Values and messages: `Types`. Book reference and pointer structure: `PriceBook`, `Rings`, `MemPool`,
  `LadderShape`, `QueueShape`, `PriceLadder`.
- Matching: `MatchSpec`, `MatchInvariants`, `MatchPriority`, `MEOrderBook`, `OrderLife`, `EngineSpec`,
  `EngineProps`, `EngineHears`, `EngineRuns`, `EngineAnswers`, `TradeReports`, `MatchingEngine`.
- Market data: `Replay`, `MarketOrderBook`, `MarketStream`, `SynthesizerSpec`, `SnapshotSynthesizer`,
  `MarketDataPublisher`, `BookHash`, `RecoverySpec`, `MarketRecovery`, `RecoveryProps`, `RecoveryComplete`,
  `Protocol`, `ProtocolFine`, `ProtocolBounds`, `ProtocolProgress`, `MarketDataConsumer`, `MarketSide`,
  `ReceiverRuns`, `EndToEnd`; frame by frame in `LiveFeed`, `RecoveryFeed`, `RecoveryChecks`, `HashDetects`,
  `MarketWire`, `Datagrams`; what a client sees in `Quotes`, `FedBooks`.
- Client orders: `RiskSpec`, `RiskManager`, `PositionKeeper`, `TradeOrders`, `TradeEngine`, `RoundTrip`,
  `Undisciplined`, `SendGates`, `Trading`.
- Transport: `Cursors`, `SpscQueue`, `LFQueue`, `SequencerSpec`, `FIFOSequencer`, `SessionSpec`,
  `SessionLive`, `SessionNumbers`, `OrderServer`, `TcpSocket`, `OrderGateway`, `Wire`, `RequestWire`,
  `OrderChannel`, `ResponseWire`.

## Modelling decisions

- A pointer into a `MemPool` is a slot number; null is -1. The pool's live objects are a ghost map, and the
  ring proofs are about that map.
- `MEOrderBook` and `MarketOrderBook` contain the same level and order ring code word for word; it is one
  class, `PriceLadder`, used by both. The two loops of `checkForMatch` are one loop over the opposite side.
- `std::map` and `std::unordered_map` are Dafny maps; where the source walks a map in order the model takes
  the next key (`upper_bound`). Fixed arrays indexed by client are maps with the array's initial value; arrays of
  pointers indexed by order id are maps without the null entries.
- Response and market sinks are sequences a reader can inspect. What the session, the strategy, the kernel
  or the network decides is a parameter, so every theorem holds for every choice.
- Threads interleave: in `Protocol` at steps that change what others see once, in `ProtocolFine` and `SpscQueue` at
  single accesses to shared state. A cursor of the other thread may be read late; a `marketReady` reads its two
  counters in two different states.
- Where the source stops the process by an assertion that its inputs can reach, the method returns that it stopped.
- Money is `real`; quantities, prices and counters are integers, with the 64-bit wrap-around of the risk
  totals and the exact ranges of positions stated and proved not to matter.
- `TradeEngine` appears as two classes, `TradeEngine` for orders and `MarketSide` for market data: the two
  halves share nothing but readiness, which the order half takes as a parameter.
- The client's bookkeeping is stated on genuine frames and FIFO channels. Genuine means published under
  that cycle and number; it does not rest on the checksum.

## Where a promise needs a condition

- The snapshot synthesizer keeps the orders of all tickers in one pool that is as large as one ticker's range of
  ids. It follows the exchange exactly as long as all live orders together fit; `ReceiverRuns.SynthesizerCanStop`
  is a run of accepted requests for which they do not.
- A client's recovery caches hold 262,144 frames. Recovery from any state is possible when a snapshot fits them, and
  impossible from a snapshot that does not (`ProtocolProgress.ReadyIsReachable`, `ProtocolBounds.CandidateFits`,
  `ReceiverRuns.TooManyToRecover`).
- A client stays reconciled if it never reuses an order id and cancels or queries only what it has sent
  (`RoundTrip.NeverUnreconciled`); `Undisciplined` has a run for either that fails without.

## Model

| member | source | states |
|---|---|---|
| Protocol.MarketReadyMeansExact | trading/strategy/trade_engine.h:92-95 | In every run of publisher, synthesizer, lossy network, consumer, queue and engine, under any interleaving of their steps: if the applied generation read first equals the current generation read later, the local books are exactly the exchange stream replayed to some prefix already emitted |
| Protocol.RunInv | trading/strategy/trade_engine.cpp:86-128 | The invariant behind it holds in every state of every run: a pending batch ends in the watermark's exact books, applied books are followed in the queue by the very next events, generations only grow along the queue |
| Protocol.StepKeeps | trading/market_data/market_data_consumer.cpp:38-164 | Each of the twelve steps of publisher, synthesizer, consumer and engine keeps that invariant |
| Protocol.ReceiveKeeps | trading/market_data/market_data_consumer.cpp:113-147 | Receiving any genuine frame, live or recovering, with the queue full or not, keeps it |
| Protocol.LivePush | trading/market_data/market_data_consumer.cpp:118-123 | A live increment enters the queue only as the next event of the stream |
| Protocol.AdmitKeeps | trading/market_data/market_data_consumer.cpp:150-163 | A whole batch entering the queue leads the engine from whatever it holds to the exact books at the batch's watermark |
| Protocol.ApplyKeeps | trading/strategy/trade_engine.cpp:114-123 | Applying the front event moves exact books to the next exact books |
| Protocol.StoreKeeps | trading/strategy/trade_engine.cpp:104-110 | Storing a marker's generation happens only when the books are exact at its watermark, or the generation is already stale |
| Protocol.CountersGrowAlong | trading/strategy/trade_engine.h:90-95 | Both counters never decrease along a run, which makes the two separate reads of `marketReady` safe |
| LiveFeed.LiveFrame | trading/market_data/market_recovery.h:45-57 | One genuine frame at a live consumer, whatever else is going on: a number below the expected one leaves the whole system as it was; the expected one, with room, appends exactly that event of the stream and counts it; a gap or a full queue opens a new generation from nothing but the frame; a snapshot frame changes nothing |
| LiveFeed.ReadyStaysExactlyWhen | trading/market_data/market_data_consumer.cpp:38-147 | Of all steps of all threads exactly three make a ready market unready: a bad datagram, a gap, and the next increment before a full queue; every other keeps it ready under the same generation |
| LiveFeed.ReceptionKeepsReady | trading/market_data/market_data_consumer.cpp:113-130 | The run law: from a ready market, through any steps of exchange and engine and any reception in order with repeats of older numbers and room, the market stays ready under the same generation, and what has entered the queue is exactly the stream between the numbers expected at the start and at the end, each event once |
| LiveFeed.ReceivedHasEntered | trading/market_data/market_data_consumer.cpp:118-123 | On such a run every increment received has entered the queue |
| LiveFeed.RunBumps | trading/strategy/trade_engine.cpp:114-127 | In every run the engine opens a generation only over an event that its books do not accept |
| Datagrams.DatagramIsSteps | trading/market_data/market_data_consumer.cpp:73-110 | Whatever bytes a datagram holds, whole, cut short or mixed with frames that cannot be read, its effect is a path of the protocol's steps, as long as no garbled frame passes for a genuine one: so every result about runs is about bytes received |
| Datagrams.SentIsReceived | trading/market_data/market_data_consumer.cpp:85-107 | A datagram of any encoded frames that may be sent is taken frame by frame as sent, and none is refused |
| Datagrams.OneFrameExactlyWhen | trading/market_data/market_data_consumer.cpp:95-104 | For any frame on the incremental channel of a live consumer: the generation survives exactly a public event of a known ticker without snapshot fields that is old, or next with room; anything else reopens recovery |
| MarketWire.UpdateSurvives | common/market_protocol.h:8-56 | The consumer decodes exactly the market frame that was encoded; a commit marker is never decoded |
| MarketDataConsumers.MarketDataConsumer.DoReceive | trading/market_data/market_data_consumer.cpp:73-110 | The frame loop over the bytes of a datagram has exactly the specified effect, faults and the early end included |
| MarketDataConsumers.MarketDataConsumer.DoProcessWhole | trading/market_data/market_data_consumer.cpp:113-147 | Processing a frame, with the batch it completes offered to the queue at once |
| ProtocolProgress.BatchApplies | trading/market_data/market_recovery.h:114-184 | Every event of a batch is accepted by the client's books, whatever they held before, and the last leaves them exactly at the batch's watermark; client pools are never exhausted on the way |
| ProtocolFine.AccessIsStep | trading/market_data/market_data_consumer.cpp:38-164 | The same protocol with every access to shared state on its own (send and forward, frame by frame, failed push and bump, two reads of a generation, effect and pop) and any thread between: each access is one step of the protocol or none |
| ProtocolFine.ReadyMeansExactFinely | trading/strategy/trade_engine.h:92-95 | The exactness of a ready market, for every run of single accesses |
| ProtocolProgress.BatchReached | trading/strategy/trade_engine.cpp:102-110 | A batch that waits behind an empty queue always fits it, and admitting and draining it leaves the market ready on exactly the exchange's books at its watermark |
| ProtocolProgress.ReadyIsReachable | trading/market_data/market_data_consumer.cpp:38-164 | Progress: from every state of every run, if the live orders after what the synthesizer has applied, and ten frames more, fit the recovery caches, steps of the protocol lead to a ready market on exactly those books; the queue's capacity is respected on the way |
| ProtocolBounds.StepBounded | trading/market_data/market_recovery.h:104-110 | In every run the recovery caches stay within their limit and the engine's queue within its capacity |
| ProtocolBounds.CandidateFits | trading/market_data/market_recovery.h:20-20 | In every state of every run a batch that waits is smaller than the caches' limit, which is the queue's capacity too, and was built of a snapshot that fits the caches: one that does not fit is never built from |
| ProtocolBounds.CycleSize | exchange/market_data/snapshot_synthesizer.cpp:93-120 | A cycle has one frame for every live order, one for every ticker, and two markers |
| ReceiverRuns.TooManyToRecover | trading/market_data/market_recovery.h:104-110 | A run of accepted requests whose resting orders outgrow the caches: no client ever builds a batch of a snapshot of those books |
| EndToEnd.ReadyBooksAreTheExchanges | trading/strategy/trade_engine.h:92-95 | From arbitrary requests at the matching engine to a ready client: its books are what the events sent so far, up to one of them, made of the engine's public books, and at the end of a request the engine's books themselves |
| EndToEnd.RequestBoundary | exchange/matcher/me_order_book.cpp:131-187 | After every request of every run, the event stream so far replays to exactly the exchange's books |
| MarketSides.MarketSide.HandleNext | trading/strategy/trade_engine.cpp:96-127 | One turn of the engine loop on real book objects has the effect of the protocol's turn: compare a marker, or apply an event, or bump the generation |
| MarketSides.TurnIsSteps | trading/strategy/trade_engine.cpp:102-124 | That turn is exactly the protocol's sequence of single-access steps |
| MarketSides.MarketSide.MarketReady | trading/strategy/trade_engine.h:92-95 | True exactly when the applied generation is the current one |
| MarketSides.MarketSide.constructor | trading/strategy/trade_engine.cpp:5-21 | Eight empty, separate client books, generation one, nothing applied |
| MarketDataConsumers.MarketDataConsumer.constructor | trading/market_data/market_data_consumer.cpp:9-35 | The consumer starts by opening a new generation |
| MarketDataConsumers.MarketDataConsumer.DoStale | trading/market_data/market_data_consumer.cpp:38-47 | Going stale has exactly the protocol's effect: new generation, caches and candidate dropped |
| MarketDataConsumers.MarketDataConsumer.Poll | trading/market_data/market_data_consumer.cpp:50-59 | A generation bumped by the engine restarts recovery under it; otherwise nothing changes |
| MarketDataConsumers.MarketDataConsumer.DoProcess | trading/market_data/market_data_consumer.cpp:113-139 | Processing one frame on the real recovery object and queue has exactly the protocol's effect, in the live, repeated, gap, full and recovering cases, which `LiveFeed.LiveFrame` and `RecoveryFeed.BatchExactlyWhen` tell apart |
| MarketDataConsumers.MarketDataConsumer.DoPublishRecovery | trading/market_data/market_data_consumer.cpp:150-163 | The batch enters whole when it fits, and then recovery is committed; otherwise nothing changes |
| RecoveryProps.BuildRecovers | trading/market_data/market_recovery.h:114-184 | Over genuine frames, in any order and with any losses and repeats, a batch replayed from any prior state gives exactly the exchange books at its watermark |
| RecoveryProps.BuildIs | trading/market_data/market_recovery.h:114-184 | What a batch contains: the snapshot's body followed by the stream's events up to the final watermark, including every cached increment above the snapshot |
| RecoveryProps.IngestKeeps | trading/market_data/market_recovery.h:64-111 | Caches only ever hold genuine frames, those of the snapshot cache all of one cycle |
| RecoveryProps.IngestBounded | trading/market_data/market_recovery.h:104-110 | The caches never hold more than the limit after an ingest |
| RecoveryComplete.BuildExactlyWhen | trading/market_data/market_recovery.h:114-184 | Over genuine frames a batch is built if and only if the current cycle has not been voided, all its frames are held and the held increments above its watermark have no gap |
| RecoveryFeed.NothingReceivedIsLost | trading/market_data/market_recovery.h:64-111 | After a restart and any genuine frames within the limit, the caches hold exactly the frames received of the newest cycle newer than the one restarted in, and every increment received above its watermark |
| RecoveryFeed.BatchExactlyWhen | trading/market_data/market_recovery.h:64-184 | After a restart, over whatever genuine frames arrive, in any order, with losses and repeats: there is a batch if and only if a newer cycle has arrived, the newest has arrived whole, and the increments received above its watermark have no gap |
| RecoveryFeed.CandidateExactlyWhen | trading/market_data/market_data_consumer.cpp:113-147 | The same in runs of the protocol, for the frames that have reached a consumer since it restarted |
| RecoveryFeed.GenuineStays | trading/market_data/market_recovery.h:114-184 | Genuine frames are never mistaken for a wrong cycle: building changes nothing but the answer |
| RecoveryChecks.EveryBatchIsChecked | trading/market_data/market_recovery.h:114-184 | Over any frames, also altered ones: a batch is only ever a whole cycle between its two markers, consistent in watermark, hash and order, whose events apply one by one and hash to the declared value, followed by a gapless run of increments that apply |
| RecoveryChecks.ConflictVoids | trading/market_data/market_recovery.h:84-103 | The same number with another content voids the cycle; nothing is built before a newer one |
| RecoveryChecks.OverflowRestarts | trading/market_data/market_recovery.h:104-110 | A frame beyond the limit empties the caches and restarts recovery |
| RecoveryChecks.RebuiltArePresentable | trading/market_data/market_recovery.h:114-184 | Whatever events a batch was built of, every order they rebuild has a valid side, price and quantity |
| MarketRecoveries.MarketRecovery.DoRestart | trading/market_data/market_recovery.h:25-31 | Restart clears both caches and voids the current cycle |
| MarketRecoveries.MarketRecovery.DoLiveCandidate | trading/market_data/market_recovery.h:45-57 | In place, the specified check of a live number; what that check means for the whole system is `LiveFeed.LiveFrame` |
| MarketRecoveries.MarketRecovery.DoIngest | trading/market_data/market_recovery.h:64-111 | Caching in place equals the specified step: cycles replaced, duplicates compared, conflicts and overflow restarted |
| MarketRecoveries.MarketRecovery.DoBuild | trading/market_data/market_recovery.h:114-184 | The loops over both ordered caches return exactly the specified batch or nothing, voiding a cycle that is wrong |
| MarketRecoveries.MarketRecovery.WalkSnapshot | trading/market_data/market_recovery.h:141-165 | The frame loop accepts exactly the well-formed cycles and collects their events |
| MarketRecoveries.MarketRecovery.WalkIncremental | trading/market_data/market_recovery.h:175-182 | The loop from `upper_bound` on collects exactly the gapless increments above the watermark |
| MarketRecoveries.MarketRecovery.DoCommit | trading/market_data/market_recovery.h:187-193 | Commit expects the number after the batch's watermark and empties the caches |
| BookHashes.HashOfSet | common/book_hash.h:9-28 | The checksum of a book does not depend on the order in which its orders are listed |
| HashDetects.OneByteDetected | common/book_hash.h:9-28 | Two books whose fields, in the checksum's order, differ in a single byte have different checksums |
| SynthesizerSpec.PassesExactlyWhen | exchange/market_data/snapshot_synthesizer.cpp:37-90 | On any genuine stream the synthesizer passes the first k events if and only if, after each of them, the live orders of all tickers fitted its one pool; its orders then are exactly the exchange's |
| ReceiverRuns.SynthesizerCanStop | exchange/market_data/snapshot_synthesizer.cpp:12-12 | That condition can fail: a run of accepted requests, two tickers, after which the synthesizer has stopped while every book of the exchange is in order |
| SnapshotSynthesizers.SnapshotSynthesizer.AddToSnapshot | exchange/market_data/snapshot_synthesizer.cpp:37-90 | Over one pool shared by all tickers: the source's assertions stop it exactly when the specification says so, a full pool included, and otherwise one increment changes exactly its ticker's orders and the last number; no slot leaks or is shared |
| SnapshotSynthesizers.SnapshotSynthesizer.ApplyUpdates | exchange/market_data/snapshot_synthesizer.cpp:130-139 | The loop over the publisher's queue takes the protocol's step for every increment, and reaches the end exactly when the pool suffices |
| SnapshotSynthesizers.SnapshotSynthesizer.PublishSnapshot | exchange/market_data/snapshot_synthesizer.cpp:93-120 | The publishing loops send exactly the specified cycle: start, per ticker a CLEAR and its live orders by id, end, numbered from zero under one watermark and hash; it is the protocol's step, and the frames are those recovery expects of that cycle |
| SnapshotSynthesizers.CycleIsGenuine | exchange/market_data/snapshot_synthesizer.cpp:93-120 | As long as the synthesizer runs, every frame of its cycles is one that recovery may count on |
| MarketDataPublishers.SendIsStep | exchange/market_data/market_data_publisher.cpp:35-49 | Sending and forwarding the next event is the protocol's step, and what is sent is the stream's own event under its number |
| MarketDataPublishers.MarketDataPublisher.Drain | exchange/market_data/market_data_publisher.cpp:23-49 | The draining loop multicasts the queue's events under consecutive numbers and forwards the same frames, up to the first send that fails, losing none; it stops exactly when the synthesizer's queue cannot take them all, and otherwise is that many steps of the protocol |
| MarketDataPublishers.MarketDataPublisher.ForwardOne | exchange/market_data/market_data_publisher.cpp:35-49 | The event is copied before it is popped: both channels carry the same event and number; a full synthesizer queue stops it |
| MarketStream.SnapshotRebuilds | exchange/market_data/snapshot_synthesizer.cpp:109-116 | Replaying a snapshot from any state gives exactly the books it was taken of, every queue in time order, although it lists orders by id |
| MarketStream.LiveRebuilds | exchange/market_data/snapshot_synthesizer.cpp:109-116 | The same for one ticker, because ids ascend along every queue |
| MarketStream.StreamIndexed | exchange/market_data/snapshot_synthesizer.cpp:109-116 | In every state of a genuine stream ids ascend along every queue and index the order array |
| MEOrderBooks.MEOrderBook.Add | exchange/matcher/me_order_book.cpp:131-187 | Adding on rings, indexes and pools emits the same responses and events and leaves the same book as the plain price-time book |
| MEOrderBooks.MEOrderBook.Cancel | exchange/matcher/me_order_book.cpp:189-232 | The same for cancel |
| MEOrderBooks.MEOrderBook.Query | exchange/matcher/me_order_book.cpp:333-352 | The same for query, which changes nothing |
| MEOrderBooks.MEOrderBook.Match | exchange/matcher/me_order_book.cpp:29-87 | One execution on the real order object equals the specified execution, in both its filled and its partial case; what it reports and announces is `TradeReports.MatchAnnounced` |
| MEOrderBooks.MEOrderBook.CheckForMatch | exchange/matcher/me_order_book.cpp:94-126 | The matching loop terminates and equals the specified run of executions |
| MEOrderBooks.MEOrderBook.CheckAdd | exchange/matcher/me_order_book.cpp:133-150 | The checks on pools and indexes give exactly the specified reason, and success means room in both pools |
| MEOrderBooks.MEOrderBook.RestOrder | exchange/matcher/me_order_book.cpp:171-186 | What is left is queued last on its level and announced |
| MEOrderBooks.MEOrderBook.EmitResponse | exchange/matcher/me_order_book.cpp:313-322 | Only acceptances, executions and cancels are remembered; every response is sent |
| MEOrderBooks.MEOrderBook.constructor | exchange/matcher/me_order_book.cpp:6-11 | An empty valid book |
| MatchPriority.MatchInPriority | exchange/matcher/me_order_book.cpp:94-126 | The executions of a match come strictly in price-time order, each at the resting order's price and within the taker's limit; no order trades before all ahead of it are completely filled |
| TradeReports.MatchAnnounced | exchange/matcher/me_order_book.cpp:29-87 | The k-th TRADE of a match has the taker's side and exactly the price and quantity that both execution reports of that execution carry; the event after it names that maker, as CANCEL exactly when nothing of it is left, and otherwise as MODIFY to what is left |
| TradeReports.MatchVolume | exchange/matcher/me_order_book.cpp:29-126 | Over a whole match, announced trades and the taker's reports carry exactly what the taker lost, and all reports twice that |
| TradeReports.TradesAreExecutions | exchange/matcher/me_order_book.cpp:29-126 | In every run, per ticker: the quantities of all TRADE events sum to what was executed for the incoming orders, which is half of all execution reports |
| MatchInvariants.NextMakerIsFirst | exchange/matcher/me_order_book.cpp:94-126 | The order matched next is the unique one ahead of all others of its side, and there is none exactly when nothing crosses |
| MatchInvariants.AddKeeps | exchange/matcher/me_order_book.cpp:131-187 | Whatever is asked, the book stays uncrossed, sound, within its capacities, with ids and priorities ascending along every queue and no priority above its id |
| MatchInvariants.CancelKeeps | exchange/matcher/me_order_book.cpp:189-232 | So it does after any cancel |
| MatchInvariants.RoomForRest | exchange/matcher/me_order_book.cpp:145-177 | The capacity checks made before matching suffice: whatever trades, both pools then have room for the rest |
| MatchInvariants.MatchThins | exchange/matcher/me_order_book.cpp:94-126 | Matching only shrinks or removes orders of the other side and ends filled or with nothing crossing |
| PriceBooks.DeleteWf | tests/01_reliability/book_model_test.cpp:40-106 | Removing an order keeps the reference book's queues and orders consistent |
| PriceBooks.AppendWf | tests/01_reliability/book_model_test.cpp:40-106 | So does queueing a new one |
| PriceLadders.PriceLadder.FindTarget | exchange/matcher/me_order_book.h:109-135 | The do-while search finds the place that keeps the ring sorted from best to worst |
| PriceLadders.PriceLadder.LinkLevel | exchange/matcher/me_order_book.h:109-139 | A new level is linked there, also as the first or the best |
| PriceLadders.PriceLadder.AddOrdersAtPrice | exchange/matcher/me_order_book.h:109-139 | Level rings stay circular, sorted and duplicate-free, and the index names exactly the levels |
| PriceLadders.PriceLadder.RemoveOrdersAtPrice | exchange/matcher/me_order_book.h:142-162 | The same when a level leaves |
| PriceLadders.PriceLadder.AddOrder | exchange/matcher/me_order_book.h:208-227 | An order enters as the last of its level; the ladder represents the plain book with it appended |
| PriceLadders.PriceLadder.RemoveOrder | exchange/matcher/me_order_book.h:185-206 | An order leaves from any place of its level; the ladder represents the plain book without it |
| PriceLadders.PriceLadder.BestOrder | exchange/matcher/me_order_book.h:103-107 | The head of the best level is the oldest order at the best price |
| PriceLadders.PriceLadder.NextPriorityAt | exchange/matcher/me_order_book.h:164-170 | One more than the last priority of the level, one on an empty level |
| PriceLadders.PriceLadder.Counts | exchange/matcher/me_order_book.h:208-217 | As many slots are used as there are orders and levels |
| PriceLadders.PriceLadder.BestOf | trading/strategy/market_order_book.h:28-64 | The loop over the best level gives the best price and its quantity |
| PriceLadders.PriceLadder.Clear | trading/strategy/market_order_book.cpp:70-84 | CLEAR returns every slot and empties the book |
| Rings.LinkBeforeRing | exchange/matcher/me_order_book.h:133-136 | Relinking four pointers inserts a node into the ring before any member |
| Rings.UnlinkRing | exchange/matcher/me_order_book.h:190-200 | Relinking two pointers takes any member out of the ring |
| MemPools.MemPool.Allocate | common/mem_pool.h:36-47 | A fresh slot, or null exactly when the pool is full; free slots plus live objects stay the capacity |
| MemPools.MemPool.Deallocate | common/mem_pool.h:49-67 | The slot becomes free and nothing else changes |
| Replay.AddReplays | exchange/matcher/me_order_book.cpp:60-87 | Every event of an add is accepted by client book, recovery and synthesizer in turn, and replaying them turns the old public book into the new one |
| Replay.CancelReplays | exchange/matcher/me_order_book.cpp:217-229 | The same for cancel |
| ReceiverRuns.EveryReceiverFollows | trading/strategy/market_order_book.cpp:22-45 | In every run of requests, at every event: the client, having applied all events before it from the start, holds exactly the exchange's books and accepts it; recovery's orders go from the exchange's before it to those after it; the synthesizer has come so far, and passes it, exactly when its pool suffices |
| MarketOrderBooks.MarketOrderBook.OnMarketUpdate | trading/strategy/market_order_book.cpp:22-103 | The client book applies exactly the events its checks accept, with the specified effect; a rejected event changes nothing; BBO is that of the book |
| MarketOrderBooks.MarketOrderBook.UpdateBBO | trading/strategy/market_order_book.h:28-64 | The quotes are those of the book the ladder represents, which `Quotes.QuotesAre` describes by its orders |
| Quotes.QuotesAre | trading/strategy/market_order_book.h:28-64 | Over the orders of any well-formed book: the bid is the price of a buy order and none is priced higher, the ask of a sell order and none lower; each quantity is the sum over exactly the orders of that side at that price; the sentinels appear exactly when the side is empty |
| Quotes.StreamApart | exchange/matcher/me_order_book.cpp:94-126 | In every state of the exchange's stream, also between the events of one request, every bid is below every ask |
| Quotes.ReadyQuotesUncrossed | trading/strategy/trade_engine.h:92-95 | Whenever a client's market is ready, each of its quotes is that of the orders the exchange has announced, and none is crossed |
| FedBooks.AnyEvents | trading/strategy/market_order_book.cpp:22-103 | Whatever events are fed to a client's book, in whatever order, what it accepts keeps it well formed, within its pools, its ids within its array, and every order with a side, price and quantity that mean something |
| FedBooks.RefusedAndTouched | trading/strategy/market_order_book.cpp:22-45 | Events of another ticker, an ADD of a known id, and a MODIFY or CANCEL that does not match an order are refused; an accepted event touches no other order |
| MatchingEngines.MatchingEngine.ProcessClientRequest | exchange/matcher/matching_engine.h:29-70 | On eight real books the engine does exactly what is specified: same responses in number and position, same events, other books untouched |
| MatchingEngines.MatchingEngine.SendClientResponse | exchange/matcher/matching_engine.h:73-90 | Each response takes the next number and carries the client's position after it |
| MatchingEngines.MatchingEngine.Dispatch | exchange/matcher/matching_engine.h:47-69 | A valid request reaches its ticker's book and changes no other |
| EngineRuns.EventsRebuildTheBooks | exchange/matcher/me_order_book.cpp:60-87 | In every run of requests all events are genuine and replay to exactly the books of all tickers |
| EngineRuns.BooksStayGood | exchange/matcher/me_order_book.cpp:94-184 | After every request every book is uncrossed, sound and in time order |
| EngineRuns.NothingIsLost | exchange/matcher/me_order_book.cpp:131-232 | In every run, for every order: accepted quantity is executed plus canceled plus resting quantity |
| EngineRuns.QueriesAreTrue | exchange/matcher/me_order_book.cpp:333-352 | In every run a query reports an accepted order's open quantity, zero once filled or canceled |
| EngineRuns.PositionsSumToZero | exchange/matcher/matching_engine.h:79-83 | Client positions of a ticker sum to zero after every request |
| EngineRuns.PositionsFit | exchange/matcher/matching_engine.h:79-83 | No position any response ever carries can leave 64 bits |
| EngineRuns.ResponsesNumbered | exchange/matcher/matching_engine.h:73-83 | Response numbers are 1, 2, 3 and so on; each position is the running sum of the client's executions |
| EngineProps.OneAnswer | exchange/matcher/matching_engine.h:29-70 | Every request gets exactly one response that is not an execution report, and gets it first |
| EngineAnswers.NewExactlyWhen | exchange/matcher/me_order_book.cpp:131-187 | In every run, for any new order: accepted if and only if it is well formed, its client never had an order accepted under that id, and its book has room; otherwise rejected with the reason that fits, and nothing else happens |
| EngineAnswers.CancelExactlyWhen | exchange/matcher/me_order_book.cpp:189-232 | In every run, for any cancel: carried out if and only if it is well formed and the order still has open quantity by all responses so far, which the answer reports; otherwise nothing happens but the answer |
| EngineAnswers.QueryExactlyWhen | exchange/matcher/me_order_book.cpp:333-352 | In every run, for any query: one answer, and neither books nor positions change; an order ever accepted is reported with what all responses so far leave open of it, an id of zero is answered with the position only, any other id is rejected |
| EngineAnswers.UsedExactlyWhen | exchange/matcher/me_order_book.cpp:313-322 | In every run a book remembers an id exactly when the exchange has accepted an order under it |
| EngineAnswers.ResponsesAreSensible | trading/order_gw/order_gateway.cpp:126-142 | No response of any run is one that a client's gateway would take for a broken session |
| EngineSpec.ValidateExactlyWhen | common/order_protocol.h:119-141 | A request is valid exactly when its ids, kind, side, price and quantity are, spelled out; the reason given names a field that is wrong |
| OrderLife.AddHears | exchange/matcher/me_order_book.cpp:155-186 | The responses to a new order lead its owner and every counterparty from what they knew to what the book holds |
| OrderLife.CancelHears | exchange/matcher/me_order_book.cpp:189-232 | So do those to a cancel; a rejected cancel is always about a closed order |
| OrderLife.QueryReports | exchange/matcher/me_order_book.cpp:333-352 | A query's answer from the response history is the live quantity of the book |
| OrderLife.AddRecalls | exchange/matcher/me_order_book.cpp:313-322 | The response history holds exactly the accepted orders, each with its open quantity, also after a match |
| EngineHears.HandleHears | exchange/matcher/matching_engine.h:29-70 | The same for any request of anyone on any ticker |
| RoundTrip.NeverUnreconciled | trading/strategy/trade_engine.cpp:173-209 | In every run over FIFO channels with arbitrary other clients, a client that never reuses an id and cancels or queries only ids it used is never unreconciled; each response leaves the reservation at the quantity it reports open and the position at the one it carries; positions stay within limits |
| RoundTrip.AgreementWhenQuiet | trading/strategy/trade_engine.cpp:53-83 | When nothing is on its way, reservations are exactly the client's orders in the exchange's books and positions are the exchange's |
| RoundTrip.StepKeeps | trading/strategy/trade_engine.cpp:53-83 | Sending, serving anyone's request and delivering each keep the invariant that what is in flight leads from the reservations to the books |
| RoundTrip.CancelBeforeItsOrder | trading/strategy/trade_engine.cpp:196-200 | In any state: the answer to a cancel that overtakes its order makes the client unreconciled |
| Undisciplined.CancelOvertakesItsOrder | trading/strategy/trade_engine.cpp:53-83 | Why the discipline is needed: a run from the start, all gates open and all channels in order, in which a cancel is sent before its order and the client ends unreconciled |
| RoundTrip.ReusedId | trading/strategy/risk_manager.h:146-148 | In any state: the answer to a reused id makes the client unreconciled |
| Undisciplined.ReusesAnId | trading/strategy/risk_manager.h:146-148 | Why the discipline is needed: a run from the start in which an id is used again after its order was canceled, every response taken in between, and the client ends unreconciled |
| TradeOrders.AgreeingResponse | trading/strategy/risk_manager.h:128-156 | A response that agrees with the reservation is taken, and the reservation becomes what it reports open |
| TradeOrders.ResponseLaw | trading/strategy/risk_manager.h:128-156 | For any response in any state of the account: the client stays reconciled if and only if the response contradicts nothing it holds, and the reservation afterwards is what the response reports open |
| SendGates.SentExactlyWhen | trading/strategy/trade_engine.cpp:53-83 | A request is sent if and only if it is well formed and the client's own, the client is reconciled, its session is up, a new order finds it admitting and the market ready and is within every limit, and the queue has room; then a new order is reserved and nothing else changes, and a refusal changes nothing at all |
| SendGates.SubmittedExactlyWhen | trading/strategy/trade_engine.cpp:53-83 | The same in every state of every run: so no request goes out unreconciled or with the session down, and no new order while not admitting or not ready; and every request goes out for which all gates are open |
| SendGates.CheckExactlyWhen | trading/strategy/risk_manager.h:84-126 | A new order passes the risk check exactly when its id is free, it is no larger than the largest order, the profit is not below the loss limit, and position with all pending orders on either side stays within the position limit |
| SendGates.RolledBack | trading/strategy/risk_manager.h:116-126 | A reservation taken back leaves nothing behind |
| Trading.NewOrdersSeeExactBooks | trading/strategy/trade_engine.cpp:58-66 | Exchange, network and client in one run: whenever a new order is put on its way, the market having been found ready by its two separate reads, the client is reconciled, its session up, the order within every limit, and the books it was decided on are the exchange's at a point already announced |
| Trading.RunInv | trading/strategy/trade_engine.cpp:53-127 | The two protocols keep their invariants when they run together |
| TradeEngines.TradeEngine.SendClientRequest | trading/strategy/trade_engine.cpp:53-83 | On real objects, the specified attempt: gates, reservation, push and rollback; `SendGates.SentExactlyWhen` says when it succeeds; the account invariant is kept |
| TradeEngines.TradeEngine.OnOrderUpdate | trading/strategy/trade_engine.cpp:173-209 | Booking any response on real objects equals the specified step; the account invariant is kept |
| RiskSpec.PositionsBounded | trading/strategy/risk_manager.h:84-156 | For any requests and any responses, even wrong ones: pending totals are the sums of reservations, position plus pending on either side stays within the limit, hence the position itself |
| RiskSpec.ReserveKeeps | trading/strategy/risk_manager.h:102-114 | A reservation that passes the check keeps that, without wrap-around |
| RiskSpec.RollbackKeeps | trading/strategy/risk_manager.h:116-126 | So does taking it back |
| RiskSpec.ResponseKeeps | trading/strategy/risk_manager.h:128-156 | So does any response |
| RiskManagers.RiskManager.DoReserve | trading/strategy/risk_manager.h:102-114 | In place, exactly the specified check and reservation |
| RiskManagers.RiskManager.DoRollback | trading/strategy/risk_manager.h:116-126 | In place, exactly the specified rollback |
| RiskManagers.RiskManager.DoOnResponse | trading/strategy/risk_manager.h:128-156 | In place, exactly the specified effect and verdict of a response |
| PositionKeepers.TotalIsCashAtLastPrice | trading/strategy/position_keeper.h:35-102 | Over exact reals and any executions and quotes in any order: total profit is net cash flow plus position at the last price heard, and the side not held costs nothing |
| PositionKeepers.FillBooked | trading/strategy/position_keeper.h:35-72 | One execution from any booked state, through increase, reduction, flat and reversal |
| PositionKeepers.FillAverages | trading/strategy/position_keeper.h:35-72 | A reduction leaves the average cost of what is held unchanged and realizes the difference to it on what is closed; an increase adds its own cost; a reversal starts at the execution's price |
| PositionKeepers.QuoteRevalues | trading/strategy/position_keeper.h:81-102 | A two-sided quote revalues an open position at its middle, and no quote books anything |
| PositionKeepers.PositionInfo.AddFill | trading/strategy/position_keeper.h:35-72 | The fields updated in place are those specified |
| PositionKeepers.PositionInfo.UpdateBBO | trading/strategy/position_keeper.h:81-102 | So for quotes |
| SpscQueue.QueueIsFifo | common/lf_queue.h:40-97 | Under every interleaving of single accesses, with late reads of either cursor: a bounded FIFO of the full capacity, nothing overwritten, lost or reordered |
| SpscQueue.StepRefines | common/lf_queue.h:57-77 | A batch becomes visible whole in the one step that moves the tail; every other producer step is invisible |
| SpscQueue.FreeSlot | common/lf_queue.h:66-70 | The slot written holds nothing unread and nothing of the batch so far |
| SpscQueue.AdmitKeeps | common/lf_queue.h:57-65 | A batch is admitted exactly when it fits beside what the producer has seen unread |
| Cursors.DistanceIs | common/lf_queue.h:123-129 | Cursors modulo twice the capacity tell the distance exactly, so empty and full differ |
| LFQueues.LFQueue.TryPush | common/lf_queue.h:40-55 | Pushes exactly when there is room, and counts a full queue otherwise |
| LFQueues.LFQueue.TryPushBatch | common/lf_queue.h:57-77 | All of the batch or none of it |
| LFQueues.LFQueue.Peek | common/lf_queue.h:79-82 | The oldest value, none exactly when empty |
| LFQueues.LFQueue.Pop | common/lf_queue.h:84-88 | Removes exactly the oldest value |
| SequencerSpec.ArrivalOrderKept | exchange/order_server/fifo_sequencer.h:26-69 | Across all rounds and full queues, a client whose receive times never decrease has its requests published in the order it sent them |
| SequencerSpec.PublishedPlusPending | exchange/order_server/fifo_sequencer.h:26-69 | Published plus waiting requests are a permutation of the accepted ones, and no more wait than the buffer holds |
| SequencerSpec.SortOrders | exchange/order_server/fifo_sequencer.h:44-46 | Sorting permutes and orders by time |
| SequencerSpec.SortKeepsClient | exchange/order_server/fifo_sequencer.h:44-46 | Sorting does not reorder a client whose receive times never decrease |
| SequencerSpec.SortKeepsTies | exchange/order_server/fifo_sequencer.h:44-46 | Requests of equal receive time keep their order, whoever sent them |
| SequencerSpec.RoundPublishes | exchange/order_server/fifo_sequencer.h:35-69 | A round publishes the earliest of all that waits, as many as the queue has room for, and keeps the rest |
| SequencerSpec.AcceptedExactlyWhen | exchange/order_server/fifo_sequencer.h:26-32 | A request is accepted exactly when the buffer is not full |
| FIFOSequencers.FIFOSequencer.AddClientRequest | exchange/order_server/fifo_sequencer.h:26-32 | Refused exactly when the buffer is full |
| FIFOSequencers.FIFOSequencer.SequenceAndPublish | exchange/order_server/fifo_sequencer.h:35-69 | Publishes in sorted order until the queue is full and keeps exactly the rest, in order |
| SessionSpec.SessionsAreSafe | exchange/order_server/order_server.h:160-281 | Over any interleaving of connections and back-pressure: one epoch per client, numbers 1, 2, 3 and so on before a take-over, only queries forwarded after it |
| SessionLive.ConsumedExactlyWhen | exchange/order_server/order_server.h:160-281 | After any history, for any frame: it is consumed exactly when it is due and there is room for what becomes of it, forwarded if well formed and rejected otherwise, where due means the client's own connection, epoch and next number, the first frame of an unbound client, or a query that may take over |
| SessionLive.NextIsServed | exchange/order_server/order_server.h:172-249 | After any history, a known client's well-formed frame on its own connection with its epoch and one more than the numbers it has consumed is forwarded if the sequencer has room; without room nothing changes |
| SessionLive.FirstIsServed | exchange/order_server/order_server.h:225-266 | The first frame of an unbound client on a free connection is forwarded and binds them |
| SessionLive.QueryIsServed | exchange/order_server/order_server.h:185-222 | After a take-over, or taking over from a dead connection, a query is served |
| SessionLive.HealthyStays | exchange/order_server/order_server.h:185-201 | A healthy connection is never taken over, whatever anyone sends |
| SessionLive.SessionIsServed | exchange/order_server/order_server.h:160-281 | Whatever others did before: a fresh client's well-formed frames 1 to n on one connection are forwarded, exactly those, in order, while there is room |
| SessionNumbers.ConnectionsCount | exchange/order_server/order_server.h:69-157 | In any history of frames, rejections before and after binding, responses and full buffers: what a connection hears is numbered 1, 2, 3 and so on, unless it is part of a take-over |
| SessionNumbers.ResponseIsSent | exchange/order_server/order_server.h:69-110 | A response goes out on its client's connection under the next number whenever the buffer takes it, and otherwise nothing changes |
| OrderServers.OrderServer.SendResponses | exchange/order_server/order_server.h:69-110 | The response loop sends the queue's responses in order, each on its client's connection under the next number and its session's epoch, until a buffer is full; what is not sent stays queued; it stops exactly at a response without a connection |
| RequestWire.RequestSurvives | common/order_protocol.h:49-117 | The order server decodes exactly the request frame that was encoded, every field in its place |
| RequestWire.StreamIsServed | exchange/order_server/order_server.h:160-281 | From bytes to requests: a fresh client's encoded, well-formed, numbered requests, cut into any chunks, are forwarded exactly, in order, with no byte left over |
| SessionSpec.HeldIsRetried | exchange/order_server/order_server.h:219-276 | A frame held back consumes nothing, does not advance the expected number, and passes the checks again |
| OrderServers.BytesAreSafe | exchange/order_server/order_server.h:160-281 | The same for bytes: any chunks on any connections, cut anywhere, under any pressure |
| SessionSpec.HeldAgain | exchange/order_server/order_server.h:219-249 | Trying a held frame again under the same pressure holds it again and changes nothing |
| OrderServers.ChunksDoNotMatter | exchange/order_server/order_server.h:160-281 | Two chunks, the second after what the first left over, have the effect of both at once, whether or not a frame was held back |
| OrderServers.AnyChunks | exchange/order_server/order_server.h:160-281 | However a stretch of the byte stream is cut: same sessions, same requests forwarded, same bytes left |
| OrderServers.RestIsSuffix | exchange/order_server/order_server.h:275-280 | What stays in the buffer is exactly the unconsumed end of it, cut at a frame |
| OrderServers.OrderServer.RecvCallback | exchange/order_server/order_server.h:160-281 | The frame loop and compaction on the real buffer and sequencer equal the specified callback |
| OrderServers.OrderServer.OneFrame | exchange/order_server/order_server.h:166-272 | One frame on the real maps and sequencer has the specified fate |
| OrderServers.OrderServer.DoJudge | exchange/order_server/order_server.h:172-222 | In place, the specified checks in their order, which `SessionLive.ConsumedExactlyWhen` proves to let exactly the frames pass that are due |
| OrderServers.OrderServer.DoReject | exchange/order_server/order_server.h:118-157 | A rejection takes a number exactly when it fits the send buffer |
| TcpSockets.StreamConserved | common/tcp_socket.cpp:22-77 | For any sends and short, interrupted, blocked or failed writes: bytes handed over followed by bytes waiting are the messages taken |
| TcpSockets.TakenExactlyWhen | common/tcp_socket.cpp:22-42 | After any history a message is taken, behind all others, exactly when the connection is open, it is not empty and it fits beside what waits; otherwise nothing changes |
| TcpSockets.WillingDrains | common/tcp_socket.cpp:45-77 | Over any writes and interruptions: exactly as many bytes leave the buffer as the kernel takes within the budget of calls, from its front, and the connection stays open |
| TcpSockets.FlushStops | common/tcp_socket.cpp:45-77 | A flush ends with the first answer that ends it: what was taken until then is sent and the rest waits; a failure or a write of nothing closes the connection, a blocked one stays |
| TcpSockets.TCPSocket.Send | common/tcp_socket.cpp:22-42 | A message is appended whole, after compaction if needed, or refused |
| TcpSockets.TCPSocket.FlushSend | common/tcp_socket.cpp:45-77 | The bounded send loop has the specified effect for every answer of the kernel |
| OrderGateways.PassedInOrder | trading/order_gw/order_gateway.cpp:95-165 | However frames repeat or go missing, what reaches the engine is the server's responses from the first, none skipped or repeated, and the count of unanswered requests is exact |
| OrderGateways.NextIsPassed | trading/order_gw/order_gateway.cpp:103-165 | After any history of the server's frames: its next response is passed when there is room and kept otherwise, a repeat changes nothing, a gap breaks the session |
| OrderGateways.ReceivedIsPassed | trading/order_gw/order_gateway.cpp:95-165 | Over any reception without gaps the session stays healthy and all that was received has been passed |
| OrderGateways.PassedExactlyWhen | trading/order_gw/order_gateway.cpp:103-165 | After any history and for any frame, also garbled or foreign: it is passed exactly when it is readable, of this session and client, next in number, possible and there is room; and exactly which frames end the trust in the session |
| OrderGateways.OrderGateway.ReceiveFrame | trading/order_gw/order_gateway.cpp:103-165 | One response frame in place has the specified fate |
| OrderGateways.OrderGateway.SendRequests | trading/order_gw/order_gateway.cpp:58-86 | The sending loop frames the queued requests in order under consecutive numbers and the session's epoch until the buffer is full, pops exactly those, and counts them as unanswered |
| OrderChannel.RequestsArrive | exchange/order_server/order_server.h:160-281 | From queue to queue: what a fresh session's gateway sends, its bytes cut anywhere, whatever others do at the order server, is forwarded as exactly the requests the trade engine queued, in order, under the numbers one to n, with no byte left over, while there is room |
| OrderGateways.OrderGateway.RecvCallback | trading/order_gw/order_gateway.cpp:95-173 | The frame loop and compaction on the real buffer and queue equal the specified callback: frames passed, skipped, kept for later, or ending it |
| ResponseWire.ResponseSurvives | common/order_protocol.h:80-117 | The gateway decodes exactly the response frame that was encoded, every field and code in its place |
| ResponseWire.AnyChunks | trading/order_gw/order_gateway.cpp:95-173 | However the response bytes are cut: same gateway, same responses passed, same bytes left |
| ResponseWire.ResponsesArrive | trading/order_gw/order_gateway.cpp:95-173 | A fresh session's responses, numbered, encoded and cut anywhere, reach the trade engine exactly, in order, with no byte left; the session stays trusted if and only if none of them closes it |
| Wire.ParseExactly | common/order_protocol.h:31-117 | A byte string parses to given fields if and only if it is their frame: both directions of the codec |
| Wire.DecodeEncode | common/order_protocol.h:49-78 | Every message in range survives the wire |
| Wire.EncodeDecode | common/order_protocol.h:64-117 | Decoding loses nothing |
| Wire.Sizes | common/order_protocol.h:10-10 | The frame lengths the source declares: 50 and 79 bytes, and 70 for market data |
| Wire.ByteCursor.Put | common/order_protocol.h:15-20 | The shifting loop writes the big-endian bytes |
| Wire.ByteCursor.Get | common/order_protocol.h:23-29 | The shifting loop reads them back as a number |

## Left out

- Sockets, epoll, multicast joins, timestamps, sleeps and shutdown deadlines: their results are parameters.
- Logging, counters kept only for diagnosis, `toString`, timing macros, thread start and pinning.
- The audit journal and configuration files.
- The alternative book over unordered maps: the same algorithm with another container, and a query that differs.
- Quiescing, cancel-all on shutdown and checkpoints of the trade engine.
- Strategies, the feature engine and the order manager's case splits.
- `setMarketTrusted`, a measuring hook that bypasses the protocol.
- Weak memory orders below single atomic accesses: acquire and release are steps of an interleaving.
- Collisions of the checksum: any single byte of difference is noticed, nothing is claimed of more; the results on exact books take frames to be genuine.
- Overflow of the 64-bit sequence, generation and response counters.
- The finiteness test on profit and loss: the model's reals are always finite.
- FIFOSequencers.FIFOSequencer.SortLive: the library's stable sort is taken as its specification and not as an algorithm.
- ProtocolProgress.ReadyIsReachable: says that steps to a ready market exist, not that the threads and the network take them.
- RoundTrip.NeverUnreconciled: rejections made by the order server itself for identity, session or number do not occur on the lossless channels it speaks of.
- Wire.ParseExactly: treats a frame as a list of integer fields; the codes in them are read by the parts that receive them.
- OrderServers.OrderServer.RecvCallback: an unknown kind or side code is read as an invalid one and an unknown reason as none, at the gateway too, since the source only asks whether they are certain valid ones.
- MatchingEngines.MatchingEngine.ProcessClientRequest: responses are numbered after the book has produced them all for one request, in their order, instead of one by one inside the callback.
