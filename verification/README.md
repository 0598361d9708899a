# Verified model of the feed handlers

This project models the protocols inside the two feed handlers of the repository: the
local order book and the quote handler that drives it, the rate limits of the snapshot
requests, the detection and backfill of missing trades, the resending of rows to the
tickerplant (TP), and the choice of a row's time when the clock lags. It proves what
they promise for every input and every sequence of steps.

`dafny verify dfyconfig.toml` checks the whole project.

## How it is built

Each component has the form of the program. Its classes are Dafny classes whose methods
update the same state in place; every method is proved against a function over an
abstract view of that state (`View()`), and the promises are proved about those
functions, over whole runs. What the outside world decides is an argument of a step:
the events and snapshots of the exchange, the pages of the trade server, what becomes of
a connection, the clock, the jitter.

| file | what it holds |
|---|---|
| `price_side.dfy` | one side of a book: a sorted vector and the price map it stands for |
| `exchange.dfy` | the exchange's full book and what it means to agree with it inside a horizon |
| `order_book.dfy` | the book of one symbol: sequencing, buffer, refresh, quotes |
| `book_agreement.dfy` | over every run the book equals the exchange at its own update id |
| `book_refresh.dfy` | over every run a background refresh is invisible in the update ids |
| `sync_outcomes.dfy` | what becomes of a snapshot, told from the update ids |
| `book_quotes.dfy`, `book_laws.dfy` | what a quote shows that is not valid; what a book counts and keeps |
| `snapshot_requests.dfy` | request ids between the WebSocket thread and the fetching thread |
| `quote_handler.dfy`, `quote_stream.dfy`, `quote_runs.dfy`, `row_promptness.dfy`, `handler_laws.dfy` | the quote handler: no unmarked break, every valid row exact, rows up to date |
| `snapshot_scheduler.dfy`, `schedule_history.dfy` | token bucket, backoff and pauses |
| `snapshot_flow.dfy`, `request_answers.dfy`, `sync_reports.dfy` | quote handler, fetching thread and scheduler together |
| `trade_gap.dfy` | the id tracker and the acknowledged queue of gap events |
| `trade_backfill.dfy`, `backfill_proofs.dfy`, `pump_proofs.dfy`, `pump_ends.dfy`, `pump_backoff.dfy`, `backfill_progress.dfy`, `gap_histories.dfy` | the backfill of gaps against any replies |
| `trade_handler.dfy`, `trade_coverage.dfy`, `trade_lossless.dfy`, `trade_times.dfy` | the trade handler: every id accounted for, nothing lost, how often each is published |
| `tickerplant.dfy` | the tickerplant's count of a table: sessions, files, restarts |
| `tp_publisher.dfy`, `resend_steps.dfy`, `resend_runs.dfy`, `link_laws.dfy` | the resend protocol against a lossy connection and any tickerplant |
| `row_clock.dfy` | clock-lag episodes |
| `options.dfy` | a value that may be missing |

## Main results

- **Agreement** (`BookAgreement.RunKeepsAgreement`, `BookAgreement.ValidQuoteIsTop`,
  `QuoteRuns.ValidRowsAreExact`). The exchange is a function from update ids to full
  markets. A faithful event gives every price it mentions its quantity at the event's
  final id, and no other price changes from the id the event builds on. A faithful
  snapshot is the market cut at the requested number of levels, with distinct prices. Then
  over every run, under both sequencing rules, the book equals the market at its own
  update id inside each side's horizon, and each valid row ever published is exactly the
  market's top levels at the id it carries.
- **Sync** (`SyncOutcomes.InitialSync`, `SyncOutcomes.StreamSync`,
  `SyncOutcomes.ValidBookFollows`, `SyncOutcomes.RefreshOutcome`). What becomes of a
  snapshot, and of each later event, is told from the update ids alone, both ways and for
  any buffered events: when the book waits, when it is valid and at which id, when a
  refresh is swapped in, held or given up, and when there is a hole.
- **Seamless refresh** (`BookRefresh.RunRefinesLiveRun`,
  `BookRefresh.SwapKeepsLiveIdIff`). A book with background refreshes refines one without.
  On futures this needs nothing of the stream. On spot it needs that no event ends below
  the id the live book is at; `BookRefresh.LateSpotEventMovesBack` is a run in which a
  late event takes the id back, and the condition is proved to be exact. Agreement holds
  in that case too.
- **No unmarked break, and no row missing** (`QuoteRuns.NoUnmarkedBreak`,
  `RowPromptness.RowsAreUpToDate`, `RowPromptness.RepeatsAreDue`). After every event the
  last row tells the truth about the book, and no row goes out without a reason. The proof
  also shows that a running handler is always connected to the tickerplant when a
  reconnect begins, so a hole after a valid row is always marked.
- **Interleaving safety** (`SnapshotRequests.EveryInterleavingIsSafe`,
  `SnapshotFlow.OnlyFreshSnapshots`). The first is about the requests of all symbols, the
  second about the snapshots that reach the book of one symbol, among the requests and
  results of all the others. `RequestAnswers` has the other direction: a prompt answer to
  the last request reaches the book, an overdue request is given up, and the handler asks
  again.
- **Rate limits** (`SnapshotSchedulers.SlidingWindowBound`,
  `SnapshotSchedulers.RateLimitStopsAll`, `SnapshotSchedulers.StormBound`,
  `SnapshotFlow.PauseStopsRequests`, `ScheduleHistory.GrantedIff`,
  `ScheduleHistory.PatienceIsRewarded`, `SyncReports.FailedSyncWaits`,
  `PumpBackoff.FailuresBackOff`). When a request is granted is told from the history of
  calls, both ways. HTTP 429 is section 4 of RFC 6585; Retry-After is section 10.2.3 of
  RFC 9110, of which the program handles delay-seconds.
- **Trades** (`BackfillProofs.GapRowsAreExact`, `BackfillProofs.GapEnds`,
  `PumpProofs.RunIsDisciplined`, `GapHistories.EveryHistoryIsOrderly`,
  `TradeCoverage.EveryIdIsAccountedFor`, `TradeLossless.NothingLost`,
  `TradeLossless.ExactlyOnce`, `TradeTimes.ExactlyOnceIff`, `PumpEnds.RunEnds`,
  `BackfillProgress.GivenUpIff`). A gap is reported recovered if and only if it is
  covered, not above the cap, and the backfill is on; `GapHistories.CoveredGapAboveTheCap`
  is a covered one that is given up. Trades are published even when their id is a
  duplicate or late (`TradeTimes.RepeatedTrade`): `TradeTimes.OncePlusRepeats` counts how
  often, so exactly-once holds if and only if there is no such trade after the start of
  its symbol. Coverage does not depend on it.
- **Resend** (`ResendRuns.EveryRowIsCounted`, `ResendRuns.LogIsOrderly`,
  `ResendRuns.NoRowIsLost`). The connection may lose any suffix of what was sent, and
  nothing from an older connection arrives once a registration is answered. The
  tickerplant may have served other sessions before, and between two registrations it may
  go through any number of restarts, saves and midnights and lose its session file. Its
  answers decide what holds, and it is proved exactly which answers are good ones
  (`ResendRuns.TrueReplyIff`) and after which of these events they are
  (`ResendRuns.TrueIffKnown`). `LinkLaws` says when connecting ends, what is counted, and
  that an acknowledged event comes after every row sent before it.
- **Clock** (`RowClocks.EpisodesAreExact`, `RowClocks.EpisodesDescribeRows`,
  `RowClocks.RowIsCorrectedIff`).

## Where the code and its documentation differ

- `README.md:289-293` of the repository promises no silent loss between handler and TP,
  and `kdb/tick/tp.q:423-428` that after a restart the last row in the log of the day, or
  else the session file, tells where a session was. Neither holds of every restart. There
  are three ways in which the number goes wrong: the session file is lost while the
  session has no row in the log of the day (`ResendRuns.LostSessionFile`); the last row in
  the log of the day is an earlier session's, and its number is taken for this session's
  (`ResendRuns.NumberOfAnEarlierSession`); or TP stops without saving, after it has logged
  rows, and starts on the next day, so that its session file is older than the rows
  (`ResendRuns.StaleSessionFile`). In the first two, published rows are neither logged nor
  counted; in the third, rows are logged twice. A wrong number can also get into the
  session file, at a midnight or a clean stop, where the next restart finds it
  (`ResendRuns.NumberOfAnEarlierSession` has both). A reply that is not negative is no
  sign of safety. `ResendRuns.TrueReplyIff` gives the exact condition on a reply,
  `ResendRuns.TrueAfterFateIff` the one on the count TP goes on from, and
  `ResendRuns.TrueIffKnown` the one on what TP has been through.
  `ResendRuns.RowOfTheDayIsEnough` and `ResendRuns.KeptFileIsEnough` are the usual reasons
  why it holds.
- `cpp/include/order_book_manager.hpp:519-526` says that an invalid quote carries no
  levels. `getQuote` fills in the levels of a syncing book with `isValid` false
  (`BookQuotes.SyncingQuoteShowsLevels`); `BookQuotes.InvalidQuoteIsEmptyIff` is the exact
  condition. Such a quote is never published: `QuoteRuns.NoUnmarkedBreak` shows that
  published invalid rows are empty.
- `cpp/include/snapshot_worker.hpp:172-177` says that `enqueueRequest` may return 0. It
  always returns a new id.

## Model

| member | source | states |
|---|---|---|
| `PriceSide.BestNIsBest` | cpp/include/order_book_manager.hpp:621-626 | the n best levels of a price map keep their quantities, and every one of them is strictly better than every price left out |
| `PriceSide.SortedSuffixIsBestN` | cpp/include/order_book_manager.hpp:621-626 | the last n entries of a vector sorted worst to best mean exactly the n best prices of the map it stands for |
| `PriceSide.TrimIsSuffix` | cpp/include/order_book_manager.hpp:621-626 | cutting the front of a sorted vector keeps the best maxLevels prices and puts the horizon at the worst one kept |
| `PriceSide.SortedBackIsTopN` | cpp/include/order_book_manager.hpp:546-555 | reading a sorted vector from the back gives the best prices in order, then empty slots |
| `PriceSide.Side.LowerBound` | cpp/include/order_book_manager.hpp:647-649 | binary search finds the boundary between the worse and the not worse prices of the side |
| `PriceSide.Side.Apply` | cpp/include/order_book_manager.hpp:646-659 | one update of the vector in place does to the map cut at the horizon what an absolute quantity means: remove, replace, ignore beyond the horizon, or insert and trim; order kept |
| `PriceSide.Side.ApplyAll` | cpp/include/order_book_manager.hpp:664-668 | the updates of an event are applied in their order |
| `PriceSide.Side.TrimTo` | cpp/include/order_book_manager.hpp:621-626 | at most maxLevels levels stay, the best ones, and the side becomes bounded at the worst of them |
| `PriceSide.Side.LoadSnapshot` | cpp/include/order_book_manager.hpp:628-643 | a snapshot side becomes its positive levels, bounded at its worst price exactly when it came with snapshotLimit levels and is not empty, then trimmed |
| `PriceSide.Side.IsBelow` | cpp/include/order_book_manager.hpp:615 | true exactly when the side is bounded and knows fewer than n levels |
| `PriceSide.KeepPositive` | cpp/include/order_book_manager.hpp:632-634 | levels without a positive quantity are left out and the order is kept |
| `PriceSide.SortWorstToBest` | cpp/include/order_book_manager.hpp:635-638 | the result is sorted worst to best and holds the same prices and quantities |
| `Exchange.UpdateAgrees` | cpp/include/order_book_manager.hpp:646-659 | an update keeps a side equal to the exchange inside its horizon, whatever the exchange holds beyond it; the cap holds and the horizon only moves toward the touch |
| `Exchange.ChangeAgrees` | cpp/include/order_book_manager.hpp:664-668 | the levels of a faithful event take a side from agreeing with the market before to agreeing with the market after |
| `Exchange.LoadAgrees` | cpp/include/order_book_manager.hpp:628-643 | a side loaded from a faithful snapshot agrees with the market, also when the exchange cut it at snapshotLimit levels |
| `Exchange.TrimAgrees` | cpp/include/order_book_manager.hpp:621-626 | forgetting the worst levels keeps the agreement and moves the horizon in |
| `Exchange.KnownTopIsTop` | cpp/include/order_book_manager.hpp:270-277 | a side with at least depth known levels, or without a horizon, holds exactly the top depth levels of the whole exchange side |
| `Exchange.TopNListsTop` | cpp/include/order_book_manager.hpp:546-555 | the published rows of a side are its best levels in order, padded only when it has no further level |
| `Exchange.TopIsUnique` | cpp/include/order_book_manager.hpp:546-555 | there is only one correct list of the top n levels of a market side |
| `OrderBooks.OrderBook.constructor` | cpp/include/order_book_manager.hpp:202-237 | a new book is empty and waits; the low-water mark is capped at half the snapshot limit |
| `OrderBooks.OrderBook.Buffer` | cpp/include/order_book_manager.hpp:333-342 | the event is appended; beyond 1000 the oldest is dropped, counted and reported |
| `OrderBooks.OrderBook.StartRefresh` | cpp/include/order_book_manager.hpp:291-295 | a refresh is pending with an empty buffer and nothing else changes |
| `OrderBooks.OrderBook.AbandonRefresh` | cpp/include/order_book_manager.hpp:298-304 | a pending refresh is dropped with its buffer and counted; without one nothing changes |
| `OrderBooks.OrderBook.RefreshWanted` | cpp/include/order_book_manager.hpp:284-288 | true exactly for a valid book without a refresh in flight that is below the low-water mark on a side |
| `OrderBooks.OrderBook.ApplyLive` | cpp/include/order_book_manager.hpp:440-457 | an accepted event advances levels, update id, id range, times and the exhausted count of the live book |
| `OrderBooks.OrderBook.ApplyShadow` | cpp/include/order_book_manager.hpp:466-481 | a held refresh snapshot is left alone by a stale event, dropped and counted on a hole, and swapped in by the bridging event |
| `OrderBooks.OrderBook.PromoteBook` | cpp/include/order_book_manager.hpp:474-480 | the contents of the rebuilt book become the live book at the given update ids |
| `OrderBooks.OrderBook.ApplyEvent` | cpp/include/order_book_manager.hpp:423-483 | the whole event: refused outside syncing and valid, invalidates on a hole, otherwise live book, refresh buffer and held snapshot in this order |
| `OrderBooks.OrderBook.RebuildFromBuffer` | cpp/include/order_book_manager.hpp:738-749 | replaying the refresh buffer on a book under construction stops at the first hole and skips stale events |
| `OrderBooks.OrderBook.CompleteRefresh` | cpp/include/order_book_manager.hpp:730-780 | a refresh snapshot fails, swaps at its bridged id, swaps on the live chain when it is exactly the live state, or is held until its bridging event |
| `OrderBooks.OrderBook.SyncInitial` | cpp/include/order_book_manager.hpp:358-400 | the initial snapshot is loaded and the buffered events replayed until one fails |
| `OrderBooks.OrderBook.TakeSnapshot` | cpp/include/order_book_manager.hpp:378-404 | a snapshot finishes a pending refresh of a valid book, syncs a waiting book, and is ignored otherwise |
| `OrderBooks.OrderBook.ResetBook` | cpp/include/order_book_manager.hpp:486-500 | everything but the counters and the last published quote starts over |
| `OrderBooks.OrderBook.GetQuote` | cpp/include/order_book_manager.hpp:527-557 | valid exactly for a valid book that is not exhausted; levels, ids and times as the state says |
| `OrderBooks.OrderBook.NotePublished` | cpp/include/order_book_manager.hpp:577-582 | the quote is remembered and the id range closed |
| `BookAgreement.EventAgrees` | cpp/include/order_book_manager.hpp:707-728 | under either sequencing rule an accepted event covers the id the book is at, so it takes an agreeing book to its own final id |
| `BookAgreement.RebuildAgrees` | cpp/include/order_book_manager.hpp:730-749 | a book rebuilt from a snapshot and the buffered events agrees with the exchange at its own id, also after a hole |
| `BookAgreement.StepKeepsAgreement` | cpp/include/order_book_manager.hpp:423-483 | every operation of the book keeps live book and held snapshot equal to the exchange inside their horizons |
| `BookAgreement.RunKeepsAgreement` | cpp/include/order_book_manager.hpp:333-483 | the same after any sequence of operations fed faithful events and snapshots, with overflows, failed syncs, refreshes and resets in any order |
| `BookAgreement.ValidQuoteIsTop` | cpp/include/order_book_manager.hpp:527-557 | a quote with isValid shows exactly the best depth levels of both sides of the exchange at the update id it carries |
| `BookAgreement.EventMovesHorizonIn` | cpp/include/order_book_manager.hpp:646-659 | an event never moves a horizon away from the touch unless a refresh is swapped in |
| `BookQuotes.RunStays` | cpp/include/order_book_manager.hpp:646-659 | no run of a book ever stores a level without a quantity |
| `BookQuotes.InvalidQuoteIsEmptyIff` | cpp/include/order_book_manager.hpp:519-555 | over every run an invalid quote carries no levels if and only if the book is not syncing, or no levels are published, or it knows none |
| `BookQuotes.SyncingQuoteShowsLevels` | cpp/include/order_book_manager.hpp:541-555 | a concrete run: a book that has just loaded a snapshot has an invalid quote that shows its best level |
| `BookRefresh.RebuildEndsOnChain` | cpp/include/order_book_manager.hpp:738-749 | a replay that has bridged never fails, and it ends at the final id of the last buffered event |
| `BookRefresh.RefreshIsSeamless` | cpp/include/order_book_manager.hpp:730-780 | whatever the refresh snapshot, the book stays valid at the same update id; unless it was swapped in, levels and sequence did not change either |
| `BookRefresh.EventIsInvisible` | cpp/include/order_book_manager.hpp:423-483 | an event does to the visible ids of a refreshing book what it does to one that never refreshes |
| `BookRefresh.SwapKeepsLiveIdIff` | cpp/include/order_book_manager.hpp:466-481 | swapping a held snapshot leaves the published id where it is if and only if the market is futures or the bridging event does not end below the live id |
| `BookRefresh.LateSpotEventMovesBack` | cpp/include/order_book_manager.hpp:466-481 | a concrete spot run of faithful events and snapshots: a late event skipped by the live book bridges an older held snapshot and takes the book from id 10 back to 9, where it agrees with the exchange |
| `BookRefresh.RefreshIsInvisible` | cpp/include/order_book_manager.hpp:284-304 | every operation does to the visible ids what it would do to a book without background refreshes |
| `BookRefresh.RunRefinesLiveRun` | cpp/include/order_book_manager.hpp:284-304 | over whole runs the refreshing book refines the one that never refreshes |
| `SyncOutcomes.FirstEvent` | cpp/include/order_book_manager.hpp:707-728 | the verdict on the first event after a snapshot, from its ids: older and skipped, bridging and applied, or a hole |
| `SyncOutcomes.RebuildOutcome` | cpp/include/order_book_manager.hpp:738-749 | a snapshot replayed over any buffered events waits exactly when all are older, and fails exactly when the first that is not does not join it to the stream |
| `SyncOutcomes.InitialSync` | cpp/include/order_book_manager.hpp:378-404 | the first snapshot of a book, for any buffered events, told from their ids: when it waits, when it is valid and at which id, and when it fails |
| `SyncOutcomes.StreamSync` | cpp/include/order_book_manager.hpp:378-404 | for a buffer without holes: synced at its last id if and only if an event bridges the snapshot, waiting if and only if every event is older |
| `SyncOutcomes.ValidBookFollows` | cpp/include/order_book_manager.hpp:423-437 | a valid book refuses an event exactly when it leaves a hole; otherwise it stays valid and an event that is not late takes it to its own final id |
| `SyncOutcomes.WaitingBookBridges` | cpp/include/order_book_manager.hpp:707-728 | a book that waits skips older events, is made valid by the bridging one, and refuses a hole |
| `SyncOutcomes.RefreshOutcome` | cpp/include/order_book_manager.hpp:730-780 | a refresh snapshot, for any events buffered since: swapped in, held or given up, told from the ids |
| `SyncOutcomes.HeldSnapshot` | cpp/include/order_book_manager.hpp:466-481 | a held refresh snapshot is swapped in by the event that bridges it, given up at a hole and left alone by an older event |
| `BookLaws.BufferKeepsNewest` | cpp/include/order_book_manager.hpp:333-342 | the buffer holds the newest 1000 of the events buffered, in order, and counts those it has dropped |
| `BookLaws.MarkIsExact` | cpp/include/order_book_manager.hpp:454-456 | over every run a valid book is marked exhausted exactly while it cannot assure the published levels |
| `BookLaws.AppliedEvent` | cpp/include/order_book_manager.hpp:440-457 | an applied event gives the book its times and opens the id range of the next row; it is counted when it makes the book too shallow |
| `BookLaws.EventIsBuffered` | cpp/include/order_book_manager.hpp:459-463 | while a refresh is under way a copy of every event that is not refused is buffered |
| `BookLaws.SnapshotIsCounted` | cpp/include/order_book_manager.hpp:730-780 | a snapshot counts as a refresh exactly when it was swapped in as one, and as a failed one exactly when it was given up |
| `BookLaws.CancelledRefresh` | cpp/include/order_book_manager.hpp:298-304 | giving up a refresh ends it, drops its buffer and is counted; without one nothing happens |
| `BookLaws.QuoteCarries` | cpp/include/order_book_manager.hpp:527-541 | a quote carries the times of the book, and ids only if it is valid |
| `SnapshotRequests.BoundedQueue.Push` | cpp/include/snapshot_worker.hpp:69-80 | appends, drops the oldest when full, refuses after shutdown, and says which happened |
| `SnapshotRequests.BoundedQueue.TryPop` | cpp/include/snapshot_worker.hpp:93-99 | takes the oldest item if there is one |
| `SnapshotRequests.BoundedQueue.Drain` | cpp/include/snapshot_worker.hpp:102-107 | takes everything, in order |
| `SnapshotRequests.SnapshotWorker.Enqueue` | cpp/include/snapshot_worker.hpp:178-189 | hands out the next id even when an older request was dropped for it |
| `SnapshotRequests.SnapshotWorker.Take` | cpp/include/snapshot_worker.hpp:198-202 | the thread takes the oldest request, one at a time |
| `SnapshotRequests.SnapshotWorker.Deliver` | cpp/include/snapshot_worker.hpp:205-213 | the result carries the id of the request being fetched |
| `SnapshotRequests.RequestDesk.Request` | cpp/src/quote_feed_handler.cpp:501-518 | the symbol waits for exactly the id the worker handed out |
| `SnapshotRequests.RequestDesk.Expire` | cpp/src/quote_feed_handler.cpp:529-545 | exactly the requests older than 30 seconds are given up and made stale |
| `SnapshotRequests.RequestDesk.MarkStale` | cpp/src/quote_feed_handler.cpp:207-214 | exactly the requests in flight at a reconnect are made stale |
| `SnapshotRequests.RequestDesk.Collect` | cpp/src/quote_feed_handler.cpp:547-557 | of the drained results, those not older than the latest request of their symbol are kept, in order |
| `SnapshotRequests.CollectIsAcceptMoves` | cpp/src/quote_feed_handler.cpp:547-557 | draining and filtering the queue is the same as accepting its results one at a time |
| `SnapshotRequests.FreshIsLatest` | cpp/src/quote_feed_handler.cpp:552-557 | a result that passes the stale check answers the last request of its symbol, which was neither given up on nor answered before |
| `SnapshotRequests.EveryInterleavingIsSafe` | cpp/include/snapshot_worker.hpp:64-214 | over every interleaving of both threads with drop-oldest on both queues: each accepted result answers the latest request of its symbol, none twice, none that timed out or was in flight at a reconnect |
| `QuoteHandlers.QuoteHandler.OnEvent` | cpp/src/quote_feed_handler.cpp:434-499 | one depth event: buffer and request, apply and publish and refresh, mark a break and start over, or reset, with what the scheduler is asked and told |
| `QuoteHandlers.QuoteHandler.OnEarlyEvent` | cpp/src/quote_feed_handler.cpp:438-455 | the event is buffered, and a snapshot requested if none is and the scheduler grants it |
| `QuoteHandlers.QuoteHandler.OnLiveEvent` | cpp/src/quote_feed_handler.cpp:457-493 | an event for a syncing or valid book; the first valid one tells the scheduler of the sync |
| `QuoteHandlers.QuoteHandler.BreakSequence` | cpp/src/quote_feed_handler.cpp:459-476 | a break is counted, marked with one invalid row, and the book reset; one while syncing is a failure to the scheduler |
| `QuoteHandlers.QuoteHandler.PublishThenRefresh` | cpp/src/quote_feed_handler.cpp:483-492 | publish if the rule says so, then start a refresh when depth runs low and the scheduler grants it |
| `QuoteHandlers.QuoteHandler.ExpireOverdue` | cpp/src/quote_feed_handler.cpp:529-545 | an overdue request is given up, fails its refresh and is reported to the scheduler |
| `QuoteHandlers.QuoteHandler.OnResult` | cpp/src/quote_feed_handler.cpp:548-621 | a stale result changes nothing; a failure ends the request; a snapshot goes to the book; the scheduler is told of each |
| `QuoteHandlers.QuoteHandler.TellScheduler` | cpp/src/quote_feed_handler.cpp:578-619 | which outcomes count as a sync, which as a failure, and which as neither |
| `QuoteHandlers.QuoteHandler.OnResults` | cpp/src/quote_feed_handler.cpp:526-622 | timeouts first, then every drained result in order |
| `QuoteHandlers.QuoteHandler.PublishIfChanged` | cpp/src/quote_feed_handler.cpp:624-637 | a row number is used up only for a row that is published |
| `QuoteHandlers.QuoteHandler.PublishInvalidRow` | cpp/src/quote_feed_handler.cpp:639-652 | an invalid row without levels and ids is published and recorded |
| `QuoteHandlers.QuoteHandler.OnHeartbeat` | cpp/src/quote_feed_handler.cpp:737-750 | a valid book whose interval has passed repeats its quote; an exhausted one does not |
| `QuoteHandlers.QuoteHandler.OnReconnect` | cpp/src/quote_feed_handler.cpp:193-214 | a hole after a valid row is marked, the book reset and the request in flight made stale |
| `QuoteStream.EventContinues` | cpp/include/order_book_manager.hpp:440-452 | an accepted event extends the chain of update ids that starts at the last published row |
| `QuoteStream.StepKeepsStream` | cpp/src/quote_feed_handler.cpp:434-499 | every handler step keeps row numbers, links between valid rows, the pending id range and the link to the tickerplant consistent |
| `QuoteStream.ReconnectKeepsStream` | cpp/src/quote_feed_handler.cpp:193-214 | after a reconnect the last row is invalid or nothing valid was published: no chain is carried across |
| `QuoteRuns.NoUnmarkedBreak` | cpp/src/quote_feed_handler.cpp:187-214 | over every handler run two consecutive valid rows repeat the same ids or chain without a gap, rows are numbered without holes, and invalid rows carry no levels |
| `QuoteRuns.ValidRowsAreExact` | cpp/src/quote_feed_handler.cpp:624-637 | over every handler run each valid row ever published shows exactly the top levels of the exchange at its update id |
| `RowPromptness.RowsAreUpToDate` | cpp/src/quote_feed_handler.cpp:457-493 | whenever an event has left the book valid the last row shows the exchange's top levels at the book's own id if both sides are assured, and is invalid otherwise; a refused event has sent one invalid row |
| `RowPromptness.RepeatsAreDue` | cpp/include/order_book_manager.hpp:563-575 | a valid row that repeats the levels of the valid row before it appears only when a heartbeat was due, and a step sends at most one row |
| `RowPromptness.HeartbeatIsSent` | cpp/src/quote_feed_handler.cpp:737-750 | a heartbeat that is due sends a valid row with the exchange's top levels if both sides are assured |
| `RowPromptness.ReconnectMarks` | cpp/src/quote_feed_handler.cpp:193-214 | a reconnect sends one invalid row exactly when the last row is valid, and leaves an empty book |
| `HandlerLaws.LowDepthAsksRefresh` | cpp/src/quote_feed_handler.cpp:486-493 | an event that leaves the book valid asks for a refresh if and only if a side runs low, none is under way, and the scheduler grants it |
| `HandlerLaws.BreaksAreCounted` | cpp/src/quote_feed_handler.cpp:457-476 | a refused event is one resync, and a sequence gap if the book was valid; no other event is counted |
| `HandlerLaws.ResultsAreCounted` | cpp/src/quote_feed_handler.cpp:548-604 | a failed fetch is a snapshot failure, a first snapshot that does not join the stream a resync |
| `HandlerLaws.StepLink` | cpp/src/quote_feed_handler.cpp:624-652 | after a row the handler is connected, or stopped if the tickerplant could not be reached again |
| `HandlerLaws.KeepsRunning` | cpp/src/quote_feed_handler.cpp:624-652 | a handler runs on, connected, as long as it is not told to stop and every row finds the tickerplant |
| `SnapshotFlow.RequestIsGranted` | cpp/src/quote_feed_handler.cpp:451-455 | an event makes at most one snapshot request, exactly when the scheduler grants one, and then waits for it |
| `SnapshotFlow.PauseStopsRequests` | cpp/src/quote_feed_handler.cpp:451-455 | while a pause is on, no run of the handler requests a snapshot |
| `SnapshotFlow.RateLimitPauses` | cpp/src/quote_feed_handler.cpp:558-577 | a fetch answered with 429 or 418 starts a pause of the floor for that status or of Retry-After, whichever is longer |
| `SnapshotFlow.FlowKeeps` | cpp/src/quote_feed_handler.cpp:526-557 | the handler's request bookkeeping and the requests under way stay in step over both threads |
| `SnapshotFlow.OnlyFreshSnapshots` | cpp/src/quote_feed_handler.cpp:547-557 | over every interleaving of handler and fetching thread, with the requests and results of all other symbols in the same two queues, a result that reaches the book answers the last request of its symbol, which had not timed out, not been in flight at a reconnect and not been answered |
| `RequestAnswers.AcceptedIff` | cpp/src/quote_feed_handler.cpp:547-557 | over every interleaving a delivered result is let through if and only if it answers the last request of its symbol and that was not given up on |
| `RequestAnswers.GivenUpIff` | cpp/src/quote_feed_handler.cpp:529-545 | a poll gives up a request if and only if it is the last of its symbol, unanswered, and was made more than 30 seconds before |
| `RequestAnswers.QueuesAreBounded` | cpp/include/snapshot_worker.hpp:69-80 | over every interleaving neither queue holds more than its capacity |
| `RequestAnswers.RequestsArePushedOutWhenFull` | cpp/include/snapshot_worker.hpp:69-80 | a request pushes out another only when the queue is full, and then the oldest |
| `RequestAnswers.RequestsAreServed` | cpp/include/snapshot_worker.hpp:192-213 | the idle thread takes the oldest request, and what it fetches becomes the newest result |
| `RequestAnswers.AsksWhenFree` | cpp/src/quote_feed_handler.cpp:438-455 | an event that finds the book without a snapshot asks for one if and only if none is under way for it and the scheduler grants it; a request the book believes in is always pending |
| `RequestAnswers.PromptAnswerReachesBook` | cpp/src/quote_feed_handler.cpp:547-577 | over every interleaving a delivered answer to the last request reaches the book if the request is at most 30 seconds old, was not given up and not in flight at a reconnect |
| `RequestAnswers.OverdueRequestIsGivenUp` | cpp/src/quote_feed_handler.cpp:529-545 | a request pending for more than 30 seconds is given up at the poll, whatever comes with it, and the book may ask again |
| `SyncReports.SnapshotReports` | cpp/src/quote_feed_handler.cpp:578-619 | a snapshot is a failure to the scheduler exactly when there is a hole between it and the buffered events; one in use or held ends the delay of its symbol; a first one that waits for its bridge does neither |
| `SyncReports.LostAnswersDelay` | cpp/src/quote_feed_handler.cpp:558-577 | a fetch that failed is one more failure of the symbol, with its delay |
| `SyncReports.EventReports` | cpp/src/quote_feed_handler.cpp:457-483 | the event that bridges a waiting book ends the delay, a hole before the bridge is a failure, a break of a valid book is neither |
| `SyncReports.FailedSyncWaits` | cpp/src/quote_feed_handler.cpp:578-619 | after a first snapshot that does not join the stream the handler requests no other before the delay of its k-th failure is over |
| `SnapshotSchedulers.SnapshotScheduler.TryAcquire` | cpp/include/snapshot_scheduler.hpp:76-84 | granted exactly when no pause and no backoff is on and the refilled bucket holds the weight, which is then taken |
| `SnapshotSchedulers.SnapshotScheduler.RefillBucket` | cpp/include/snapshot_scheduler.hpp:130-135 | the bucket earns its budget per minute up to one budget; a clock that does not advance earns nothing |
| `SnapshotSchedulers.SnapshotScheduler.Backoff` | cpp/include/snapshot_scheduler.hpp:99-101 | doubling until the cap is passed and then capping gives min(initial * 2^(n-1), max) |
| `SnapshotSchedulers.SnapshotScheduler.OnFailure` | cpp/include/snapshot_scheduler.hpp:95-110 | the failure count, the delay with jitter, the pause on 429 and 418 and the used-weight pause |
| `SnapshotSchedulers.SnapshotScheduler.OnFetchOk` | cpp/include/snapshot_scheduler.hpp:140-144 | a reply that reports too much used weight pauses every symbol |
| `SnapshotSchedulers.SnapshotScheduler.Pause` | cpp/include/snapshot_scheduler.hpp:136-139 | a pause can be extended and never shortened |
| `SnapshotSchedulers.SnapshotScheduler.OnSynced` | cpp/include/snapshot_scheduler.hpp:113-116 | a sync forgets the failures and the delay of its symbol only |
| `SnapshotSchedulers.BucketBoundsWeight` | cpp/include/snapshot_scheduler.hpp:76-84 | from any state, the weight granted within a window is at most what the bucket holds and earns in it |
| `SnapshotSchedulers.SlidingWindowBound` | cpp/include/snapshot_scheduler.hpp:130-135 | over all symbols and any calls, the weight granted in any window is at most budget + budget * length / 60000, so at most two buckets in a minute |
| `SnapshotSchedulers.PauseLasts` | cpp/include/snapshot_scheduler.hpp:136-139 | no call sequence, with whatever times, grants anything before a pause is over |
| `SnapshotSchedulers.RateLimitStopsAll` | cpp/include/snapshot_scheduler.hpp:105-108 | after a 429 or 418 at time t nothing is granted to any symbol before t + floor, nor before t + 1000 * Retry-After |
| `SnapshotSchedulers.DelayWithinJitter` | cpp/include/snapshot_scheduler.hpp:99-103 | jitter only stretches a delay, by at most jitterFraction of it |
| `SnapshotSchedulers.GrantsAreDelayed` | cpp/include/snapshot_scheduler.hpp:95-110 | from any point of a losing streak, later grants are at least the remaining doubling delays away |
| `SnapshotSchedulers.StormBound` | cpp/include/snapshot_scheduler.hpp:95-110 | if every grant of a symbol fails and it never syncs, its N-th grant comes no earlier than the first plus the sum of the first N-1 delays |
| `ScheduleHistory.GrantedIff` | cpp/include/snapshot_scheduler.hpp:76-84 | over any calls: granted exactly when the bucket holds the weight, every pause of the history is over and so is the delay of the symbol's last failure since its last sync |
| `ScheduleHistory.PatienceIsRewarded` | cpp/include/snapshot_scheduler.hpp:76-84 | a request is granted if the budget of its weight has been earned since the last one was asked for and pauses and delay are over |
| `ScheduleHistory.DelayIsHistory` | cpp/include/snapshot_scheduler.hpp:95-116 | the k-th failure since the last sync delays by min(initial * 2^(k-1), max) and its jitter; a sync ends the delay |
| `ScheduleHistory.PauseIsHistory` | cpp/include/snapshot_scheduler.hpp:105-144 | the end of all pauses is the latest of those that 429, 418 and used weight have started |
| `ScheduleHistory.CountersAreHistory` | cpp/include/snapshot_scheduler.hpp:76-144 | the counters are the numbers of grants, failures and pauses |
| `TradeGaps.TradeIdTracker.OnId` | cpp/include/trade_gap.hpp:86-101 | first, in order, duplicate, late or gap exactly by comparison with the highest id so far, which is kept; the gap is exactly the ids in between |
| `TradeGaps.TradeIdTracker.Seed` | cpp/include/trade_gap.hpp:104 | the symbol continues from the given id |
| `TradeGaps.GapEventQueue.Push` | cpp/include/trade_gap.hpp:129 | the row is pending behind the others |
| `TradeGaps.GapEventQueue.Send` | cpp/include/trade_gap.hpp:134-144 | one row: acknowledged and rejected rows leave the queue and are counted, a lost connection keeps it |
| `TradeGaps.GapEventQueue.Flush` | cpp/include/trade_gap.hpp:134-144 | rows are sent oldest first until the queue is empty or the connection is lost |
| `TradeGaps.EventsAreDelivered` | cpp/include/trade_gap.hpp:121-144 | over every run: pushed = acked + rejected + pending, and the log without rejected rows and repeats is the settled rows in push order plus at most the head |
| `TradeGaps.AckedIsLogged` | cpp/include/trade_gap.hpp:121-144 | every acknowledged row is in the log |
| `TradeGaps.FlushSettles` | cpp/include/trade_gap.hpp:134-144 | a flush settles every pending row up to the one whose reply is lost, each as its reply says, and empties the queue exactly when none is lost |
| `TradeBackfills.TradeBackfill.AddGap` | cpp/include/trade_backfill.hpp:192 | the gap waits behind the others with its progress kept |
| `TradeBackfills.TradeBackfill.TakePage` | cpp/include/trade_backfill.hpp:284-323 | one finished page: too old, failed, empty, starting too late, useless or useful, each with its counters, backoff and events |
| `TradeBackfills.TradeBackfill.PublishUseful` | cpp/include/trade_backfill.hpp:308-313 | exactly the trades that continue the gap without a hole are published |
| `TradeBackfills.TradeBackfill.Fail` | cpp/include/trade_backfill.hpp:268-281 | a failed page backs off and gives the gap up after maxFailures in a row |
| `TradeBackfills.TradeBackfill.Finish` | cpp/include/trade_backfill.hpp:261-265 | one terminal event, the counter and the next gap |
| `TradeBackfills.TradeBackfill.OneTurn` | cpp/include/trade_backfill.hpp:203-244 | page, closing and request in this order; after a request the loop goes on only when pages are fetched inline |
| `TradeBackfills.TradeBackfill.Pump` | cpp/include/trade_backfill.hpp:202-245 | with the worker one call makes at most one request; inline at most budget / weight and no page stays unread; both end by themselves before the loop guard |
| `TradeBackfills.TurnSpends` | cpp/include/trade_backfill.hpp:202-245 | each turn after which the loop goes on uses up requests the bucket can still pay for |
| `TradeBackfills.WorkerTurn` | cpp/include/trade_backfill.hpp:241-243 | with the worker the loop goes on only after a turn without a request, and then has nothing to do before the next one |
| `TradeBackfills.TradeBackfill.CloseFinished` | cpp/include/trade_backfill.hpp:214-230 | every head gap that needs no request is closed, before any request is made |
| `TradeBackfills.TradeBackfill.Ask` | cpp/include/trade_backfill.hpp:232-242 | the next request, if none is in flight and the limits allow: the head gap from its next needed id |
| `BackfillProofs.UsefulIsConsecutive` | cpp/include/trade_backfill.hpp:308-313 | what a page contributes starts at the expected id, has no hole and stays within the gap, whatever the page holds |
| `BackfillProofs.FullPageIsUsed` | cpp/include/trade_backfill.hpp:308-313 | a page that serves every expected id in order is used completely |
| `BackfillProofs.PageIsLocal` | cpp/include/trade_backfill.hpp:284-323 | a page touches the head gap only, and what happens to it does not depend on the rest |
| `BackfillProofs.GapRowsAreExact` | cpp/include/trade_backfill.hpp:284-323 | against any pages the ids published for a gap are exactly the next needed ones in order, none twice, none past its end, and its progress fields match |
| `BackfillProofs.GapHistoryIsOrderly` | cpp/include/trade_backfill.hpp:314-322 | partial events with strictly growing counts, then one terminal event that says recovered exactly when every id was published |
| `GapHistories.EveryHistoryIsOrderly` | cpp/include/trade_backfill.hpp:214-230 | over every run each closed gap reported growing partial events and one terminal event, recovered if and only if the gap was one to be served and is covered; one above the cap, or any when the backfill is off, just that one event |
| `GapHistories.CoveredGapAboveTheCap` | cpp/include/trade_backfill.hpp:226-227 | a concrete run: a resumed gap above the cap is given up although every id is covered |
| `BackfillProofs.GapEnds` | cpp/include/trade_backfill.hpp:268-281 | whatever the replies, a gap is closed once (ids still needed, tries left) is used up, lexicographically |
| `BackfillProofs.NewGapEnds` | cpp/include/trade_backfill.hpp:268-281 | a new gap is closed after at most missing * maxFailures pages |
| `PumpEnds.ArrivalUsesUp` | cpp/include/trade_backfill.hpp:284-323 | every page, good or bad, uses up at least one of the pages that the queued gaps can take |
| `PumpEnds.RunEnds` | cpp/include/trade_backfill.hpp:268-323 | over every run the pages that arrived are at most the ids needed times maxFailures, summed over the added gaps, and when they are that many no queued gap needs another one |
| `PumpBackoff.RateLimitStopsPump` | cpp/include/trade_backfill.hpp:268-281 | over every run: after a page that failed with 429 or 418 no turn makes a request before the floor for that status, nor before Retry-After |
| `PumpBackoff.FailuresBackOff` | cpp/include/trade_backfill.hpp:268-281 | after the k-th page in a row that brought nothing the next request is not made before min(initial * 2^(k-1), max) |
| `PumpBackoff.FailuresBackOffForGood` | cpp/include/trade_backfill.hpp:268-281 | and no later one either, on a clock that does not go back |
| `BackfillProgress.PageIsUsedFully` | cpp/include/trade_backfill.hpp:308-313 | of a page in id order exactly those ids are used that follow the next needed one without a hole and are in the gap |
| `BackfillProgress.NeededPageIsUsed` | cpp/include/trade_backfill.hpp:284-323 | an ordered page that holds the next needed id is used |
| `BackfillProgress.GivenUpIff` | cpp/include/trade_backfill.hpp:268-281 | over every run: a page that brings nothing ends its gap if and only if it is the maxFailures-th in a row for that gap, one that is out of reach or begins past it at once, and the event says why |
| `BackfillProgress.TurnAsks` | cpp/include/trade_backfill.hpp:232-242 | a turn leaves a gap without a request under way only if the scheduler grants none now; a request is for the head gap from its next needed id |
| `BackfillProgress.CountersAreExact` | cpp/include/trade_backfill.hpp:261-281 | the counters are the numbers of pages that brought nothing and of gaps recovered and given up |
| `BackfillProgress.UsedWeightStopsPump` | cpp/include/trade_backfill.hpp:284-290 | after a page that reports too much used weight no turn makes a request before the pause is over |
| `PumpProofs.TurnKeeps` | cpp/include/trade_backfill.hpp:202-245 | one turn keeps the order, the accounts of published ids and the request discipline |
| `PumpProofs.RunIsDisciplined` | cpp/include/trade_backfill.hpp:202-245 | over every run gaps close first in first out, the published ids are exactly what the gaps have got, every request was for a gap that needs one and stays within it, and at most one is unanswered, for the head gap |
| `PumpProofs.RunKeepsBucket` | cpp/include/trade_backfill.hpp:202-245 | the bucket of the backfill never exceeds its budget |
| `PumpProofs.BucketAffords` | cpp/include/trade_backfill.hpp:232-242 | so in every run one call of the pump can pay for at most budget / weight requests |
| `TradeHandlers.TradeHandler.ValidateId` | cpp/src/trade_feed_handler.cpp:193-226 | the id is classified and counted; a gap is recorded as detected and handed to the backfill |
| `TradeHandlers.TradeHandler.OnTrade` | cpp/src/trade_feed_handler.cpp:385-439 | a live trade is checked and published in any case, under the next row number |
| `TradeHandlers.TradeHandler.Seed` | cpp/src/trade_feed_handler.cpp:97-100 | the symbol starts from what the tickerplant has logged |
| `TradeHandlers.TradeHandler.Resume` | cpp/src/trade_feed_handler.cpp:101-108 | a gap left open by an earlier run continues with its progress |
| `TradeHandlers.TradeHandler.PumpBackfill` | cpp/src/trade_feed_handler.cpp:236-278 | backfilled trades share the row numbers of the live ones, and every status event of the backfill is queued for the tickerplant, in order |
| `TradeCoverage.TradeKeepsFeed` | cpp/src/trade_feed_handler.cpp:193-226 | one trade, of any kind, keeps the account of ids |
| `TradeCoverage.EveryIdIsAccountedFor` | cpp/src/trade_feed_handler.cpp:193-226 | for any id stream, every id after the start of a symbol is a live new maximum or in exactly one gap, gaps are disjoint and increasing, and last - start = new maxima + missed |
| `TradeCoverage.IdsStartAtZero` | cpp/include/trade_gap.hpp:44-45 | ids from 0 give gaps that start at 1 or later, as the progress field needs |
| `TradeLossless.SessionGaps` | cpp/src/trade_feed_handler.cpp:207-222 | the backfill of a session gets exactly the detected and the resumed gaps |
| `TradeLossless.BackfilledIffInGap` | cpp/src/trade_feed_handler.cpp:236-278 | in a session whose gaps were all recovered, the backfilled ids after the start are exactly those in a gap |
| `TradeLossless.NothingLost` | cpp/src/trade_feed_handler.cpp:193-278 | in such a session every id after the start of a symbol was published, live or backfilled, and as a new maximum exactly if not backfilled |
| `TradeLossless.ExactlyOnce` | cpp/src/trade_feed_handler.cpp:193-278 | without duplicate and late ids each id after the start is published exactly once, also with resumed gaps that do not overlap and end before it |
| `TradeTimes.OncePlusRepeats` | cpp/src/trade_feed_handler.cpp:193-278 | in a session whose gaps were recovered each id after the start is published once, plus once for every live trade that was a duplicate or late with that id |
| `TradeTimes.ExactlyOnceIff` | cpp/src/trade_feed_handler.cpp:193-278 | each id after the start is published exactly once if and only if no live trade after the start was a duplicate or late |
| `TradeTimes.RepeatedTrade` | cpp/src/trade_feed_handler.cpp:193-278 | a concrete run: a duplicate is published again, so that its id goes out twice |
| `TpPublishers.ResendRing.Push` | cpp/include/tp_publisher.hpp:52-58 | the newest capacity rows are kept |
| `TpPublishers.TpPublisher.SendAfter` | cpp/include/tp_publisher.hpp:74-78 | the ring rows after a number are sent oldest first until a send fails |
| `TpPublishers.TpPublisher.ResendAfter` | cpp/include/tp_publisher.hpp:285-309 | what is resent, what is counted as no longer there, and when nothing is resent |
| `TpPublishers.TpPublisher.ConnectAndRegister` | cpp/include/tp_publisher.hpp:121-146 | attempts are made until one works, the handler is rejected or shutdown is requested |
| `TpPublishers.TpPublisher.PublishRow` | cpp/include/tp_publisher.hpp:155-168 | the row is in the ring before it is sent; a dead connection is repaired with the row included |
| `TpPublishers.TpPublisher.TryToConnect` | cpp/include/tp_publisher.hpp:121-146 | one attempt: refused, lost while registering, rejected, or registered and resent, each against a tickerplant that may have gone through any number of restarts and midnights; or a wait in which rows still arrive |
| `TpPublishers.TpPublisher.RegisterSession` | cpp/include/tp_publisher.hpp:261-283 | the answer is the tickerplant's; what had been published and logged by then is on record |
| `TpPublishers.TpPublisher.CallTickerplant` | cpp/include/tp_publisher.hpp:178-195 | an event row is answered, rejected, or finds the connection lost; the tickerplant reads it after everything sent before |
| `Tickerplants.Tickerplant.Update` | kdb/tick/tp.q:564-605 | a row is logged whatever its number, and is then the last of the day |
| `Tickerplants.Tickerplant.CheckSeq` | kdb/tick/tp.q:507-524 | the next number, a jump counted as missed, or out of order, with the high-water mark kept |
| `Tickerplants.Tickerplant.RotateAtMidnight` | kdb/tick/tp.q:807-813 | a new log, and the session file is written |
| `Tickerplants.Tickerplant.Restart` | kdb/tick/tp.q:683-689 | the count after a restart: the last row in the log of the day, whoever wrote it, and only without one the session file |
| `Tickerplants.Tickerplant.GoThrough` | kdb/tick/tp.q:423-428 | any sequence of restarts, saves and midnights, with what it leaves in memory, session file and log of the day |
| `Tickerplants.Tickerplant.RegisterSession` | kdb/tick/tp.q:452-504 | new, restarted or reconnecting session: the count gone on from, and the reply |
| `ResendSteps.RegisterKeeps` | kdb/tick/tp.q:470-503 | a registration moves the count to the reply, or past everything published if that is -1; a sane reply keeps the order and a true one the exact count |
| `ResendRuns.StepKeeps` | cpp/include/tp_publisher.hpp:121-168 | every step keeps ring, wire, log and counters consistent with the published rows, whatever the tickerplant answers |
| `ResendRuns.EveryRowIsCounted` | cpp/include/tp_publisher.hpp:8-20 | over every run, against any tickerplant: the log holds published rows only, count = logged + missed + skipped - out of order, missed is at most rowsUnresendable, and that is 0 if and only if the ring was as long as each answer heard asked for |
| `ResendRuns.LogIsOrderly` | cpp/include/tp_publisher.hpp:8-20 | over every run in which no answer is below what is logged or above what was published: the log is strictly increasing without duplicates, nothing is out of order, and it is the beginning of the published rows if and only if nothing was missed or skipped |
| `ResendRuns.NoRowIsLost` | cpp/include/tp_publisher.hpp:8-20 | if every answer is the last number logged for the session and the ring is as long as each answer heard asked for, nothing is missed, and while connected log and wire together are all published rows, the one whose send failed included |
| `ResendRuns.TrueReplyIff` | cpp/include/tp_publisher.hpp:285-309 | an answer is true (the last number logged, or negative with nothing to send again) if and only if, after the resend it asks for, the count is right and every row is logged or counted as missed |
| `ResendRuns.TrueAfterFateIff` | kdb/tick/tp.q:470-503 | the same condition on the count that the tickerplant goes on from after any restarts, saves and midnights: it has a number that it takes for this session's, and that is the last number logged; or it has none, and nothing is left to send again |
| `ResendRuns.TrueIffKnown` | kdb/tick/tp.q:423-428 | the same condition on what has happened: the answer is true if the number got through, where a restart takes it from a row of the session in the log of the day, from nowhere if the last row there is an earlier session's, and else from a session file that was kept and fresh; and only then, when there is something to send again |
| `ResendRuns.RowOfTheDayIsEnough` | kdb/tick/tp.q:683-689 | a session with a row in the log of the day is answered truly until midnight, whatever becomes of the session file and through any number of restarts |
| `ResendRuns.KeptFileIsEnough` | kdb/tick/tp.q:423-428 | any number of restarts and midnights is safe while the session file is kept and no unclean stop lasts past midnight, unless the last row of the day is an earlier session's |
| `ResendSteps.FateKeeps` | kdb/tick/tp.q:683-689 | no restart, save or midnight makes a number negative or takes an earlier session for this one, and the log of the day stays or is a new one |
| `ResendRuns.LostSessionFile` | cpp/include/tp_publisher.hpp:286 | a concrete run: the session file is lost, both published rows are neither logged nor counted, with a negative reply, or with one that is lost so that the next is not negative |
| `ResendRuns.NumberOfAnEarlierSession` | kdb/tick/tp.q:683-689 | a concrete run with all files kept: the reply is the number of an earlier session of the day, right after the restart, after a midnight, or after a second, clean restart; both published rows are neither logged nor counted |
| `ResendRuns.StaleSessionFile` | kdb/tick/tp.q:683-689 | a concrete run with all files kept: a stop across midnight leaves an old number in the session file, and a row is logged twice uncounted |
| `LinkLaws.RejectionEndsConnecting` | cpp/include/tp_publisher.hpp:121-146 | nothing is tried after a rejected registration |
| `LinkLaws.StoppedForGood` | cpp/include/tp_publisher.hpp:121-168 | a handler that has stopped never registers or sends another row |
| `LinkLaws.ConnectsAtLast` | cpp/include/tp_publisher.hpp:121-146 | a running handler without connection is connected with the first registration that is answered and whose connection lasts for the rows due, whatever came before it |
| `LinkLaws.ResendCounts` | cpp/include/tp_publisher.hpp:285-309 | a resend counts the rows it has put on the wire, once all are there |
| `LinkLaws.LostConnectionsAreCounted` | cpp/include/tp_publisher.hpp:155-195 | each connection found lost is counted once |
| `LinkLaws.CallComesAfterRows` | cpp/include/tp_publisher.hpp:178-195 | when an event or question is answered, every row sent before it is in the log; the connection is dropped exactly when no answer came |
| `RowClocks.Truncated` | cpp/include/row_clock.hpp:62 | division toward zero, as C++ divides |
| `RowClocks.StampRowTime` | cpp/include/row_clock.hpp:57-68 | corrected exactly when a usable event time is more than a positive threshold ahead; then the time is the event time and otherwise the receive time |
| `RowClocks.RowClock.NoteEvent` | cpp/include/row_clock.hpp:80-82 | a usable event time is remembered, another is not |
| `RowClocks.RowClock.StampRow` | cpp/include/row_clock.hpp:86-106 | the stamp, the edge and the episode bookkeeping of one row |
| `RowClocks.EpisodesAreExact` | cpp/include/row_clock.hpp:86-106 | over any rows and events the edges strictly alternate, each ended episode was reported with the count and the largest lag of its corrected rows, every corrected row is in one episode, and the clock is lagging exactly when every row since some corrected one was more than half the threshold behind |
| `RowClocks.EpisodesDescribeRows` | cpp/include/row_clock.hpp:86-106 | each reported episode, and the current one, has the number of its corrected rows and the largest of their lags |
| `RowClocks.RememberedEvent` | cpp/include/row_clock.hpp:80-82 | what is remembered is the latest usable event time of the whole history |
| `RowClocks.RowIsCorrectedIff` | cpp/include/row_clock.hpp:57-106 | the time of a row differs from its receive time exactly when the latest event time, and no earlier one, is more than the threshold ahead |

## Left out

- Several symbols: the book and the quote handler are modelled for one symbol; symbols share nothing but the row counter, the request queues (modelled in `SnapshotRequests` and `SnapshotFlow`) and the scheduler (modelled with all symbols, whose calls come in between).
- QuoteHandlers.QuoteHandler.OnEvent: whether a heartbeat is due and whether TP could not be reached again are inputs of the step.
- QuoteHandlers.QuoteHandler.Publish: publishing reconnects until it works or the handler stops; the resend behind it is proved in `ResendRuns` and not composed with the quote handler.
- TradeHandlers.TradeHandler.PumpBackfill: the events of one call of the pump are queued after it, not between its rows.
- SnapshotRequests.EveryInterleavingIsSafe: the clock is assumed to read a positive time when a request is made, because the program uses 0 for "no request".
- PriceSide.SortWorstToBest: the library sort is an insertion sort here; the order of equal prices does not arise because snapshot prices are distinct.
- OrderBooks.OrderBook.PromoteBook: moving a rebuilt book into the live one is a copy of its contents.
- TpPublishers.TpPublisher.ConnectAndRegister: how long it waits between attempts is left out; when the attempts end without a connection, shutdown was requested.
- Integer width: update ids, trade ids, times and counters are unbounded integers; their 64-bit wrap-around is out of reach in practice.
- Floating point: prices and quantities are integers, tokens and jitter are real numbers.
- JSON parsing and the skipping of malformed levels: events and snapshots arrive complete.
- WebSocket, TLS, REST transport, keepalive, sleeps, signals, logging and health messages.
- K objects, reference counts and the layout of rows.
- Tickerplants.Tickerplant.SaveSession: writing the session file succeeds; a full disk (`kdb/tick/tp.q:432-434`) is left out with all other failures of the file system.
- Tickerplants.Tickerplant.RegisterSession: one handler at a time publishes a table, so no other session registers while this one runs.
- Tickerplants.Tickerplant.CheckSeq: TP clears its counters at midnight and at a restart; here they are totals.
- TP beyond registration, restart, sequence check and log, WDB, configuration loading, path building, scripts and q utilities.
