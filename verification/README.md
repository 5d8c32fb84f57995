# Verification of the exchange

This project models the stock exchange server in Dafny and proves what its threads keep
together. It verifies with `dafny verify dfyconfig.toml` (Dafny 4.11).

## What is modelled

**From order to settlement.** A trade handler freezes money or shares and hands the order to
the log thread; the log thread writes its batch and routes the events; one book thread a ticker
matches them and publishes the fills of a batch at its end, cancels at once; the settlement
thread makes six updates a fill, four in the database and two in memory.

- `Orders`, `FlatBook` and `BookLaws` hold a reference book (two flat lists in priority order) and
  its laws. `Measures` and `Sums` weigh orders, events, fills and cancel records, so that one
  conservation lemma serves claims on assets, traded volume, identity of orders and well-formedness.
- `Replay` folds a stream of events over a book, and `Fills` proves every fill to be what two orders
  of the stream agreed to; `Wal` is the log and its projection to a ticker.
- `Accounts` and `Settlement` are the account operations and the six updates on values, with the
  64-bit and 32-bit conversions of the program written out.
- `Pipeline` is the step machine of all the threads. Queues whose order the program does not
  control (the log queue of many producers, both settlement queues) give up their elements in any
  order; each database and account update is a step of its own. `PipelineMoves`,
  `PipelineHistory`, `PipelineSettles` and `PipelineSafety` prove the invariant step by step and
  draw the results for all runs; `PipelineRanges` does so for the widths of everything computed, and
  `PipelineFills` for the limits of the two parties of each fill.
  `PipelineRuns` puts runs together from steps: `Startup` (the loading of the server) and
  `Overflow` (how sharp the supply limit is) build concrete runs with it, and `PipelineLoops`
  shows that a round of each loop of the program is a run.
- `OrderBooks` is the book as the program keeps it: price levels in order, lists of shared order
  objects whose quantities shrink in place, and a per-user index over the same objects. Every
  method is proved against the reference book. `UserManagers` and `Server` hold the account
  manager, settlement, book, engine and log loops and the handlers as classes; the contract of
  each loop names the same function as the run in `PipelineLoops`.
- `OrderIds` is the id generator, with `Words` for its shifting, masking and or-ing.

**The queues beneath.** `Semaphore` (the counting semaphore and the blocking queue over it),
`Dequeue` (optimistic claims and overcommitment) and `FreeList` (reference-counted stack) are
step machines with one atomic operation a step and any number of threads, for every
interleaving. `Elements` adds the blocks that hold the elements, are emptied by several
consumers and are used again. `BlockRing` and `BlockIndexes` are the circular index of blocks
with its shared entries, as a value and as classes.

**Two smaller refinements.** `Timers` (a heap with stale entries against a plain map of
deadlines) and `Framing` with `Connections` (packets on a byte stream, both ends).

## What was found

- `cancelOrder` takes a 32-bit id (include/OrderBook.hpp:123). A user can cancel a resting order by
  its own id exactly when the id is below 2^32 (`BookLaws.CancelReaches`), and the generator gives
  such ids only in the first 1024 milliseconds after its epoch
  (`OrderIds.CancelReachesOnlyEarlyOrders`, with an order in `OrderIds.CancelMissesLateOrder`).
- Admission multiplies and narrows unchecked (include/Handler.hpp:264-265, 274). A buy order freezes
  its cost exactly when the cost fits 64 bits signed, whatever its amount; a sell order freezes its
  amount exactly when that fits 32 bits signed (`PipelineSafety.AdmissionFreezesCost`,
  `AdmissionFreezesShares`). In any balanced state the accounts go on matching what is in flight
  exactly when the order is refused or fits so (`AdmissionKeepsAccounts`). A cost that wraps to -1
  and an amount that narrows to -1 are always admitted (`WrappedCostIsAdmitted`,
  `NarrowedAmountIsAdmitted`). Runs are taken over requests that fit.
- An order for a ticker without a book is dropped after freezing (include/MatchingEngine.hpp:33-36),
  and its assets stay frozen for good (`PipelineSafety.DroppedStaysFrozen`). With nothing in flight
  a frozen balance is zero exactly when every admitted order that claims any of the asset was for a
  ticker with a book (`PipelineSafety.FrozenIsInFlight`); `Startup.UnknownTickerKeepsMoney` is a
  run in which it is not.
- Users are loaded before tickers (src/server/main.cpp:122-123), so no holding is ever loaded. For
  requests that fit, a server started this way never makes a fill (`Startup.ServerNeverTrades`), and
  in general a ticker with a book can trade exactly when some of its shares were loaded
  (`Startup.TradesIffSharesLoaded`). A sell order of 2^32 - 1 shares does not fit, needs no holding,
  and trades even there (`Startup.OversizedSellTrades`). The results about settlement are proved
  for every start that loads part or all of the holdings.
- Between the two account updates of a fill the shares are in both accounts. Share counts fit
  their 32-bit fields in every reachable state exactly when no ticker's supply exceeds half of the
  range (`Overflow.SupplyLimitIsExact`).
- Bytes that arrive in the readiness event that also reports the end of the connection are never
  dispatched (src/server/main.cpp:43).

## Model

| member | source | states |
|---|---|---|
| PipelineSafety.FrozenIsInFlight | include/UserManager.hpp:167-227 | In every state of every run each frozen balance is exactly the claim of everything in flight: orders handed over, queued, logged, resting or dropped, fills not settled, cancels not unfrozen. Both balances are non-negative and fit their fields. With nothing in flight a balance is zero iff every admitted order that claims any of the asset is for a ticker with a book. |
| PipelineSafety.NothingIsCreated | include/SettlementProcessor.hpp:35-53 | At record boundaries all money together equals the deposits credited, and all shares of each ticker are what they were at the start; self-trades included. |
| PipelineSafety.DeductionsNeverRefused | include/SettlementProcessor.hpp:46-49 | Whatever the interleaving, the guarded database deduction that settlement makes next finds enough stored. |
| PipelineSafety.BookIsReplayOfLog | include/WALManager.hpp:42-79 | For each ticker, some prefix of its events in the written log, replayed one after another, gives its book; the fills published to settlement followed by those of the current batch are the replayed fills in order, and the cancel records queued are the replayed ones, for any batch sizes. |
| PipelineSafety.NothingIsSettledTwice | include/SettlementProcessor.hpp:31-67 | Every fill published and every cancel record queued is still on its queue or was taken off it for settlement, once. |
| PipelineSafety.NoLoadedSharesNoTrades | include/UserManager.hpp:119-125 | For requests that fit: if no share of a ticker is in memory at the start, no positive sell order and no fill of it ever exists. |
| PipelineSafety.DroppedStaysFrozen | include/MatchingEngine.hpp:30-36 | Only admitted orders for tickers without a book are dropped, and the claim of those dropped by some point is still frozen at every later point. |
| PipelineSafety.AdmissionFreezesCost | include/Handler.hpp:263-266 | An admitted buy order adds its cost to the frozen balance iff price times amount fits a signed 64-bit integer. |
| PipelineSafety.AdmissionFreezesShares | include/Handler.hpp:273-276 | An admitted sell order adds its amount to the frozen shares iff the amount fits a signed 32-bit integer. |
| PipelineSafety.AdmissionKeepsAccounts | include/Handler.hpp:254-282 | In any balanced state, after handling any order the frozen balances match what is in flight iff the order was refused, or its cost (buy) or amount (sell) fits. |
| PipelineSafety.WrappedCostIsAdmitted | include/Handler.hpp:263-266 | A buy of 2^32 - 1 shares at 2^32 + 1 is admitted on any account and moves one unit of money from frozen to available. |
| PipelineSafety.NarrowedAmountIsAdmitted | include/Handler.hpp:273-276 | A sell of 2^32 - 1 shares is admitted on any account and moves one share from frozen to available. |
| PipelineSafety.StepKeepsInv | include/OrderBookProcessor.hpp:32-64 | Every enabled step of every thread keeps the whole invariant: accounts, unique ids, sound records, valid books, totals, the mirror in the database, the log, and the whereabouts of orders, fills and cancel records. |
| PipelineSafety.RunKeepsInv | include/SettlementProcessor.hpp:31-73 | So the invariant holds in every state of every run. |
| PipelineSettles.DeductionsAccepted | src/server/UserRepositoryImpl.cpp:163-199 | The invariant implies that the buyer's stored cash covers the cost and the seller's stored shares cover the amount. |
| PipelineSettles.AdmitKeeps | include/Handler.hpp:254-282 | Freezing for an order and putting it in flight keep accounts, totals and mirror in balance. |
| PipelineSettles.StoreUpdateKeeps | include/SettlementProcessor.hpp:46-49 | Each of the four database updates of a fill keeps the balance between database and memory, up to the work in progress. |
| PipelineSettles.BuyerUpdateKeeps | include/UserManager.hpp:193-200 | The buyer's update releases exactly the buyer's claim and takes the money into transit. |
| PipelineSettles.SellerUpdateKeeps | include/UserManager.hpp:203-209 | The seller's update releases the seller's claim and ends the transit. |
| PipelineSettles.SettleCancelKeeps | include/SettlementProcessor.hpp:58-67 | Unfreezing a cancelled order gives back exactly what it still claimed. |
| PipelineSettles.CreditDepositKeeps | include/Handler.hpp:218-220 | The credit of a stored deposit keeps memory and database in step. |
| PipelineMoves.BookHandleMoves | include/OrderBookProcessor.hpp:38-57 | Handling one event in a book thread moves claims between book, results and cancel queue and loses none. |
| PipelineMoves.WalDispatchMoves | include/WALManager.hpp:73-79 | Routing an event moves its claim to the ticker's queue or to the dropped orders. |
| Overflow.SupplyLimitIsExact | include/UserManager.hpp:193-209 | Among supply limits that fit 32 bits signed: all balances of all reachable states fit their fields iff the limit is at most half the range. |
| Overflow.TooManyShares | include/UserManager.hpp:180-190 | Beyond the limit, a concrete run with a self-trade leads to a negative frozen share count. |
| Startup.BootIsInit | include/UserManager.hpp:76-131 | Loading balances and the holdings of known tickers gives a proper start of a run, with the rest of the stored holdings as fixed gap. |
| Startup.ServerNeverTrades | src/server/main.cpp:122-123 | Loaded in the program's order, no run of requests that fit ever queues or settles a fill. |
| Startup.TradesIffSharesLoaded | include/UserManager.hpp:119-125 | From any start, for requests that fit: a ticker with a book sees a fill in some run iff some of its shares were loaded. |
| Startup.OversizedSellTrades | include/Handler.hpp:273-276 | Loaded in the program's order, a run with a sell of 2^32 - 1 shares queues a fill. |
| Startup.UnknownTickerKeepsMoney | include/MatchingEngine.hpp:33-36 | From any start, a run in which a user orders an unknown ticker ends with nothing in flight and a coin frozen. |
| PipelineRanges.NothingLeavesItsType | include/UserManager.hpp:167-235 | In every state of every run, whatever step comes next, every product, sum, difference and conversion it makes is within its type. |
| PipelineRanges.CreditArrives | include/UserManager.hpp:230-235 | Past the bound on deposits: a credit arrives in full iff the balance it leads to fits its field. |
| PipelineLoops.SettlementRoundIsRun | include/SettlementProcessor.hpp:31-67 | Settling a batch of fills and then one of cancels is a run of the step machine. |
| PipelineLoops.BookRoundIsRun | include/OrderBookProcessor.hpp:35-65 | So is handling a batch of events: cancels are queued as they come, all fills at the end, the book is the fold. |
| PipelineLoops.LogRoundIsRun | include/WALManager.hpp:42-79 | So is logging a batch and routing its events: each queue grows by its projection. |
| PipelineLoops.TradeIsRun | include/Handler.hpp:254-283 | So is a trade request: frozen and queued, or refused. |
| PipelineLoops.CancelIsRun | include/Handler.hpp:533-535 | So is a cancel request: only queued for the log. |
| PipelineLoops.DepositIsRun | include/Handler.hpp:213-226 | So is a deposit: stored, then credited. |
| Replay.StreamConserves | include/OrderBook.hpp:21-146 | Over any stream with fresh ids the book stays valid and, for every order and every asset, what entered equals resting plus filled plus cancelled. |
| Replay.StreamCountsFills | include/OrderBook.hpp:34-54 | Fills, cancels and resting orders never outnumber the orders that came in. |
| Replay.HandleConserves | include/OrderBookProcessor.hpp:40-56 | One event keeps the book valid and moves its weight into book, fills and cancels exactly. |
| Fills.ProcessFillsAgree | include/OrderBook.hpp:35-45 | Each fill of an incoming order is what it and some resting order agreed to. |
| Fills.StreamFillsAgree | include/OrderBook.hpp:21-100 | Over any stream with fresh ids, each fill is what two of its orders agreed to, whatever was filled and cancelled between them: price, ids and users are theirs and both limits are kept. |
| PipelineFills.FillsRespectLimits | include/OrderBookProcessor.hpp:36-65 | In every run, each fill ever published to settlement is what two admitted orders agreed to: no buyer pays more and no seller gets less than its own limit. |
| Wal.LogIsLossless | include/WALManager.hpp:47-66 | Decoding the log records of any events gives back the events. |
| Wal.ProjectIsForTicker | include/MatchingEngine.hpp:30-43 | A ticker's projection holds exactly that ticker's events. |
| Settlement.AmountsExact | include/SettlementProcessor.hpp:42-44 | For a fill within bounds nothing wraps, the refund is not negative, and cost plus refund is what the buyer had frozen. |
| Settlement.CancelExact | include/SettlementProcessor.hpp:61-66 | The amount unfrozen for a cancelled order is its price times quantity, or its quantity, unwrapped. |
| Accounts.FreezeMoves | include/UserManager.hpp:167-190 | Freezing is refused iff the amount is not available, and otherwise moves exactly it within one account; every other asset is untouched. |
| Accounts.UnfreezeMoves | include/UserManager.hpp:212-227 | Unfreezing moves exactly the amount back. |
| Accounts.CommitBuyMoves | include/UserManager.hpp:193-200 | The buyer pays cost and refund out of frozen money and gains the refund and the shares, nothing else. |
| Accounts.CommitSellMoves | include/UserManager.hpp:203-209 | The seller gives frozen shares for money, nothing else. |
| Accounts.AddBalanceMoves | include/UserManager.hpp:230-235 | A credit adds to available money only. |
| Accounts.ConversionsWrap | include/Handler.hpp:264-274 | A converted value is the one in the range of its type that differs by whole turns of the word. |
| FlatBook.MatchIsPriorityAllocation | include/OrderBook.hpp:21-100 | Fills are the non-zero shares of an allocation by price then arrival, in that order, each as its two orders agreed: both ids, buyer and seller, the buyer's limit, and the resting order's price, which is within the incoming order's limit. The orders hit form a prefix, all but the last filled completely; whoever is behind keeps place and quantity. |
| FlatBook.MatchIsMaximal | include/OrderBook.hpp:23-57 | The traded quantity is the smaller of what is asked and all that rests within the incoming order's limit, and the incoming order is reduced by it. |
| FlatBook.RestIsSuffix | include/OrderBook.hpp:49-56 | What rests afterwards is a suffix of what rested before, up to the quantity of its first order. |
| FlatBook.RestDoesNotCross | include/OrderBook.hpp:25-26 | If the incoming order is not used up, every price left is beyond its limit. |
| FlatBook.InsertKeepsSide | include/OrderBook.hpp:58 | Joining the back of one's price level keeps the side sorted and well formed. |
| FlatBook.InsertPlace | include/OrderBook.hpp:58 | A remainder goes behind all orders at the same or a better price and in front of all at a worse one. |
| BookLaws.ProcessKeepsValid | include/OrderBook.hpp:105-116 | Processing a fresh order keeps the book valid: sorted sides, positive quantities, distinct ids, best bid strictly below best ask. |
| BookLaws.CancelKeepsValid | include/OrderBook.hpp:123-146 | So does every cancel request. |
| BookLaws.ProcessConserves | include/OrderBook.hpp:46-47 | Every claim of the incoming order and of the resting ones ends in the book or in the fills. |
| BookLaws.CancelConserves | include/OrderBook.hpp:130-145 | What a cancel takes out of the book, its record carries away. |
| BookLaws.CancelFinds | include/OrderBook.hpp:123-128 | A cancel succeeds iff the user rests an order under the id taken modulo 2^32, and returns such an order. |
| BookLaws.CancelReaches | include/OrderBook.hpp:123 | A user cancels a resting order by its own id iff the id fits 32 bits. |
| BookLaws.ProcessCountsFills | include/OrderBook.hpp:49-57 | One order makes at most one fill more than orders leave the book. |
| OrderBooks.OrderBook.ProcessOrder | include/OrderBook.hpp:105-116 | Records and book are those of the reference book, the index holds exactly the resting orders, and the book stays valid. |
| OrderBooks.OrderBook.MatchBuyOrder | include/OrderBook.hpp:21-59 | Matching in place against the asks refines the flat match; the rest joins the bids. |
| OrderBooks.OrderBook.MatchSellOrder | include/OrderBook.hpp:61-100 | The same against the bids. |
| OrderBooks.OrderBook.MatchLevels | include/OrderBook.hpp:22-57 | The loop over price levels completes the flat match, drops emptied levels and keeps the others in order. |
| OrderBooks.OrderBook.MatchLevel | include/OrderBook.hpp:30-54 | The loop over one level trades as the flat match of that level does and erases filled orders from list and index. |
| OrderBooks.OrderBook.HitFront | include/OrderBook.hpp:31-53 | One round: the front order trades, then leaves the level and the index iff it is used up. |
| OrderBooks.OrderBook.Fill | include/OrderBook.hpp:31-52 | One trade: every field of the record by the side of the incoming order, both quantities, and the index entry of an exhausted maker. |
| OrderBooks.OrderBook.Rest | include/OrderBook.hpp:58 | A remainder joins the back of its level, or opens a level in its place. |
| OrderBooks.OrderBook.CancelOrder | include/OrderBook.hpp:123-146 | A cancel by the low 32 bits of the id has exactly the effect on the reference book, and returns the order taken out. |
| OrderBooks.OrderBook.CancelBid | include/OrderBook.hpp:132-137 | The order leaves its level and the index; an emptied level leaves the map. |
| OrderBooks.OrderBook.CancelAsk | include/OrderBook.hpp:138-142 | The same on the other side. |
| OrderBooks.OrderBook.GetBestBidOffer | include/OrderBook.hpp:118-121 | Zero for an empty side; otherwise the best price of the side, converted to a signed 64-bit integer; the bid reported is below the ask reported iff both prices or neither are below 2^63. |
| OrderBooks.OrderBook.GetUserActiveOrder | include/OrderBook.hpp:148-157 | Exactly the user's resting orders, once each. |
| OrderBooks.PushBackIsInsert | include/OrderBook.hpp:58 | Appending to a price level is inserting behind all orders of the same or a better price. |
| OrderBooks.MatchConcat | include/OrderBook.hpp:23-57 | Matching level by level is matching the whole side. |
| UserManagers.UserManager.CreateUserAccount | include/UserManager.hpp:134-144 | A new account is empty; an existing one is left alone. |
| UserManagers.UserManager.TryFreezeBalance | include/UserManager.hpp:167-177 | Refines the freezing of money on values, refusal included, and touches one account. |
| UserManagers.UserManager.TryFreezeStock | include/UserManager.hpp:180-190 | The same for shares, with the entry that looking up a missing ticker inserts. |
| UserManagers.UserManager.CommitBuy | include/UserManager.hpp:193-200 | Refines the buyer's confirmation; an unknown user changes nothing. |
| UserManagers.UserManager.CommitSell | include/UserManager.hpp:203-209 | Refines the seller's confirmation. |
| UserManagers.UserManager.UnfreezeBalance | include/UserManager.hpp:212-218 | Refines the return of frozen money. |
| UserManagers.UserManager.UnfreezeStock | include/UserManager.hpp:221-227 | Refines the return of frozen shares. |
| UserManagers.UserManager.AddBalance | include/UserManager.hpp:230-235 | Refines the credit. |
| Server.Repository.DeductBalance | src/server/UserRepositoryImpl.cpp:163-199 | Deducts iff enough is stored, and reports whether a row was changed: a deduction of zero is none. |
| Server.Repository.DeductStockHolding | src/server/StockRepositoryImpl.cpp:146-185 | The same for a holding. |
| Server.Repository.UpdateStockHolding | src/server/StockRepositoryImpl.cpp:63-97 | Adds to a holding, or creates it. |
| Server.SettlementProcessor.SettleOne | include/SettlementProcessor.hpp:42-52 | One fill makes the six updates of the step machine in their order. |
| Server.SettlementProcessor.SettleMatches | include/SettlementProcessor.hpp:35-53 | A buffer of fills is settled one after another. |
| Server.SettlementProcessor.SettleCancelBatch | include/SettlementProcessor.hpp:58-67 | A buffer of cancels is unfrozen one after another. |
| Server.SettlementProcessor.ProcessRound | include/SettlementProcessor.hpp:31-67 | One round takes up to 1000 elements off the front of each queue and applies the fills first, then the cancels. |
| Server.OrderBookProcessor.HandleBatch | include/OrderBookProcessor.hpp:36-57 | Given fresh order ids, a batch is the sequential fold of its events; its cancel records are already queued, its fills only collected. |
| Server.OrderBookProcessor.ProcessBatch | include/OrderBookProcessor.hpp:35-65 | Given fresh order ids, at the end all fills of the batch are queued in order behind what was there. |
| Server.OrderBookProcessor.CancelInBook | include/OrderBookProcessor.hpp:43-54 | The cancel record describes what was left of the order taken out, if one was. |
| Server.MatchingEngine.Route | include/MatchingEngine.hpp:30-59 | An event joins its ticker's queue and no other; for an unknown ticker nothing changes. |
| Server.WALManager.BuildRecords | include/WALManager.hpp:47-66 | One record an event, in order, field by field: type 0 with the order's fields and side 0 or 1, or type 1 with id, ticker and user and zeros. |
| Server.WALManager.ProcessBatch | include/WALManager.hpp:42-79 | The batch is in the log, and every ticker's queue has grown by its projection of the batch. |
| Server.Handlers.Trade | include/Handler.hpp:254-283 | An order enters the log queue iff its assets could be frozen, and the status says which. |
| Server.Handlers.Deposit | include/Handler.hpp:213-226 | A positive amount is added to database and account; any other amount, or a database that cannot store it, changes nothing. |
| Server.Handlers.Cancel | include/Handler.hpp:533-535 | A cancel request is only queued. |
| OrderIds.OrderIdGenerator.Generate | include/OrderIdGenerator.hpp:31-40 | The id packs time, node and counter; the counter wraps at 2^32. |
| OrderIds.OrIsPlus | include/OrderIdGenerator.hpp:37-39 | On 64-bit words the or of the shifted fields is their sum, so the arithmetic form is the program's. |
| OrderIds.PackIsWord | include/OrderIdGenerator.hpp:37-39 | The arithmetic form is the program's word: elapsed milliseconds shifted by 22, node 1 shifted by 12 and the counter masked with 0xFFF, or-ed bit by bit. |
| OrderIds.PackFields | include/OrderIdGenerator.hpp:37-39 | Time modulo 2^42, node and low counter bits can be read back from an id. |
| OrderIds.SameId | include/OrderIdGenerator.hpp:37-39 | For all inputs two ids are equal iff times agree modulo 2^42 and counters modulo 4096. |
| OrderIds.IdsAreDistinct | include/OrderIdGenerator.hpp:31-40 | Over any run within the 42-bit window, across counter wraps, all ids are distinct iff no two calls of one millisecond have counters congruent modulo 4096. |
| OrderIds.IdsAreDistinctWhenClockIsMonotone | include/OrderIdGenerator.hpp:31-40 | With a clock that never runs back: distinct iff no millisecond serves more than 4096 calls. |
| OrderIds.CancelReachesOnlyEarlyOrders | include/OrderBook.hpp:123 | An order with a generated id can be cancelled by that id iff it was generated within 1024 milliseconds of the epoch. |
| OrderIds.CancelMissesLateOrder | include/OrderIdGenerator.hpp:31-40 | A valid book with an order, its id generated 1024 milliseconds after the epoch, that its owner cannot cancel. |
| Semaphore.PermitsAreConserved | include/lightweightsemaphore.h:290-430 | For any number of threads, timeouts included: granted plus positive count plus kernel tokens plus releases to be posted equals initial plus signalled; registered waiters equal the negative part of the count plus tokens plus releases. |
| Semaphore.StepBalances | include/lightweightsemaphore.h:296-359 | Each atomic operation moves as much between the counters as between the threads. |
| Semaphore.GrantsAtMostWanted | include/lightweightsemaphore.h:391-412 | However a call goes, it ends with no more permits than asked for. |
| Semaphore.TakesWhatIsThere | include/lightweightsemaphore.h:391-402 | A successful exchange, in any state of the others, grants exactly the smaller of the count and what is asked for. |
| Semaphore.UndisturbedTry | include/lightweightsemaphore.h:369-402 | Undisturbed, a try gets the smaller of what is there and what it asks for; `tryWait` succeeds iff the count is positive. |
| Semaphore.UndisturbedRest | include/lightweightsemaphore.h:357-359 | With one permit from the wait, a call for more takes what else is there. |
| Semaphore.UndisturbedBlocking | include/lightweightsemaphore.h:326-342 | A waiting call sleeps, counted as a waiter, iff nothing is there. |
| Semaphore.UndisturbedCorrection | include/lightweightsemaphore.h:316-323 | After a failed wait a thread takes itself off a negative count, or takes the release meant for it. |
| Semaphore.FailedWaitCorrects | include/lightweightsemaphore.h:304-323 | A wait that times out ends with the count restored if nobody signalled. |
| Semaphore.UndisturbedSignal | include/lightweightsemaphore.h:421-430 | A signal adds its permits to the count and posts as many releases as there are waiters, up to its permits. |
| Semaphore.GivesUpOnlyOnNothing | include/lightweightsemaphore.h:290-402 | However the others interfere, a call ends with nothing only if it read a count without permits, asked for none, or took back a failed wait. |
| Semaphore.FailedExchangeGoesOn | include/lightweightsemaphore.h:369-377 | A failed exchange changes nothing, and the call goes on with the count there is now. |
| Semaphore.OwedItemsArePresent | include/blockingconcurrentqueue.h:331-340 | Whatever is owed to consumers that hold permits is in the inner queue, so no retry loop waits on an empty queue. |
| Semaphore.NoLostWakeUp | include/lightweightsemaphore.h:421-430 | While a thread waits and no release is under way, all permits are granted and every item is owed to someone or not yet signalled. |
| Semaphore.CorrectionEnds | include/lightweightsemaphore.h:316-323 | A thread that corrects the count after a timeout and finds it non-negative has a token coming. |
| Semaphore.ReleasesAreForWaiters | include/lightweightsemaphore.h:425-428 | A signal posts no more releases than there are waiting threads, so narrowing the number loses nothing. |
| Dequeue.HeadWithinTail | include/concurrentqueue.h:2557-2626 | For any consumers, single or bulk, in any interleaving, the head never passes the tail. |
| Dequeue.IndicesGivenOnce | include/concurrentqueue.h:2806-2808 | Every index below the head was given to exactly one dequeue, no other index to any. |
| Dequeue.FirstInFirstOut | include/concurrentqueue.h:2557-2568 | In index order the elements at the indices given out are the first ones enqueued, each once; that they are what is read is `Elements.ReadsAreRight`. |
| Dequeue.UndisturbedDequeue | include/concurrentqueue.h:2787-2886 | With no claim open, a dequeue that runs undisturbed gets exactly what is there, up to what it asked for. |
| Dequeue.AloneDequeue | include/concurrentqueue.h:2787-2886 | With any claims of others open, it gets all that is there and not claimed, up to what it asked for. |
| Dequeue.ClaimedDequeue | include/concurrentqueue.h:2800-2808 | A dequeue that holds a claim, in any state of the others, takes exactly what is there for its claim and gives the rest back. |
| Dequeue.DecisionStands | include/concurrentqueue.h:2800-2808 | In any interleaving, the number decided by the tail seen after the claim is the number granted in the end. |
| Dequeue.StepKeepsInv | include/concurrentqueue.h:2561-2622 | Every load and fetch-and-add keeps the account of claimed, given and returned slots. |
| Dequeue.CircularLessIsPositive | include/concurrentqueue.h:484-490 | The comparison of wrapped words depends on their difference only, so the single dequeue is the bulk one for one element. |
| Dequeue.ComparisonIsExact | include/concurrentqueue.h:484-490 | Within one turn the wrapped comparison is right iff the distance is in the half-open range of plus or minus 2^63. |
| Dequeue.SmallSpreadIsNear | include/concurrentqueue.h:2563-2568 | Queue length, open claims and what others did since the reads, below 2^63 together, keep every comparison in that range. |
| Dequeue.WordsFollowNumbers | include/concurrentqueue.h:2787-2886 | Under that bound the machine on 64-bit words goes through the run on unbounded numbers, modulo 2^64, however often it wraps. |
| Elements.GrantedStaysLive | include/concurrentqueue.h:2571-2614 | In every interleaving, an index that was given out and not yet counted as moved out has its block in the index, with its element in it. |
| Elements.ReadsAreRight | include/concurrentqueue.h:2571-2602 | What was read under an index is the element enqueued there, however blocks were emptied and used again. |
| Elements.ConstructIsSafe | include/concurrentqueue.h:2544-2553 | The block for the next element is in the index, and constructing there overwrites no element in use. |
| Elements.ReleasedWhenEmpty | include/concurrentqueue.h:1604-1618 | A block in the index counts at most 32 elements, and is up for release iff all 32 were moved out. |
| Elements.GivingUpRestores | include/concurrentqueue.h:2675-2681 | A block put in for an insertion that is given up is taken out again and the index is as before. |
| Elements.RunKeepsInv | include/concurrentqueue.h:2498-2614 | Opening, constructing, publishing, giving up, dequeuing, reading, counting and releasing keep the account of blocks and cells. |
| FreeList.NextPointerIsRight | include/concurrentqueue.h:1496-1504 | When the swap of the head succeeds, the node is the top and the next pointer read before is still the second node. |
| FreeList.LinkedOnce | include/concurrentqueue.h:1534-1544 | A node about to be linked is not on the list, and no node is on it twice. |
| FreeList.OneResponsible | include/concurrentqueue.h:1523-1544 | No two threads are ever given, or entrusted with linking, the same node. |
| FreeList.HandOutsAlternate | include/concurrentqueue.h:1466-1517 | Each node's returns and hand-outs alternate. |
| FreeList.TakenNodeIsUnflagged | include/concurrentqueue.h:1500 | The assertion of the program: a node just taken has its flag clear. |
| FreeList.NoNodeIsLost | include/concurrentqueue.h:1510-1513 | When no thread is at work every node is with a client or on the list. |
| FreeList.AloneTryGet | include/concurrentqueue.h:1480-1517 | Undisturbed, `try_get` hands out the top of the list, and nothing only if the list is empty. |
| FreeList.NothingMeansEmpty | include/concurrentqueue.h:1480-1517 | In any interleaving, `try_get` ends with nothing only if the list was empty at some point of that call. |
| FreeList.AloneAdd | include/concurrentqueue.h:1466-1479 | Undisturbed, `add` puts an unreferenced node on top; a referenced one is left to its last reference. |
| FreeList.AloneDrop | include/concurrentqueue.h:1510-1513 | Whoever drops the last reference to a node to be listed puts it on top of the list. |
| FreeList.AloneLinks | include/concurrentqueue.h:1534-1544 | A thread entrusted with linking a node, undisturbed, makes it the top of the list with the old top behind it. |
| FreeList.RunKeepsInv | include/concurrentqueue.h:1457-1545 | In every state the reference word is the flag plus the list's plus the temporary references, and the list hangs together. |
| BlockRing.LocateFinds | include/concurrentqueue.h:2955-2971 | Wherever the tail stands and however the index wrapped, the signed-offset lookup ends in the slot that holds the block's base. |
| BlockRing.LiveIsFound | include/concurrentqueue.h:2948-2953 | Every live block is found with its pointer. |
| BlockRing.InsertOk | include/concurrentqueue.h:2914-2922 | Inserting the next base into a reusable slot keeps the ring in order and adds one block. |
| BlockRing.DoubleOk | include/concurrentqueue.h:2973-3015 | A ring without a reusable slot is full; doubling it keeps every block where a lookup finds it. |
| BlockIndexes.BlockIndex.NewBlock | include/concurrentqueue.h:2498-2540 | A block is added to the plain map of live blocks, in a doubled index if need be; without memory or block the map is unchanged; no live block changes its entry. |
| BlockIndexes.BlockIndex.NewBlockIndex | include/concurrentqueue.h:2973-3015 | The larger index shares all entries of the old one. |
| BlockIndexes.BlockIndex.EntryForIndex | include/concurrentqueue.h:2948-2971 | The entry of the slot that the lookup computes, in the current or in a replaced index. |
| BlockIndexes.BlockIndex.Find | include/concurrentqueue.h:2571-2575 | Every live block is found, after any sequence of insertions, rewinds, reuse and doubling. |
| BlockIndexes.BlockIndex.FindThrough | include/concurrentqueue.h:2812-2820 | A consumer that still holds a replaced index finds the same block through it. |
| BlockIndexes.BlockIndex.Release | include/concurrentqueue.h:2606-2614 | Emptying a block removes it from the map and frees its entry. |
| BlockIndexes.BlockIndex.RevertBulk | include/concurrentqueue.h:2675-2681 | Undoing a failed bulk insertion removes exactly its blocks. |
| Timers.TimerManager.HandleTimeouts | include/TimerManager.hpp:42-60 | A pass closes exactly the live descriptors that are due, once each, earliest deadline first, and leaves the others. |
| Timers.TimerManager.AddTimer | include/TimerManager.hpp:34-40 | Adding or refreshing sets the latest deadline. |
| Timers.TimerManager.CancelTimer | include/TimerManager.hpp:63-66 | Cancelling removes the deadline, whatever stays in the heap. |
| Timers.TimerManager.Lookup | include/TimerManager.hpp:51 | Reading the table may insert a default entry, which no live timer is confused with. |
| Timers.LiveIsLatest | include/TimerManager.hpp:34-66 | For any history: a timer is live iff some call set it and no later call replaced, cancelled or closed it. |
| Timers.ClosedAtMostOncePerTimer | include/TimerManager.hpp:42-60 | Over any history with reuse, a descriptor is closed at most as often as it was set. |
| Framing.ParseIsExact | src/server/main.cpp:56-64 | Packets and tail together are the stream, and the tail holds no whole packet. |
| Framing.ParseIsUnique | src/client/client.cpp:86-97 | Parsing encoded packets and an unfinished tail gives back exactly these. |
| Framing.ParseResumes | src/server/main.cpp:50-109 | Parsing the kept tail with later bytes continues the parse of the whole. |
| Framing.ClientReceives | src/client/client.cpp:99-115 | A client receives the packets sent to it up to the first that exceeds its limit. |
| Framing.ConversationArrives | src/server/main.cpp:80-88 | Within the client's limits every request is dispatched and every reply that is not empty arrives, in order. |
| Framing.EachAnswerArrives | src/server/main.cpp:79-88 | As many packets arrive as requests got an answer that is not empty, and each such answer arrives in its place, under the type after its request's, modulo 2^16. |
| Framing.NetworkOrder | src/client/client.cpp:86-94 | On the wire the length comes first, in 32 bits, then the type in 16, most significant byte first. |
| Connections.Session.ProcessBuffer | src/server/main.cpp:52-109 | The loop dispatches the packets of the buffer in order, sends their replies and keeps the unfinished tail. |
| Connections.Session.OnReadable | src/server/main.cpp:33-50 | What an event delivers is added to the stream if the connection still stands, and dropped otherwise. |
| Connections.ServeConnection | src/server/main.cpp:25-112 | For any stream and any cutting of it into receives and events, with interruptions anywhere, packets dispatched, tail kept and replies sent are those of that very stream. |
| Connections.BytesFollow | src/server/main.cpp:33-44 | What an event delivers is its receives one after another; an interruption delivers nothing and loses nothing. |
| Connections.CutIsDelivered | src/server/main.cpp:33-50 | Events that cut a stream in whatever way deliver the stream. |
| Connections.NothingAfterTheEnd | src/server/main.cpp:41-43 | The event that ends the connection delivers nothing, nor does anything behind it. |
| Connections.Client.SendPkt | src/client/client.cpp:86-97 | A successful send has written exactly the encoded packet. |
| Connections.Client.RecvPkt | src/client/client.cpp:99-115 | Succeeds iff a whole packet within the limit is there, and consumes exactly it. |
| Connections.Client.RecvAll | src/client/client.cpp:75-84 | Succeeds iff enough bytes come, however they are chunked. |

## Left out

- Sockets, epoll, thread pool, session table, connection pools, logger, market data publishing: input and output only. The database is a store that only a deposit may find out of reach.
- Weak memory orderings: each atomic operation is one sequentially consistent step.
- Explicit producers, tokens, the table of implicit producers, moving and swapping, exception recovery and alignment in the queue.
- The fullness test of the producer against the head, and the producer's own pointer to its block: `Elements` constructs in the block the index holds for the position.
- Shutdown: the log and book loops stop without draining; only running systems are modelled.
- Queries of a book by other threads while it changes: queries happen between events.
- Registration during a run, login and sessions: the set of accounts is fixed, users are named by their id, user names are taken to be unique.
- Timestamps of orders and records, and the copy of the fills sent to market data.
- The engine drops the ticker from cancel events it passes on (include/MatchingEngine.hpp:53-57); the book never reads it, and the model keeps it.
- The settlement buffers: `Pipeline` takes fills and cancels singly from their queues in any order, which includes every order of the batch loop in `Server`.
- Server.SettlementProcessor.SettleOne: the account locks and the 256 lock buckets are not modelled; each account operation is one step.
- Server.Repository.DeductBalance: database columns are unbounded.
- Server.OrderBookProcessor.HandleBatch: requires fresh order ids, which `OrderIds` and the invariant of `Pipeline` provide; order objects are made when their event is handled, not by the handler.
- PipelineSafety.FrozenIsInFlight: requests are taken to keep a buy's cost and a sell's amount within their types and deposits within the range of the total, supplies within half of the range; `PipelineSafety.AdmissionKeepsAccounts`, `PipelineRanges.CreditArrives` and `Overflow.SupplyLimitIsExact` say what happens otherwise.
- Startup.ServerNeverTrades: for requests that fit; `Startup.OversizedSellTrades` is the run that needs them to.
- Elements.ReadsAreRight: an exception while an element is moved out is not modelled, and a bulk dequeue counts its elements one at a time.
- Startup.BootIsInit: assumes stored balances are not negative.
- Semaphore.PermitsAreConserved: the width of the count is not modelled; timeouts and failures of the kernel wait may happen at any time.
- Dequeue.WordsFollowNumbers: asks that the counted spread stays below half a turn, since a consumer that sleeps through half a turn would misjudge the queue.
- FreeList.RunKeepsInv: asks for fewer than 2^31 - 1 threads, so that the temporary references fit beside the flag.
- BlockIndexes.BlockIndex.NewBlock: an index that failed to be allocated in the constructor is not modelled, and an index of more than 2^59 slots counts as no memory.
- Timers.TimerManager.AddTimer: deadlines are taken to differ from the default time point; the callback only records descriptors.
- Connections.Session.OnReadable: sending a reply is taken to succeed, and the router's replies depend on the packets of this session only.
- Connections.Client.RecvPkt: a receive timeout looks like the end of the stream.
- Market data, news, trend, login and registration handlers, the agent and the benchmark: no hard property.
