# Verified model of the exchange core

This project models the matching engine of the exchange together with its balance ledger, the read model that is
projected from the engine's execution stream, snapshot recovery, and the gateway's rate limiter, and proves what
they promise.

There are two layers.

* **Specifications** are pure functions on values. A side of a book is the queue of its orders, best price first and
  then by arrival. Matching consumes a prefix of the opposite queue (`Matching`, `Queues`, `Books`); the ledger maps a
  user and a currency to an available and a locked amount (`Ledger`); a command takes the engine from one state to the
  next and emits events (`Engine`). The theorems about single orders, about every run, about the read model, about
  recovery and about machine arithmetic are proved on this layer (`Claims`, `Solvency`, `Runs`, `Conservation`,
  `Rounding`, `Resting`, `Effects`, `Projection`, `OrderRows`, `Recovery`, `Emission`, `Overflow`, `Arithmetic`,
  `Quotes`).
* **Classes** mirror the code that updates state in place: `Orderbooks.Orderbook` with its sorted levels of order ids
  and its order map, `EngineStates.EngineState` with its handlers, `Workers.Worker`, `Recovery.SnapshotTable`,
  `Recovery.Runner` and `RateLimits.RateLimiter`. Every method states its whole new state by the specification
  function it refines. `Levels` and `Indexes` carry the proofs that each edit of levels and order map is the intended
  edit of the queues, and that the queues determine levels and map; `Laws` runs operations one after the other and
  states what becomes of the levels and the map themselves.

The reasoning runs as follows. Every accepted order, of whatever type, is one *settlement*: it locks an amount, executes
against the opposite queue, settles the trades one by one and refunds the excess; `Solvency.Balanced` says that the
lock is spent, refunded or kept without loss. Resting orders have *claims* on the locked funds of their owners; each
execution releases as many claims as its makers pay for, up to one unit of fee rounding per partially filled bid. From
this follow solvency, the coverage of half-applied batches of trades, the bound on the rounding slack and conservation.

Amounts are unbounded naturals; `Overflow` and `Arithmetic` show separately when 64 bits suffice. Ledger amounts are
integers in the specification, so that "nothing goes below zero" is a theorem; the classes take funds out only through
methods whose precondition is that they are there.

Six promised properties do not hold unconditionally, and are stated with their exact conditions:

* USD is conserved over every run, and the USD rows of the ledger table sum to zero, exactly when no fee rate is above
  100% (`Conservation.RunsConserveExactlyWhen`, `Conservation.LedgerBalancesExactlyWhen`). Otherwise the saturating
  subtraction in `apply_fill` creates money in a run of four commands: a deposit, an onramp, and two orders that meet.
  For any rates, the supply is accounted for by `Runs.SupplyIsAccountedFor`.
* Locked USD is what the resting bids need over every run exactly when the maker rate is a whole multiple of 100%, so
  that its fee never rounds (`Rounding.LocksAreExactExactlyWhen`). Otherwise a bid that is filled in two parts leaves a
  unit locked that belongs to no order. For any rates, `Runs.LockedUsdIsTight` bounds the excess.
* A projection worker that cannot read its checkpoint when it starts falls back to the beginning of the stream. Whatever
  happens then, its ledger table is right exactly when none of the records committed before had ledger rows
  (`Workers.RestartIsSafeExactlyWhen`). The first event an exchange publishes always has ledger rows, so on its stream
  the fallback is harmless exactly while nothing has been committed (`Workers.FallbackIsHarmlessExactlyWhen`).
* After a crash the engine emits nothing twice exactly when it can replay the log, or its snapshot is no older than the
  last command it emitted for (`Emission.RecoveryRepeatsNothingExactlyWhen`). Without replay it dispatches live what it
  had dispatched live before.
* With fee rates up to 100%, if all that is funded fits in 64 bits and every limit order's cost does so on the fee
  scale, then each command is computed without overflow exactly when, for a market buy, its quote and the fee on it fit
  too (`Arithmetic.NothingOverflows`). The code computes the quote before it looks at the buyer's funds, and for every
  fee schedule there is a run in which it does not fit (`Quotes.QuotesCanOverflow`).
* The rate limiter keeps its bound exactly when neither capacity nor rate is negative and either it never allows
  anything or an hour refills a bucket completely (`RateLimits.BoundedExactlyWhen`). The repository's own
  configurations satisfy this.

Assumptions: the fee schedule is constant; order ids given to a book are at least its next id, which the engine's own
counter guarantees; the log is free of resets where a theorem says so. Self-trades and trading by user 0 are covered.

Where code and documentation disagree the model follows the code: `ARCHITECTURE.md` describes a final snapshot on
shutdown and loading the latest snapshot by creation time; the code takes no snapshot on shutdown and loads the row
with the highest id.

Run `dafny verify dfyconfig.toml` in this directory to check everything.

## Model

| member | source | states |
|---|---|---|
| Matching.ConsumeIsPriceTime | rs-engine/src/orderbook/book.rs:184-279 | matching meets the client's definition of price-time priority: makers are a prefix of the queue within the limit, all but the last filled completely, the rest is the suffix in the same order, and quantity is left only if queue or limit is exhausted |
| Matching.PriceTimeIsUnique | rs-engine/src/orderbook/book.rs:184-279 | that definition allows exactly one outcome, so any matcher meeting it is this one |
| Queues.InsertPosition | rs-engine/src/orderbook/book.rs:282-300 | a resting order comes to stand behind everything priced at least as well and before everything priced worse |
| Queues.InsertKeepsQueue | rs-engine/src/orderbook/book.rs:282-300 | resting a newer order keeps strict price-time order with every id once |
| Queues.ConsumeKeepsQueue | rs-engine/src/orderbook/book.rs:184-279 | executing keeps strict price-time order |
| Queues.RemoveKeepsQueue | rs-engine/src/orderbook/book.rs:490-526 | cancelling keeps strict price-time order |
| Queues.FindConsume | rs-engine/src/orderbook/book.rs:202-278 | an execution changes nothing but the remaining quantity of its makers, which only shrinks |
| Books.PlacingKeepsWellFormed | rs-engine/src/orderbook/book.rs:162-312 | a limit order of any type keeps both queues ordered, ids unique and the book uncrossed, and advances the id counter past its id |
| Books.ConsumedBookIsWellFormed | rs-engine/src/orderbook/book.rs:374-488 | so does a market order |
| Books.CancellingKeepsWellFormed | rs-engine/src/orderbook/book.rs:490-526 | so does a cancel |
| Books.LookupIsSound | rs-engine/src/orderbook/book.rs:60-62 | an order found by id rests on its own side and no other, with quantity left |
| Books.FillOrKillIsAllOrNothing | rs-engine/src/orderbook/book.rs:176-178 | a fill-or-kill order trades its whole quantity exactly when that much is fillable, and otherwise leaves both queues as they were |
| Books.EachMakerTradesOnce | rs-engine/src/orderbook/book.rs:202-278 | no two trades of one taker have the same maker |
| Books.RestThenCancelIsIdentity | rs-engine/src/orderbook/book.rs:282-300 | placing a non-crossing order and cancelling it restores both queues; only the id counter has advanced |
| Levels.PopFrontFlatten | rs-engine/src/orderbook/book.rs:243-272 | popping a filled maker from its level, and the level if empty, drops exactly the front of the queue |
| Levels.PushBackFlatten | rs-engine/src/orderbook/book.rs:291-300 | pushing an id to the back of the level at its price rests the order at its place in the queue |
| Levels.TakeOutFlatten | rs-engine/src/orderbook/book.rs:504-517 | taking an id out of the level at its price, and the level if empty, removes that order from the queue |
| Indexes.OrdersAreLookups | rs-engine/src/orderbook/book.rs:60-62 | in a coherent index the order map holds exactly the resting orders, under their ids |
| Indexes.FillFrontIsFill | rs-engine/src/orderbook/book.rs:218-276 | filling the front maker in map, level and level map keeps all three coherent and is one step of the execution |
| Indexes.RestIsInsert | rs-engine/src/orderbook/book.rs:282-300 | resting an order in level map and order map keeps them linked and inserts it into the queue |
| Indexes.WithdrawIsRemove | rs-engine/src/orderbook/book.rs:501-517 | withdrawing an order from both maps keeps them linked and removes it from the queue |
| Indexes.WithdrawUndoesRest | rs-engine/src/orderbook/book.rs:282-300 | withdrawing an order just rested restores every level, every queue and the order map |
| Indexes.FlattenDeterminesLevels | rs-engine/src/orderbook/book.rs:79-103 | a queue has only one division into levels without empty ones, so the flattened order determines every level list |
| Indexes.AbsDeterminesIndex | rs-engine/src/orderbook/book.rs:20-28 | two coherent books with the same queues have the same levels, the same ids in them and the same order map |
| Orderbooks.OneFillFurther | rs-engine/src/orderbook/book.rs:202-278 | after each pass of the inner loop, the fills so far followed by the execution still to come are the whole execution |
| Orderbooks.Orderbook.constructor | rs-engine/src/orderbook/book.rs:30-38 | a new book is coherent and empty |
| Orderbooks.Orderbook.Reset | rs-engine/src/orderbook/book.rs:40-45 | a reset book is a new one |
| Orderbooks.Orderbook.Load | rs-engine/src/snapshot.rs:53-57 | a book restored from a coherent image is that image |
| Orderbooks.Orderbook.GetOrder | rs-engine/src/orderbook/book.rs:60-62 | finds an order in the map exactly if it rests in the book |
| Orderbooks.Orderbook.Best | rs-engine/src/orderbook/book.rs:47-53 | the price of the front of the queue |
| Orderbooks.Orderbook.GetState | rs-engine/src/orderbook/book.rs:79-103 | the aggregated depth of both queues |
| Orderbooks.Orderbook.FillFront | rs-engine/src/orderbook/book.rs:205-276 | trades the lesser of both quantities at the maker's price; a maker that is done leaves all three structures; the lookups that the code expects to succeed do |
| Orderbooks.Orderbook.MatchLimit | rs-engine/src/orderbook/book.rs:184-279 | the nested loops terminate and yield exactly the trades and the queue of the price-time execution |
| Orderbooks.Orderbook.AddOrderWithId | rs-engine/src/orderbook/book.rs:162-312 | the results and the new book of the limit-order specification; after an error or a killed fill-or-kill, levels, queues and order map are untouched and only the id counter has advanced |
| Orderbooks.Orderbook.MatchMarket | rs-engine/src/orderbook/book.rs:389-484 | the market loops terminate and yield exactly the price-time execution under the worst price |
| Orderbooks.Orderbook.ExecuteMarketOrderWithId | rs-engine/src/orderbook/book.rs:374-488 | the results and the new book of the market-order specification, and the error for zero quantity |
| Orderbooks.Orderbook.DropFront | rs-engine/src/orderbook/book.rs:246-272 | removes the front order from the map, its id from the level and the level if it is empty, and says whether it was |
| Orderbooks.Orderbook.IssueId | rs-engine/src/orderbook/book.rs:171 | moves the id counter past the given id and nothing else |
| Orderbooks.Orderbook.RestOrder | rs-engine/src/orderbook/book.rs:282-300 | keeps the index coherent and inserts the order into its queue |
| Orderbooks.Orderbook.CancelOrder | rs-engine/src/orderbook/book.rs:490-526 | unknown id, foreign order (both without effect), or removal from all three structures |
| Orderbooks.Orderbook.CanFillQuantity | rs-engine/src/orderbook/book.rs:107-145 | true exactly if the execution would leave nothing over |
| Orderbooks.Orderbook.QuoteCostForMarketBuy | rs-engine/src/orderbook/book.rs:316-336 | cost and quantity of exactly the fills the market buy would have |
| Orderbooks.Orderbook.FillableQtyForMarketSell | rs-engine/src/orderbook/book.rs:339-357 | the quantity of exactly the fills the market sell would have |
| Orderbooks.QuoteIsExecution | rs-engine/src/orderbook/book.rs:316-357 | walking a queue and counting adds up to what the matcher fills on it |
| Orderbooks.WalkCanFill | rs-engine/src/orderbook/book.rs:107-145 | the nested walk over levels and ids decides whether the count over the queue reaches the quantity |
| Orderbooks.WalkQuote | rs-engine/src/orderbook/book.rs:316-336 | the nested walk computes cost and quantity of the count over the queue |
| Orderbooks.WalkFillable | rs-engine/src/orderbook/book.rs:339-357 | the nested walk computes the quantity of the count over the queue |
| Depths.DepthIsAggregate | rs-engine/src/orderbook/book.rs:79-103 | the depth has one level per occupied price, strictly best first, each with all and only what rests there, never empty |
| Depths.DepthOfSide | rs-engine/src/orderbook/book.rs:79-103 | summing the levels of the index computes that depth |
| Fees.FeeOfParts | rs-shared/src/models/execution.rs:123-129 | floor-divided fees of two parts never exceed the fee of the whole and fall short of it by at most one unit |
| Fees.FeeNeverExceedsAmountExactlyWhen | rs-shared/src/models/execution.rs:123-129 | fees stay within their amounts, for all amounts, exactly when the rate is at most 10 000 basis points |
| Fees.WholeRateHasNoRemainder | rs-shared/src/models/execution.rs:123-129 | at whole multiples of 100% the fees of two parts are the fee of the whole |
| Ledger.FillEffect | rs-engine/src/handlers/order.rs:409-437 | settling a trade moves exactly the stated debit and credit of every account, self-trades and the treasury included |
| Ledger.TradesEffect | rs-engine/src/handlers/order.rs:95-97 | so does settling a batch of trades one by one |
| Ledger.FillSupply | rs-engine/src/handlers/order.rs:424-434 | settling a trade changes the supply only by what the seller's fee exceeds the value |
| Ledger.NothingCreatedExactlyWhen | rs-engine/src/handlers/order.rs:428 | a batch creates nothing exactly when no seller's fee exceeds its trade's value |
| Ledger.FillConservesExactlyWhen | rs-engine/src/handlers/order.rs:428 | settling a trade conserves USD exactly when the seller's fee is within the trade's value |
| Ledger.SettlementConservesExactlyWhen | rs-engine/src/handlers/order.rs:428 | every trade between locked funds conserves USD exactly when no fee rate is above 100% |
| Claims.FillKeepsClaim | rs-engine/src/handlers/order.rs:410-423 | a fill shrinks its maker's claim by what the maker pays, or by one unit more if it leaves a bid partly filled |
| Claims.ConsumeClaims | rs-engine/src/orderbook/book.rs:184-279 | an execution releases the claims its makers pay for, up to that rounding |
| Claims.TradesDebit | rs-engine/src/handlers/order.rs:95-97 | settling an execution debits its makers and its taker and nobody else, also when they are the same user |
| Claims.CostCoversTaker | rs-engine/src/handlers/order.rs:311-312 | per-fill values and taker fees never exceed the total cost with the fee on the total |
| Claims.CostWithinLimit | rs-engine/src/handlers/order.rs:46-49 | fills within the limit and the remainder at the limit cost at most the whole order at its limit |
| Claims.LimitBidLockIsSufficient | rs-engine/src/handlers/order.rs:46-49 | reserving at the higher rate covers every split between fills with taker fees and a resting remainder with its maker fee |
| Solvency.LimitBidIsExact | rs-engine/src/handlers/order.rs:122-136 | neither saturating subtraction of the limit-bid reconciliation saturates |
| Solvency.LimitAskIsExact | rs-engine/src/handlers/order.rs:137-145 | a limit ask's lock is delivered, refunded or kept exactly |
| Solvency.LimitOrderIsBalanced | rs-engine/src/handlers/order.rs:51-145 | a funded limit order of any type spends, refunds and keeps its lock without loss |
| Solvency.MarketSellIsBalanced | rs-engine/src/handlers/order.rs:214-264 | so does a funded market sell |
| Solvency.MarketBuyIsBalanced | rs-engine/src/handlers/order.rs:311-368 | so does a funded market buy, whose refund does not saturate |
| Solvency.OrderIsSettlement | rs-engine/src/handlers/order.rs:7-401 | a request either is refused, emits nothing and moves no balance, or applies one balanced settlement and emits its trades in order, the created order and the depth |
| Solvency.SettlementBalances | rs-engine/src/handlers/order.rs:51-145 | a settlement changes locked funds by what makers pay and what stays resting, in every account |
| Solvency.SettlementSlack | rs-engine/src/handlers/order.rs:410-423 | a settlement never shrinks an account's slack and grows it by at most its partially filled bids |
| Solvency.SettlementKeepsSolvent | rs-engine/src/handlers/order.rs:51-145 | a settlement keeps every account solvent |
| Solvency.SettlementLookup | rs-engine/src/handlers/order.rs:99-102 | after a settlement each id is found with exactly the quantity its trades left, and the taker exactly if it rests |
| Solvency.SettlementKeepsIds | rs-engine/src/state.rs:90-94 | order ids stay unique across the three books |
| Runs.CommandEffect | rs-engine/src/engine.rs:36-97 | every command is a reset, a balanced settlement, an effective cancel, or only adds available funds |
| Runs.CancelTakesEffect | rs-engine/src/handlers/order.rs:444-461 | a cancel either changes and emits nothing, or takes effect in the first market that allows it |
| Runs.CancelMoves | rs-engine/src/handlers/order.rs:475-489 | cancelling moves exactly the order's claim from locked to available, in its owner's account only |
| Runs.CancelKeepsSlack | rs-engine/src/handlers/order.rs:475-489 | cancelling leaves every account's slack untouched |
| Runs.CommandKeepsInv | rs-engine/src/engine.rs:36-97 | every command keeps books sound, ids apart and accounts solvent |
| Runs.RunKeepsInv | rs-engine/src/engine.rs:226-268 | so does every run |
| Runs.ReachableStatesAreSolvent | rs-engine/src/handlers/order.rs:409-437 | in every reachable state locked base is exactly what resting asks hold, locked USD covers resting bids with fees in all books, and nothing is negative |
| Runs.BooksAreNeverCrossed | rs-engine/src/orderbook/book.rs:185-199 | in every reachable state the best bid is below the best ask |
| Runs.LockedFundsCoverTheBatch | rs-engine/src/handlers/order.rs:95-97 | once the book is matched and before any trade is settled, every account's locked funds cover its share of the whole batch |
| Runs.BatchStaysCovered | rs-engine/src/handlers/order.rs:424-429 | settling the next trade takes no locked amount below zero and leaves the rest of the batch covered |
| Runs.RefundIsCovered | rs-engine/src/handlers/order.rs:131-134 | after the last trade the taker's locked funds still cover the refund |
| Runs.CancelRefundIsCovered | rs-engine/src/handlers/order.rs:475-489 | an owner's locked funds cover the refund of a cancel |
| Runs.SlackIsBounded | rs-engine/src/handlers/order.rs:410-423 | over every reset-free run slack never shrinks, grows by at most the partial fills of the account's bids, and stays put if maker fees never round |
| Runs.LockedUsdIsTight | rs-engine/src/handlers/order.rs:475-482 | from an empty exchange, locked USD exceeds what the bids need by at most one unit per partial fill of them, and by nothing if maker fees never round |
| Runs.CommandSupply | rs-engine/src/engine.rs:36-97 | a command changes a currency's supply by what it brings in and by what oversized seller fees create |
| Runs.SupplyIsAccountedFor | rs-engine/src/handlers/account.rs:26 | over every run supply is exactly what was funded, plus for USD what oversized seller fees created |
| Runs.SupplyIsConserved | rs-engine/src/handlers/account.rs:26-56 | with fee rates up to 100% supply is exactly what was onramped or deposited |
| Conservation.OneTradeCreatesMoney | rs-engine/src/handlers/order.rs:428 | with a rate above 100%, a run that deposits, onramps and makes one trade creates USD |
| Conservation.RunsConserveExactlyWhen | rs-engine/src/handlers/order.rs:409-437 | USD is conserved over every reset-free run exactly when no fee rate is above 100% |
| Conservation.LedgerBalancesExactlyWhen | rs-gateway/src/ledger/worker.rs:160-211 | the USD rows of the ledger table sum to zero over every reset-free run exactly when no fee rate is above 100% |
| Rounding.RoundingStrandsAUnit | rs-engine/src/handlers/order.rs:121-136 | for every maker rate that rounds, a run in which two asks fill a bid completely ends with no order resting and one unit of USD still locked |
| Rounding.LocksAreExactExactlyWhen | rs-engine/src/handlers/order.rs:471-489 | locked USD is what the user's resting bids need, over every reset-free run and for every user, exactly when the maker rate is a whole multiple of 100% |
| Resting.RunKeepsProperty | rs-engine/src/handlers/order.rs:76-80 | a property that every placed limit order has and no fill takes away holds of every order resting in a reachable state |
| Resting.RestingOrdersArePriced | rs-engine/src/handlers/order.rs:40-44 | no order without a positive price ever rests |
| Effects.LimitBidLocksItsRemainder | rs-engine/src/handlers/order.rs:122-136 | a limit bid, accepted or refused, raises its owner's locked USD by exactly the cost and maker fee of its remainder, and nobody else's |
| Effects.MarketBuyLocksNothing | rs-engine/src/handlers/order.rs:311-368 | a market buy leaves everybody's locked USD where it was, filled, partly filled or refused |
| Effects.QuoteIsExact | rs-engine/src/orderbook/book.rs:316-336 | quoted cost and quantity are those of the trades then made on the same book, and the cost with its fee covers every trade with its own fee |
| Effects.TradeWithinLimit | rs-engine/src/orderbook/book.rs:195-241 | the i-th trade of an order is with the i-th order of the opposite queue, at that order's price, within the taker's limit, between the right buyer and seller |
| Effects.MarketOrderRespectsSlippage | rs-engine/src/handlers/order.rs:188-195 | every trade of a market order is within its explicit price, or within the slippage, of either sign, of the best opposite price up to rounding |
| Effects.ReachableMarketOrdersRespectSlippage | rs-engine/src/handlers/order.rs:284-291 | so it is in every reachable state |
| Effects.EmittedStartsWithFunding | rs-engine/src/handlers/account.rs:21-73 | the first event of every reset-free run is a deposit or an onramp, because nothing else emits while nobody holds anything |
| Laws.MatchersAgreeOnBooks | rs-engine/src/orderbook/book.rs:374-488 | an immediate-or-cancel limit order and a market order with the same worst price, run by the two loops on two equal books, return equal results and leave equal levels, queues and order maps |
| Effects.PlaceThenCancelRestores | rs-engine/src/handlers/order.rs:475-489 | placing a non-crossing limit order and cancelling it restores every book and every balance of every user, fee reserve included |
| Laws.PlaceThenCancelOnBook | rs-engine/src/orderbook/book.rs:490-526 | run on a book, it returns every level, every queue and the order map, and both calls report the order |
| Laws.PlaceThenCancelOnEngine | rs-engine/src/handlers/order.rs:439-518 | run on the engine, it returns every balance and the levels, queues and order maps of all markets; only the id counters advance |
| EngineStates.EngineState.constructor | rs-engine/src/state.rs:52-63 | a new state is valid and empty |
| EngineStates.EngineState.FromSnapshot | rs-engine/src/snapshot.rs:53-57 | a state restored from a coherent image is valid and has that image |
| EngineStates.EngineState.Reset | rs-engine/src/state.rs:79-86 | a reset empties balances, books and the id counter and keeps the fees |
| EngineStates.EngineState.NextOrderId | rs-engine/src/state.rs:90-94 | hands out the counter and advances it |
| EngineStates.EngineState.TryLock | rs-engine/src/handlers/order.rs:52-73 | locks exactly if enough is available, else changes no amount |
| EngineStates.EngineState.Unlock | rs-engine/src/handlers/order.rs:131-134 | returns locked funds, which must be there |
| EngineStates.EngineState.SpendLocked | rs-engine/src/handlers/order.rs:424 | takes locked funds, which must be there |
| EngineStates.EngineState.AddAvailable | rs-engine/src/handlers/order.rs:425-433 | adds available funds and changes nothing else |
| EngineStates.EngineState.ApplyFill | rs-engine/src/handlers/order.rs:409-437 | settles one trade as specified without underflow and reports both fees |
| EngineStates.EngineState.ApplyResults | rs-engine/src/handlers/order.rs:95-120 | settling the results one by one never underflows and yields the settled accounts, the filled and spent totals, the resting order and the trade events with each maker's final quantity |
| EngineStates.EngineState.LimitExcess | rs-engine/src/handlers/order.rs:122-145 | the reconciliation computes the specified refund |
| EngineStates.EngineState.PlaceLimitOrder | rs-engine/src/handlers/order.rs:40-181 | lock, match, settle and refund in place take the specified step, with its events and reply, and keep the state valid |
| EngineStates.EngineState.PlaceMarketSell | rs-engine/src/handlers/order.rs:187-281 | so does a market sell, including the killed and the refused ones |
| EngineStates.EngineState.PlaceMarketBuy | rs-engine/src/handlers/order.rs:283-385 | so does a market buy, including the killed, the refused and those without liquidity |
| EngineStates.EngineState.PlaceOrder | rs-engine/src/handlers/order.rs:7-401 | validation and dispatch of an order request take the specified step |
| EngineStates.EngineState.RefundCancelled | rs-engine/src/handlers/order.rs:471-517 | refunds a withdrawn order without underflow, reports it and publishes the depth, as specified |
| EngineStates.EngineState.CancelOrder | rs-engine/src/handlers/order.rs:439-518 | trying the markets in turn and refunding in place take the specified step, and tell a foreign order from a missing one |
| EngineStates.EngineState.DepthOf | rs-engine/src/handlers/order.rs:390-400 | publishes the best 25 levels of both sides |
| EngineStates.EngineState.Signup | rs-engine/src/handlers/account.rs:5-19 | creates an empty account and moves nothing |
| EngineStates.EngineState.FundAccount | rs-engine/src/handlers/account.rs:21-73 | an onramp or deposit adds exactly its amount and reports it |
| EngineStates.EngineState.DispatchCommand | rs-engine/src/engine.rs:36-97 | every command takes the specified step and keeps the state valid; without a publisher nothing is emitted but the state takes the same step |
| Projection.TradeRowsTotal | rs-gateway/src/ledger/worker.rs:160-211 | the ledger rows of a trade move exactly what settling it moves, in every account and currency |
| Projection.TradeRowsBalanceExactlyWhen | rs-gateway/src/ledger/worker.rs:182 | the rows of a trade sum to zero in every currency exactly when the seller's fee is within the trade's value |
| Projection.CommandTotals | rs-gateway/src/ledger/worker.rs:160-254 | the rows of a command's events change each account's total by what the command changes its balance |
| Projection.LedgerAgrees | rs-gateway/src/ledger/worker.rs:160-254 | over every reset-free run the non-clearing rows of each user and currency sum to available plus locked, and all rows of a currency to zero, or for USD to what oversized seller fees created |
| OrderRows.TradesProject | rs-gateway/src/ledger/worker.rs:145-158 | the trade events of one taker set each maker's row to its final quantity and status, and touch no other row |
| OrderRows.SettlementKeepsRows | rs-gateway/src/ledger/worker.rs:82-158 | projecting a settlement's events keeps the orders table in agreement with the books |
| OrderRows.CancelKeepsRows | rs-gateway/src/ledger/worker.rs:213-229 | so does projecting a cancel's events |
| OrderRows.OrdersAgree | rs-gateway/src/ledger/worker.rs:82-229 | over every reset-free run each resting order has its row with user, side, price, market and remaining quantity, open or partially filled, and every other row is filled with nothing left or cancelled |
| Workers.NextKeepsApplied | rs-gateway/src/ledger/worker.rs:57-269 | appends, batches that commit or fail, and restarts that read the checkpoint keep the tables the fold of the same earlier records, if any, followed by all records up to the checkpoint |
| Workers.HistoryKeepsApplied | rs-gateway/src/ledger/worker.rs:35-271 | so does every history of them, whatever was in the tables before |
| Workers.EveryRecordIsAppliedOnce | rs-gateway/src/ledger/worker.rs:35-271 | from the start, in every such history the tables are the fold of the records up to the checkpoint, once each |
| Workers.FallbackAppliesAgain | rs-gateway/src/ledger/worker.rs:33 | after a fallback and a commit the tables hold the committed records and, behind them, all records from the beginning again |
| Workers.RestartIsSafeExactlyWhen | rs-gateway/src/ledger/worker.rs:27-33 | from every healthy state, after a restart and a commit the ledger table is right at every later point exactly when the checkpoint was read or no committed record had ledger rows |
| Workers.FallbackIsHarmlessExactlyWhen | rs-gateway/src/ledger/worker.rs:33 | on a stream that an exchange published, the ledger table is right after a fallback, at every later point, exactly when nothing had been committed, and so are all tables |
| Workers.FallbackCountsTwice | rs-gateway/src/ledger/worker.rs:33 | once a worker that fell back has caught up, each account's rows sum to its balance plus what they summed to before the fallback |
| Workers.RestartingFromZeroDuplicates | rs-gateway/src/ledger/worker.rs:33 | a run in which an account funded once ends with twice its balance in the ledger |
| Workers.ReadModelAgrees | rs-gateway/src/ledger/worker.rs:35-271 | a caught-up worker's ledger sums to the engine's balances and its order rows mirror the books, whatever failed on the way |
| Workers.Worker.constructor | rs-gateway/src/ledger/worker.rs:27-33 | starts at the checkpoint, or at the beginning of the stream if it cannot be read |
| Workers.Worker.ProcessBatch | rs-gateway/src/ledger/worker.rs:52-270 | one batch of at most 100 records is applied with its checkpoint or leaves no trace |
| Workers.Worker.ApplyEvent | rs-gateway/src/ledger/worker.rs:81-256 | the statements of one event are its projection |
| Recovery.StepKeepsConsistent | rs-engine/src/engine.rs:149-271 | each append, read, processed record, snapshot, crash and recovery keeps the state and every snapshot the fold of the log up to their own position |
| Recovery.StateIsTheFoldedLog | rs-engine/src/engine.rs:149-271 | so does every interleaving of them |
| Recovery.RecoveryRebuildsTheLiveState | rs-engine/src/engine.rs:155-186 | after any history and a crash, recovery that can read the log rebuilds the state of the whole log, with or without a loadable snapshot |
| Recovery.RunningEngineIsSolvent | rs-engine/src/engine.rs:149-271 | across crashes and recoveries the running engine and every snapshot are solvent with sound books |
| Recovery.BatchIsWorkSteps | rs-engine/src/engine.rs:226-268 | processing a batch is taking its single-record steps one after the other |
| Emission.LiveDispatchEmitsItsPosition | rs-engine/src/engine.rs:226-241 | across crashes, a live dispatch emits what the log up to its position determines, so emitting a position again repeats its events |
| Emission.NothingIsEmittedTwice | rs-engine/src/engine.rs:155-268 | if every recovery replays or starts behind everything emitted, each command is emitted for at most once and in log order |
| Emission.CatchingUpRepeats | rs-engine/src/engine.rs:182-241 | after any other recovery, working through the log again emits for the last command a second time |
| Emission.RecoveryRepeatsNothingExactlyWhen | rs-engine/src/engine.rs:172-186 | a recovery leads to nothing being emitted twice exactly when it replays the log or its snapshot is no older than the last command emitted for |
| Recovery.SnapshotTable.constructor | rs-engine/src/snapshot.rs:41-60 | a new table holds no snapshot |
| Recovery.SnapshotTable.Save | rs-engine/src/snapshot.rs:9-38 | inserts the image and keeps the newest three; a failing insert changes nothing, a failing prune keeps all |
| Recovery.Runner.constructor | rs-engine/src/engine.rs:155-186 | loading the newest snapshot and replaying the rest is the specified recovery, also when loading or reading fails |
| Recovery.Runner.ReplayEventsSince | rs-engine/src/engine.rs:102-135 | dispatches exactly the records behind the last id, without a publisher |
| Recovery.Runner.ProcessRecord | rs-engine/src/engine.rs:226-268 | dispatches one record live, counts it unless it lacks its fields, and snapshots every thousand |
| Recovery.Runner.ProcessBatch | rs-engine/src/engine.rs:226-268 | the live loop over a batch takes the specified steps and emits exactly the events of its commands |
| RateLimits.LevelGrows | rs-gateway/src/rate_limit/mod.rs:49-52 | between two times a bucket refills at the rate up to its capacity, whenever it was last touched |
| RateLimits.WindowBound | rs-gateway/src/rate_limit/mod.rs:40-62 | in every window of every run with ordered times, a key gets at most its capacity plus what refills in the window |
| RateLimits.NothingAccepted | rs-gateway/src/rate_limit/mod.rs:54-56 | a limiter that cannot hold a whole token never lets anything through |
| RateLimits.CyclesBreakTheBound | rs-gateway/src/rate_limit/mod.rs:64-69 | if an hour does not refill a capacity of at least one, enough cycles of draining, idling and eviction exceed the bound |
| RateLimits.BoundedExactlyWhen | rs-gateway/src/rate_limit/mod.rs:40-69 | for every real capacity and rate, that bound holds exactly when neither is negative and either nothing is ever allowed or an hour refills all of it |
| RateLimits.EvictionRefillsTooMuch | rs-gateway/src/rate_limit/mod.rs:64-69 | drain, evict after an hour, drain again: twice the whole tokens of the capacity within the hour |
| RateLimits.CleanupChangesNoAnswer | rs-gateway/src/rate_limit/mod.rs:64-69 | if an hour refills a bucket, cleaning up changes no later answer |
| RateLimits.RetryAdviceIsExact | rs-gateway/src/rate_limit/mod.rs:54-61 | unless the answer is saturated, waiting as long as a refusal says is enough exactly when the capacity reaches one token; no smaller whole number of seconds ever is |
| RateLimits.RateLimiter.constructor | rs-gateway/src/rate_limit/mod.rs:30-36 | a new limiter has no buckets |
| RateLimits.RateLimiter.Check | rs-gateway/src/rate_limit/mod.rs:40-62 | refill, then take a token or answer how long to wait, as specified, for every rate; without a refill the wait is saturated |
| RateLimits.RateLimiter.Cleanup | rs-gateway/src/rate_limit/mod.rs:65-69 | drops exactly the buckets idle for an hour |
| Overflow.SupplyWithinFunding | rs-engine/src/handlers/account.rs:26-56 | with fee rates up to 100% the supply of a currency never exceeds what was funded, over every run, resets included |
| Overflow.ReachableBalancesFit | rs-engine/src/handlers/order.rs:424-434 | if what was funded of a currency fits in 64 bits, so does every balance of it in every reachable state |
| Overflow.BalancesFitDuringSettlement | rs-engine/src/handlers/order.rs:95-97 | and after every prefix of a batch of trades |
| Overflow.RunKeepsAdmitted | rs-engine/src/handlers/order.rs:46-49 | if every limit order's cost fits on the fee scale, so does the cost of every order that ever rests |
| Overflow.TradeArithmeticFits | rs-engine/src/handlers/order.rs:410-433 | every product and sum computed for a trade fits, its value being at most its maker's admitted cost |
| Overflow.LimitRequestArithmeticFits | rs-engine/src/handlers/order.rs:46-49 | the quantity, cost, fee products, reserve and lock that every limit order computes fit, whatever its side and whether or not it is accepted |
| Overflow.LimitOrderArithmeticFits | rs-engine/src/handlers/order.rs:85-145 | the running totals and refund of an accepted limit order of either side fit, and so do cost, fee product and reserve of its resting remainder |
| Overflow.RestingArithmeticFits | rs-engine/src/handlers/order.rs:124-127 | cost, fee product and reserve of what a limit order leaves resting fit |
| Overflow.CancelArithmeticFits | rs-engine/src/handlers/order.rs:475-489 | so do cost, fee product and refund of every order that can be cancelled |
| Overflow.MarketBuyQuoteFits | rs-engine/src/orderbook/book.rs:316-336 | the running sum of a market buy's quote, its fee product and its lock fit before funds are looked at, if the quoted cost fits on the fee scale |
| Overflow.MarketBuyArithmeticFits | rs-engine/src/handlers/order.rs:311-368 | so do the spending and refund of an accepted market buy |
| Overflow.RestingOrdersAreBacked | rs-engine/src/handlers/order.rs:475-489 | everything the resting orders of a side are entitled to is within the supply of its currency |
| Overflow.SideQuantitiesFit | rs-engine/src/orderbook/book.rs:79-103 | all quantities resting on a side together fit, and with them every published level and fillable quantity |
| Arithmetic.IdsAreFew | rs-engine/src/state.rs:90-94 | at most one order id is issued per command, so the counter fits whenever the length of the log does |
| Arithmetic.CommandIsComputed | rs-engine/src/handlers/order.rs:7-489 | in a state whose supply and resting orders fit, every number a command computes fits (request, quote, each trade, each running total, every balance in the middle of the batch, remainder, cancel) exactly when its quote fits |
| Arithmetic.NothingOverflows | rs-engine/src/engine.rs:36-97 | over every log whose length, limit orders and funding fit, every balance, published level and id fits in every state, and each command of the log is computed without overflow exactly when its quote fits |
| Quotes.QuotesCanOverflow | rs-engine/src/handlers/order.rs:293-314 | for every fee schedule there is a log whose limit orders and funding fit, but on whose book a market buy's quote does not |

## Left out

- Levels are kept in visiting order, best price first, instead of as an ordered map walked forwards or backwards.
- The USD map and the nested asset map are one map keyed by user and currency.
- Signup: does not show the empty asset map it creates for the user, because the two balance maps are one map.
- FundAccount: deposits are of the three assets only, because the gateway lower-cases and checks the symbol before it sends the command (rs-gateway/src/routes/balance.rs:68-73).
- String and JSON handling; assets and sides that are not recognised are an explicit missing value.
- Floating-point rounding: the slippage of market orders and the rate limiter compute on reals, and a worst price beyond 64 bits is not capped.
- The three copies of the settlement loop in the order handler are one method.
- Read-only queries and the contents of replies beyond order id, status, cancelled quantity and error.
- The wrappers `add_order` and `execute_market_order`, which draw ids from the book's own counter, and `get_user_orders`.
- ProcessRecord: no reset records, because a reset deletes the stream while later records of its batch are still being processed; runs with resets are covered by solvency and uncrossed books, not by the log, the read model or conservation.
- Agreement of the tables with the engine across engine crashes: replay emits nothing, so events first processed in replay never reach the worker.
- Failing statements inside a worker's transaction, an ambiguous commit, and casts to signed 64-bit columns.
- The always-zero taker quantity of trade events, row timestamps, and ledger operation types and references.
- Redis, PostgreSQL, HTTP, WebSocket, authentication, validation and metrics plumbing.
- WindowBound: timestamps are assumed not to decrease, because the limiter reads the clock before it takes its lock and concurrent calls may arrive out of order.
- MarketBuyQuoteFits: the quoted cost is assumed to fit on the fee scale; the exact condition is in Arithmetic.NothingOverflows, and Quotes.QuotesCanOverflow shows that it is needed.
