/**
 * Laws of the mutable book and engine state, proved by running their operations: they speak of the level lists
 * and the order map themselves, which a coherent book's queues determine.
 */
module Laws {
  import opened Types
  import opened Matching
  import opened Books
  import opened Ledger
  import opened Engine
  import opened Solvency
  import opened Effects
  import opened Indexes
  import opened Orderbooks
  import opened EngineStates

  /** The two matching loops, run on two equal books, return equal results and leave equal books. */
  method MatchersAgreeOnBooks(limit: Orderbook, market: Orderbook, orderId: OrderId, user: UserId, side: Side,
                              price: Price, qty: Quantity)
    returns (limitResults: Result<seq<MatchResult>>, marketResults: Result<seq<MatchResult>>)
    requires limit != market && limit.Valid() && market.Valid() && limit.Image() == market.Image()
    requires limit.nextOrderId <= orderId && price > 0 && qty > 0
    modifies limit, market
    ensures limit.Valid() && market.Valid()
    ensures limitResults == marketResults && limit.Image() == market.Image()
  {
    hide Index.Coherent, Index.Abs;
    MatchersAgree(limit.Abs(), orderId, user, side, price, qty);
    limitResults := limit.AddOrderWithId(orderId, user, side, price, qty, Ioc);
    marketResults := market.ExecuteMarketOrderWithId(orderId, user, side, qty, Some(price));
    AbsDeterminesIndex(limit.Image(), market.Image());
  }

  /** Placing an order that does not cross and cancelling it returns every level, every queue and the map. */
  method PlaceThenCancelOnBook(book: Orderbook, orderId: OrderId, user: UserId, side: Side, price: Price, qty: Quantity)
    returns (placed: Result<seq<MatchResult>>, cancelled: Result<Order>)
    requires book.Valid() && book.nextOrderId <= orderId && price > 0 && qty > 0
    requires DoesNotCross(book.Abs(), side, price)
    modifies book
    ensures book.Valid() && book.Image() == old(book.Image()).IssuedUpTo(orderId)
    ensures var o := Order(orderId, user, side, price, qty); placed == Ok([Accepted(o)]) && cancelled == Ok(o)
  {
    hide Index.Coherent, Index.Abs, PlaceLimit, Cancel;
    ghost var before := book.Image();
    RestingOnBook(before, orderId, user, side, price, qty);
    placed := book.AddOrderWithId(orderId, user, side, price, qty, Gtc);
    cancelled := book.CancelOrder(orderId, user);
    AbsDeterminesIndex(book.Image(), before.IssuedUpTo(orderId));
  }

  lemma RestingOnBook(ix: Index, id: OrderId, user: UserId, side: Side, price: Price, qty: Quantity)
    requires ix.Coherent() && ix.nextOrderId <= id && qty > 0 && DoesNotCross(ix.Abs(), side, price)
    ensures var o := Order(id, user, side, price, qty);
            var placed := PlaceLimit(ix.Abs(), id, user, side, price, qty, Gtc);
            && ResultsOf(placed) == [Accepted(o)]
            && ix.IssuedUpTo(id).Coherent()
            && Cancel(placed.book, id, user) == Ok(Removal(ix.IssuedUpTo(id).Abs(), o))
  {
    hide Index.Coherent, Index.Abs, Cancel, WellFormed;
    IssuingKeepsCoherent(ix, id);
    BookIsWellFormed(ix);
    RestThenCancelIsIdentity(ix.Abs(), id, user, side, price, qty);
    var opp := ix.Abs().SideOf(side.Opposite());
    assert opp != [] ==> opp[0] in opp;
    assert Consume(opp, Some(price), qty) == Outcome([], opp, qty);
    assert [] + [Accepted(Order(id, user, side, price, qty))] == [Accepted(Order(id, user, side, price, qty))];
  }

  lemma BookIsWellFormed(ix: Index)
    requires ix.Coherent()
    ensures WellFormed(ix.Abs()) && ix.Abs().nextId == ix.nextOrderId
  {
  }

  /**
   * So it is for the whole engine: every balance of every user and every level, queue and order of every market
   * is as before; only the id counters have advanced.
   */
  method PlaceThenCancelOnEngine(engine: EngineState, user: UserId, asset: Asset, side: Side, price: Price,
                                 qty: Quantity)
    returns (placed: Reply, cancelled: Reply)
    requires engine.Valid() && price > 0 && qty > 0
    requires DoesNotCross(engine.Abs().BookOf(asset), side, price)
    requires HasFunds(engine.Abs(), Funding(user, side, asset), LimitLock(engine.fees, side, price, qty))
    modifies engine, engine.sol, engine.btc, engine.eth
    ensures engine.Valid()
    ensures placed == Placed(Some(old(engine.nextOrderId)), Open)
    ensures cancelled == CancelDone(old(engine.nextOrderId), qty)
    ensures forall k: Account :: Get(engine.accounts, k) == Get(old(engine.accounts), k)
    ensures forall a: Asset :: engine.BookOf(a).Image() ==
              if a == asset then old(engine.BookOf(a).Image()).IssuedUpTo(old(engine.nextOrderId))
              else old(engine.BookOf(a).Image())
    ensures engine.nextOrderId == old(engine.nextOrderId) + 1
  {
    hide Inv, HasFunds, LimitOrder, HandleCancel, Book.IssuedUpTo, Index.IssuedUpTo, Index.Coherent, Index.Abs;
    ghost var e, before := engine.Abs(), engine.Image();
    var id := engine.nextOrderId;
    SoundBooks(e);
    PlaceThenCancelRestores(e, user, asset, side, price, qty);
    var _, placedReply := engine.PlaceLimitOrder(user, asset, side, price, qty, Gtc);
    var _, cancelledReply := engine.CancelOrder(user, id);
    placed, cancelled := placedReply, cancelledReply;
    assert engine.Abs().BookOf(Sol) == if Sol == asset then e.BookOf(Sol).IssuedUpTo(id) else e.BookOf(Sol);
    assert engine.Abs().BookOf(Btc) == if Btc == asset then e.BookOf(Btc).IssuedUpTo(id) else e.BookOf(Btc);
    assert engine.Abs().BookOf(Eth) == if Eth == asset then e.BookOf(Eth).IssuedUpTo(id) else e.BookOf(Eth);
    SameIndex(before.sol, engine.sol.Image(), asset == Sol, id);
    SameIndex(before.btc, engine.btc.Image(), asset == Btc, id);
    SameIndex(before.eth, engine.eth.Image(), asset == Eth, id);
  }

  lemma SameIndex(ix: Index, now: Index, issued: bool, id: OrderId)
    requires ix.Coherent() && now.Coherent()
    requires now.Abs() == if issued then ix.Abs().IssuedUpTo(id) else ix.Abs()
    ensures now == if issued then ix.IssuedUpTo(id) else ix
  {
    hide Index.Coherent, Index.Abs;
    IssuingKeepsCoherent(ix, id);
    AbsDeterminesIndex(now, if issued then ix.IssuedUpTo(id) else ix);
  }

  lemma SoundBooks(e: Engine)
    requires Inv(e)
    ensures BooksSound(e)
  {
  }
}
