/** One market's order book as a value, its three operations, and what they keep. */
module Books {
  import opened Types
  import opened Matching
  import opened Queues

  datatype Book = Book(bids: seq<Order>, asks: seq<Order>, nextId: OrderId) {
    function SideOf(side: Side): seq<Order> {
      if side.Bid? then bids else asks
    }

    function WithSide(side: Side, q: seq<Order>): Book {
      if side.Bid? then this.(bids := q) else this.(asks := q)
    }

    function Lookup(id: OrderId): Option<Order> {
      if Holds(bids, id) then Find(bids, id) else Find(asks, id)
    }

    predicate Has(id: OrderId) {
      Lookup(id).Some?
    }

    function Best(side: Side): Option<Price> {
      var q := SideOf(side);
      if q == [] then None else Some(q[0].price)
    }

    function RemainingOf(id: OrderId): Quantity {
      match Lookup(id)
      case Some(o) => o.remaining
      case None => 0
    }

    function IssuedUpTo(id: OrderId): Book {
      this.(nextId := if nextId < id + 1 then id + 1 else nextId)
    }
  }

  const EMPTY_BOOK := Book([], [], 1)

  ghost predicate InBook(b: Book, o: Order) {
    o in b.bids || o in b.asks
  }

  ghost predicate Uncrossed(b: Book) {
    forall x, y :: x in b.bids && y in b.asks ==> x.price < y.price
  }

  ghost predicate WellFormed(b: Book) {
    && IsQueue(Bid, b.bids)
    && IsQueue(Ask, b.asks)
    && (forall o :: InBook(b, o) ==> o.id < b.nextId)
    && (forall x, y :: x in b.bids && y in b.asks ==> x.id != y.id)
    && Uncrossed(b)
  }

  // ----- Operations -----

  function TradeOf(takerId: OrderId, user: UserId, side: Side, f: Fill): Trade {
    if side.Bid? then
      Trade(user, f.maker.user, f.maker.price, f.qty, takerId, f.maker.id, side)
    else
      Trade(f.maker.user, user, f.maker.price, f.qty, takerId, f.maker.id, side)
  }

  function Trades(takerId: OrderId, user: UserId, side: Side, fills: seq<Fill>): seq<Trade> {
    if fills == [] then [] else [TradeOf(takerId, user, side, fills[0])] + Trades(takerId, user, side, fills[1..])
  }

  datatype Execution = Execution(book: Book, trades: seq<Trade>, resting: Option<Order>)

  /** A limit order of positive price and quantity. */
  function PlaceLimit(b: Book, id: OrderId, user: UserId, side: Side, price: Price, qty: Quantity, tif: TimeInForce)
    : Execution
  {
    var issued := b.IssuedUpTo(id);
    var out := Consume(b.SideOf(side.Opposite()), Some(price), qty);
    if tif.Fok? && out.left > 0 then
      Execution(issued, [], None)
    else
      var matched := issued.WithSide(side.Opposite(), out.rest);
      var trades := Trades(id, user, side, out.fills);
      if out.left > 0 && tif.Gtc? then
        var o := Order(id, user, side, price, out.left);
        Execution(matched.WithSide(side, Insert(matched.SideOf(side), o)), trades, Some(o))
      else
        Execution(matched, trades, None)
  }

  /** A market order of positive quantity; it never rests. */
  function ExecuteMarket(b: Book, id: OrderId, user: UserId, side: Side, qty: Quantity, worst: Option<Price>)
    : Execution
  {
    var out := Consume(b.SideOf(side.Opposite()), worst, qty);
    Execution(b.IssuedUpTo(id).WithSide(side.Opposite(), out.rest), Trades(id, user, side, out.fills), None)
  }

  datatype Removal = Removal(book: Book, order: Order)

  function Cancel(b: Book, id: OrderId, user: UserId): Result<Removal> {
    match b.Lookup(id)
    case None => Err(OrderNotFound)
    case Some(o) =>
      if o.user != user then
        Err(NotOrderOwner)
      else
        Ok(Removal(b.WithSide(o.side, Remove(b.SideOf(o.side), id)), o))
  }

  // ----- Well-formedness is kept -----

  /** An order with this id and price was there before. */
  ghost predicate ComesFrom(q: seq<Order>, o: Order) {
    exists was :: was in q && o.id == was.id && o.price == was.price
  }

  /** A side that only loses orders or quantities stays apart from the other side. */
  lemma ShrunkSideIsApart(b: Book, side: Side, after: Book, x: Order, y: Order)
    requires WellFormed(b)
    requires forall o :: o in after.SideOf(side) ==> ComesFrom(b.SideOf(side), o)
    requires after.SideOf(side.Opposite()) == b.SideOf(side.Opposite())
    requires x in after.bids && y in after.asks
    ensures x.id != y.id && x.price < y.price
  {
    hide IsQueue;
    assert ComesFrom(b.SideOf(side), if side.Bid? then x else y) by {
      assert (if side.Bid? then x else y) in after.SideOf(side);
    }
    if side.Bid? {
      var was :| was in b.bids && x.id == was.id && x.price == was.price;
    } else {
      var was :| was in b.asks && y.id == was.id && y.price == was.price;
    }
  }

  lemma ShrunkSideKeepsWellFormed(b: Book, side: Side, after: Book)
    requires WellFormed(b) && b.nextId <= after.nextId
    requires IsQueue(side, after.SideOf(side))
    requires forall o :: o in after.SideOf(side) ==> ComesFrom(b.SideOf(side), o)
    requires after.SideOf(side.Opposite()) == b.SideOf(side.Opposite())
    ensures WellFormed(after)
  {
    hide IsQueue;
    forall o | InBook(after, o) ensures o.id < after.nextId {
      if o in after.SideOf(side) {
        var was :| was in b.SideOf(side) && o.id == was.id && o.price == was.price;
        assert InBook(b, was);
      } else {
        assert InBook(b, o);
      }
    }
    forall x, y | x in after.bids && y in after.asks ensures x.id != y.id && x.price < y.price {
      ShrunkSideIsApart(b, side, after, x, y);
    }
  }

  lemma ConsumedBookIsWellFormed(b: Book, id: OrderId, side: Side, limit: Option<Price>, qty: Quantity)
    requires WellFormed(b)
    ensures var opp := side.Opposite();
            WellFormed(b.IssuedUpTo(id).WithSide(opp, Consume(b.SideOf(opp), limit, qty).rest))
  {
    hide IsQueue, Consume, Uncrossed, InBook;
    var opp := side.Opposite();
    var q := b.SideOf(opp);
    ConsumeKeepsQueue(opp, q, limit, qty);
    forall o | o in Consume(q, limit, qty).rest ensures ComesFrom(q, o) {
      ConsumeOrigin(opp, q, limit, qty, o);
    }
    ShrunkSideKeepsWellFormed(b, opp, b.IssuedUpTo(id).WithSide(opp, Consume(q, limit, qty).rest));
  }

  /** Nothing that an execution leaves behind on the opposite side is still within the limit. */
  lemma LeftoverMeansOutOfReach(side: Side, q: seq<Order>, limit: Option<Price>, qty: Quantity)
    requires IsQueue(side, q)
    requires Consume(q, limit, qty).left > 0
    ensures forall o :: o in Consume(q, limit, qty).rest ==> !Reaches(limit, o)
  {
    hide Consume, Reaches, IsQueue;
    ConsumeIsPriceTime(side, q, limit, qty);
    var r := Consume(q, limit, qty);
    var n := |r.fills|;
    forall o | o in r.rest ensures !Reaches(limit, o) {
      var i :| 0 <= i < |r.rest| && r.rest[i] == o;
      assert q[n + i] == o;
      ReachIsMonotone(side, q, limit, n, n + i);
    }
  }

  lemma ReachIsMonotone(side: Side, q: seq<Order>, limit: Option<Price>, i: nat, j: nat)
    requires IsQueue(side, q) && i <= j < |q| && !Reaches(limit, q[i])
    ensures !Reaches(limit, q[j])
  {
    assert i < j ==> Before(q[i], q[j]);
  }

  lemma InsertedIn(q: seq<Order>, o: Order, x: Order)
    ensures x in Insert(q, o) <==> x == o || x in q
  {
    var k := InsertPosition(q, o);
    assert q == q[..k] + q[k..];
  }

  /** Resting an order that is out of reach of the other side keeps the book well formed and uncrossed. */
  lemma RestingKeepsWellFormed(b: Book, o: Order)
    requires WellFormed(b)
    requires o.remaining > 0 && o.id < b.nextId
    requires forall x :: InBook(b, x) ==> x.id < o.id
    requires forall x :: x in b.SideOf(o.side.Opposite()) ==> !Reaches(Some(o.price), x)
    ensures WellFormed(b.WithSide(o.side, Insert(b.SideOf(o.side), o)))
  {
    var q := b.SideOf(o.side);
    forall x | x in q ensures x.id < o.id {
      assert InBook(b, x);
    }
    InsertKeepsQueue(o.side, q, o);
    forall x ensures x in Insert(q, o) <==> x == o || x in q {
      InsertedIn(q, o, x);
    }
    var after := b.WithSide(o.side, Insert(q, o));
    assert forall x :: InBook(after, x) ==> x == o || InBook(b, x);
    RestingKeepsSidesApart(b, o, after);
  }

  lemma RestingKeepsSidesApart(b: Book, o: Order, after: Book)
    requires WellFormed(b)
    requires forall x :: InBook(b, x) ==> x.id < o.id
    requires forall x :: x in b.SideOf(o.side.Opposite()) ==> !Reaches(Some(o.price), x)
    requires forall x :: x in after.SideOf(o.side) ==> x == o || x in b.SideOf(o.side)
    requires after.SideOf(o.side.Opposite()) == b.SideOf(o.side.Opposite())
    ensures forall x, y :: x in after.bids && y in after.asks ==> x.id != y.id
    ensures Uncrossed(after)
  {
    forall x, y | x in after.bids && y in after.asks ensures x.id != y.id && x.price < y.price {
      if o.side.Bid? {
        assert InBook(b, y) && y in b.SideOf(o.side.Opposite());
        assert x in after.SideOf(o.side);
      } else {
        assert InBook(b, x) && x in b.SideOf(o.side.Opposite());
        assert y in after.SideOf(o.side);
      }
    }
  }

  lemma PlacingKeepsWellFormed(b: Book, id: OrderId, user: UserId, side: Side, price: Price, qty: Quantity,
                               tif: TimeInForce)
    requires WellFormed(b) && b.nextId <= id
    ensures var x := PlaceLimit(b, id, user, side, price, qty, tif);
            WellFormed(x.book) && x.book.nextId == id + 1
  {
    var opp := side.Opposite();
    var q := b.SideOf(opp);
    var out := Consume(q, Some(price), qty);
    ConsumedBookIsWellFormed(b, id, side, Some(price), qty);
    if out.left > 0 {
      LeftoverMeansOutOfReach(opp, q, Some(price), qty);
      if tif.Gtc? {
        var matched := b.IssuedUpTo(id).WithSide(opp, out.rest);
        forall x | InBook(matched, x) ensures x.id < id {
          if x in out.rest {
            ConsumeOrigin(opp, q, Some(price), qty, x);
            var was :| was in q && x.id == was.id;
            assert InBook(b, was);
          } else {
            assert InBook(b, x);
          }
        }
        RestingKeepsWellFormed(matched, Order(id, user, side, price, out.left));
      } else if tif.Fok? {
        assert forall x :: InBook(b.IssuedUpTo(id), x) ==> InBook(b, x);
      }
    }
  }

  lemma CancellingKeepsWellFormed(b: Book, id: OrderId, user: UserId)
    requires WellFormed(b)
    requires Cancel(b, id, user).Ok?
    ensures WellFormed(Cancel(b, id, user).value.book)
  {
    hide IsQueue, Uncrossed, InBook;
    LookupIsSound(b, id);
    var o := b.Lookup(id).value;
    var q := b.SideOf(o.side);
    RemoveKeepsQueue(o.side, q, id);
    var k := RemovePosition(q, id);
    forall x | x in Remove(q, id) ensures ComesFrom(q, x) {
      assert x in q;
    }
    ShrunkSideKeepsWellFormed(b, o.side, Cancel(b, id, user).value.book);
  }

  // ----- Lookups -----

  /** A looked-up order rests on its own side, and nowhere else. */
  lemma LookupIsSound(b: Book, id: OrderId)
    requires WellFormed(b)
    ensures b.Has(id) ==>
              var o := b.Lookup(id).value;
              o in b.SideOf(o.side) && o.id == id && Find(b.SideOf(o.side), id) == Some(o) && o.remaining > 0 &&
              !Holds(b.SideOf(o.side.Opposite()), id) && id < b.nextId
  {
    FindSound(b.bids, id);
    FindSound(b.asks, id);
    if b.Has(id) {
      assert InBook(b, b.Lookup(id).value);
    }
  }

  lemma LookupIsComplete(b: Book, o: Order)
    requires WellFormed(b) && InBook(b, o)
    ensures b.Lookup(o.id) == Some(o)
  {
    FindSound(b.bids, o.id);
    if o in b.bids {
      FindComplete(Bid, b.bids, o);
    } else {
      FindComplete(Ask, b.asks, o);
    }
  }

  /** An execution changes exactly its makers (quantity only) and adds exactly the resting remainder. */
  lemma ExecutionLookup(b: Book, takerId: OrderId, user: UserId, side: Side, limit: Option<Price>, qty: Quantity,
                        id: OrderId)
    requires WellFormed(b)
    ensures var out := Consume(b.SideOf(side.Opposite()), limit, qty);
            var after := b.IssuedUpTo(takerId).WithSide(side.Opposite(), out.rest);
            && (MakerIn(out.fills, id) ==> b.Has(id))
            && (!MakerIn(out.fills, id) ==> after.Lookup(id) == b.Lookup(id))
            && (after.Has(id) ==>
                  b.Has(id) && 0 < after.RemainingOf(id) <= b.RemainingOf(id) &&
                  after.Lookup(id).value == b.Lookup(id).value.(remaining := after.RemainingOf(id)))
  {
    var q := b.SideOf(side.Opposite());
    FindConsume(side.Opposite(), q, limit, qty, id);
    LookupIsSound(b, id);
    FindSound(b.bids, id);
    FindSound(b.asks, id);
  }

  lemma RestingLookup(b: Book, o: Order, id: OrderId)
    requires forall x :: InBook(b, x) ==> x.id != o.id
    ensures b.WithSide(o.side, Insert(b.SideOf(o.side), o)).Lookup(id) ==
            if id == o.id then Some(o) else b.Lookup(id)
  {
    FindSound(b.bids, o.id);
    FindSound(b.asks, o.id);
    assert forall x :: x in b.SideOf(o.side) ==> InBook(b, x);
    FindInsert(b.SideOf(o.side), o, id);
    FindSound(b.SideOf(o.side.Opposite()), o.id);
    assert forall x :: x in b.SideOf(o.side.Opposite()) ==> InBook(b, x);
  }

  lemma CancelLookup(b: Book, gone: OrderId, user: UserId, id: OrderId)
    requires WellFormed(b)
    requires Cancel(b, gone, user).Ok?
    ensures Cancel(b, gone, user).value.book.Lookup(id) == if id == gone then None else b.Lookup(id)
  {
    LookupIsSound(b, gone);
    var side := b.Lookup(gone).value.side;
    FindRemove(side, b.SideOf(side), gone, id);
    LookupIsSound(b, id);
  }

  // ----- Theorems about the two matchers -----

  /** Fill-or-kill trades the whole quantity or leaves both queues exactly as they were. */
  lemma FillOrKillIsAllOrNothing(b: Book, id: OrderId, user: UserId, side: Side, price: Price, qty: Quantity)
    requires WellFormed(b)
    ensures var x := PlaceLimit(b, id, user, side, price, qty, Fok);
            var fillable := FilledQty(Consume(b.SideOf(side.Opposite()), Some(price), qty).fills);
            && (fillable == qty ==> TradedQty(x.trades) == qty)
            && (fillable != qty ==> x.trades == [] && x.book.bids == b.bids && x.book.asks == b.asks)
            && x.resting == None
  {
    var q := b.SideOf(side.Opposite());
    ConsumeIsPriceTime(side.Opposite(), q, Some(price), qty);
    TradedQtyIsFilled(id, user, side, Consume(q, Some(price), qty).fills);
  }

  function TradedQty(trades: seq<Trade>): nat {
    if trades == [] then 0 else trades[0].qty + TradedQty(trades[1..])
  }

  lemma {:induction false} TradedQtyIsFilled(id: OrderId, user: UserId, side: Side, fills: seq<Fill>)
    ensures TradedQty(Trades(id, user, side, fills)) == FilledQty(fills)
  {
    if fills != [] {
      TradedQtyIsFilled(id, user, side, fills[1..]);
      assert Trades(id, user, side, fills)[1..] == Trades(id, user, side, fills[1..]);
    }
  }

  lemma {:induction false} TradeAt(id: OrderId, user: UserId, side: Side, fills: seq<Fill>, i: nat)
    ensures |Trades(id, user, side, fills)| == |fills|
    ensures i < |fills| ==> Trades(id, user, side, fills)[i] == TradeOf(id, user, side, fills[i])
  {
    if fills != [] {
      TradeAt(id, user, side, fills[1..], if i > 0 then i - 1 else 0);
    }
  }

  /** An executed taker never trades with the same maker twice. */
  lemma {:induction false} EachMakerTradesOnce(side: Side, q: seq<Order>, limit: Option<Price>, qty: Quantity,
                                               i: nat, j: nat)
    requires IsQueue(side, q)
    requires i < j < |Consume(q, limit, qty).fills|
    ensures Consume(q, limit, qty).fills[i].maker.id != Consume(q, limit, qty).fills[j].maker.id
  {
    ConsumeIsPriceTime(side, q, limit, qty);
    var fills := Consume(q, limit, qty).fills;
    assert FillsInTurn(q, limit, fills, i) && FillsInTurn(q, limit, fills, j);
  }

  /** Resting a non-crossing order and cancelling it restores both queues. */
  lemma RestThenCancelIsIdentity(b: Book, id: OrderId, user: UserId, side: Side, price: Price, qty: Quantity)
    requires WellFormed(b) && b.nextId <= id && qty > 0
    requires forall x :: x in b.SideOf(side.Opposite()) ==> !Reaches(Some(price), x)
    ensures var placed := PlaceLimit(b, id, user, side, price, qty, Gtc);
            && placed.trades == []
            && Cancel(placed.book, id, user) == Ok(Removal(b.IssuedUpTo(id), Order(id, user, side, price, qty)))
  {
    var opp := b.SideOf(side.Opposite());
    assert opp == [] || opp[0] in opp;
    assert Consume(opp, Some(price), qty) == Outcome([], opp, qty);
    var o := Order(id, user, side, price, qty);
    var q := b.SideOf(side);
    forall x | InBook(b, x) ensures x.id != id {
    }
    RestingLookup(b.IssuedUpTo(id), o, id);
    assert forall x :: x in q ==> InBook(b, x);
    RemoveUndoesInsert(q, o);
    assert b.IssuedUpTo(id).WithSide(side.Opposite(), opp) == b.IssuedUpTo(id);
  }
}
