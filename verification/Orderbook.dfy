/** The mutable order book; every method is proved to refine its specification on price-time queues. */
module Orderbooks {
  import opened Types
  import opened Matching
  import opened Queues
  import opened Books
  import opened Levels
  import opened Indexes
  import opened Depths

  function Min(x: nat, y: nat): nat {
    if x < y then x else y
  }

  // ----- Executions under way -----

  /** A sequence of fills followed by another execution. */
  function Prepend(fills: seq<Fill>, out: Outcome): Outcome {
    Outcome(fills + out.fills, out.rest, out.left)
  }

  /** Filling the front order is one step of the execution. */
  lemma FillAdvances(q: seq<Order>, limit: Option<Price>, qty: Quantity)
    requires q != [] && qty > 0 && q[0].remaining > 0 && Reaches(limit, q[0])
    ensures var take := Min(qty, q[0].remaining);
            Consume(q, limit, qty) == Prepend([Fill(q[0], take)], Consume(AfterFill(q, take), limit, qty - take))
  {
  }

  /** From book b0, the fills so far have led to book b; what is still to come is the execution from there. */
  ghost predicate UnderWay(b0: Book, b: Book, side: Side, limit: Option<Price>, qty: Quantity, fills: seq<Fill>,
                           remaining: Quantity)
  {
    var opp := side.Opposite();
    && b == b0.WithSide(opp, b.SideOf(opp))
    && Consume(b0.SideOf(opp), limit, qty) == Prepend(fills, Consume(b.SideOf(opp), limit, remaining))
  }

  lemma NotStarted(b0: Book, side: Side, limit: Option<Price>, qty: Quantity)
    ensures UnderWay(b0, b0, side, limit, qty, [], qty)
  {
    var out := Consume(b0.SideOf(side.Opposite()), limit, qty);
    assert [] + out.fills == out.fills;
  }

  lemma OneFillFurther(b0: Book, b: Book, side: Side, limit: Option<Price>, qty: Quantity, fills: seq<Fill>,
                       remaining: Quantity)
    requires UnderWay(b0, b, side, limit, qty, fills, remaining)
    requires var q := b.SideOf(side.Opposite());
             q != [] && remaining > 0 && q[0].remaining > 0 && Reaches(limit, q[0])
    ensures var q := b.SideOf(side.Opposite());
            var take := Min(remaining, q[0].remaining);
            UnderWay(b0, b.WithSide(side.Opposite(), AfterFill(q, take)), side, limit, qty, fills + [Fill(q[0], take)],
                     remaining - take)
  {
    hide Consume, AfterFill, Reaches;
    var q := b.SideOf(side.Opposite());
    var take := Min(remaining, q[0].remaining);
    FillAdvances(q, limit, remaining);
    var next := Consume(AfterFill(q, take), limit, remaining - take);
    assert fills + ([Fill(q[0], take)] + next.fills) == fills + [Fill(q[0], take)] + next.fills;
  }

  /** When nothing more can be filled, the fills so far are the whole execution. */
  lemma NothingMoreToFill(b0: Book, b: Book, side: Side, limit: Option<Price>, qty: Quantity, fills: seq<Fill>,
                          remaining: Quantity)
    requires UnderWay(b0, b, side, limit, qty, fills, remaining)
    requires var q := b.SideOf(side.Opposite());
             remaining == 0 || q == [] || !Reaches(limit, q[0])
    ensures Consume(b0.SideOf(side.Opposite()), limit, qty) == Outcome(fills, b.SideOf(side.Opposite()), remaining)
    ensures b == b0.WithSide(side.Opposite(), b.SideOf(side.Opposite()))
  {
    assert fills + [] == fills;
  }

  // ----- Results -----

  function AsResults(trades: seq<Trade>): seq<MatchResult> {
    if trades == [] then [] else [Traded(trades[0])] + AsResults(trades[1..])
  }

  function FillResults(id: OrderId, user: UserId, side: Side, fills: seq<Fill>): seq<MatchResult> {
    AsResults(Trades(id, user, side, fills))
  }

  lemma NoResultsYet(id: OrderId, user: UserId, side: Side)
    ensures FillResults(id, user, side, []) == []
  {
  }

  lemma {:induction false} FillResultsAppend(id: OrderId, user: UserId, side: Side, fills: seq<Fill>, f: Fill)
    ensures FillResults(id, user, side, fills + [f]) ==
            FillResults(id, user, side, fills) + [Traded(TradeOf(id, user, side, f))]
  {
    if fills == [] {
      assert [] + [f] == [f];
      assert Trades(id, user, side, [f]) == [TradeOf(id, user, side, f)];
    } else {
      FillResultsAppend(id, user, side, fills[1..], f);
      assert (fills + [f])[1..] == fills[1..] + [f];
      assert Trades(id, user, side, fills)[1..] == Trades(id, user, side, fills[1..]);
      assert Trades(id, user, side, fills + [f])[1..] == Trades(id, user, side, fills[1..] + [f]);
    }
  }

  /** What `add_order_with_id` reports: its trades, then the resting remainder if there is one. */
  function ResultsOf(x: Execution): seq<MatchResult> {
    AsResults(x.trades) + match x.resting { case None => [] case Some(o) => [Accepted(o)] }
  }

  // ----- The order book -----

  class Orderbook {
    var nextOrderId: OrderId
    var bids: seq<Level>
    var asks: seq<Level>
    var orders: map<OrderId, Order>

    function Image(): Index
      reads this
    {
      Index(nextOrderId, bids, asks, orders)
    }

    /** The book this object represents. */
    function Abs(): Book
      reads this
    {
      Image().Abs()
    }

    /** Levels and order map are coherent. */
    ghost predicate Valid()
      reads this
    {
      Image().Coherent()
    }

    function LevelsOf(side: Side): seq<Level>
      reads this
    {
      if side.Bid? then bids else asks
    }

    constructor ()
      ensures Valid() && Abs() == EMPTY_BOOK
    {
      nextOrderId, bids, asks, orders := 1, [], [], map[];
    }

    method Reset()
      modifies this
      ensures Valid() && Abs() == EMPTY_BOOK
    {
      bids, asks, orders, nextOrderId := [], [], map[], 1;
    }

    /** Take over a stored image, as deserialising a snapshot does. */
    method Load(image: Index)
      requires image.Coherent()
      modifies this
      ensures Valid() && Image() == image
    {
      nextOrderId, bids, asks, orders := image.nextOrderId, image.bids, image.asks, image.orders;
    }

    // ----- Reading -----

    method GetOrder(id: OrderId) returns (r: Option<Order>)
      requires Valid()
      ensures r == Abs().Lookup(id)
    {
      OrdersAreLookups(Image(), id);
      r := if id in orders then Some(orders[id]) else None;
    }

    method Best(side: Side) returns (r: Option<Price>)
      requires Valid()
      ensures r == Abs().Best(side)
      ensures r.Some? <==> LevelsOf(side) != []
      ensures r.Some? ==> r.value == LevelsOf(side)[0].price && Abs().SideOf(side)[0].side == side
    {
      LinkedSide(Image(), side);
      FrontOfFlatten(side, LevelsOf(side), orders);
      var levels := LevelsOf(side);
      r := if levels == [] then None else Some(levels[0].price);
    }

    /** The aggregated levels of both sides, best price first. */
    method GetState() returns (bidDepth: seq<DepthLevel>, askDepth: seq<DepthLevel>)
      requires Valid()
      ensures bidDepth == Depth(Abs().bids) && askDepth == Depth(Abs().asks)
    {
      LinkedSide(Image(), Bid);
      LinkedSide(Image(), Ask);
      bidDepth := DepthOfSide(Bid, bids, orders);
      askDepth := DepthOfSide(Ask, asks, orders);
    }

    // ----- Matching -----

    /** Fill the maker at the front of the resting level; a maker that is done leaves all three structures. */
    method FillFront(takerId: OrderId, user: UserId, side: Side, restingPrice: Price, remaining: Quantity)
      returns (trade: Trade, makerDone: bool, levelEmpty: bool)
      requires Valid() && remaining > 0
      requires LevelsOf(side.Opposite()) != [] && LevelsOf(side.Opposite())[0].price == restingPrice
      modifies this
      ensures Valid() && nextOrderId == old(nextOrderId)
      ensures var q := old(Abs()).SideOf(side.Opposite());
              && q != [] && q[0].remaining > 0 && q[0].price == restingPrice && q[0].side == side.Opposite()
              && trade == TradeOf(takerId, user, side, Fill(q[0], Min(remaining, q[0].remaining)))
              && Abs() == old(Abs()).WithSide(side.Opposite(), AfterFill(q, Min(remaining, q[0].remaining)))
              && (makerDone <==> q[0].remaining <= remaining)
      ensures makerDone && !levelEmpty ==>
                LevelsOf(side.Opposite()) != [] && LevelsOf(side.Opposite())[0].price == restingPrice
    {
      hide Index.Coherent, Index.Abs;
      var opp := side.Opposite();
      ghost var before, q := Image(), Abs().SideOf(opp);
      FrontMaker(before, opp);

      var makerId := LevelsOf(opp)[0].ids[0];
      assert makerId in orders;  // the order of a listed id exists
      var maker := orders[makerId];
      var fillQty := Min(remaining, maker.remaining);
      trade := if side.Bid? then Trade(user, maker.user, restingPrice, fillQty, takerId, makerId, side)
               else Trade(maker.user, user, restingPrice, fillQty, takerId, makerId, side);
      orders := orders[makerId := maker.(remaining := maker.remaining - fillQty)];

      makerDone := orders[makerId].remaining == 0;
      levelEmpty := false;
      if makerDone {
        UpdateThenRemove(before.orders, makerId, orders[makerId]);
        levelEmpty := DropFront(opp);
      }
      assert Image() == Indexes.FillFront(before, opp, fillQty);
      FillFrontIsFill(before, opp, fillQty);
    }

    /** Remove the front order from the map and its id from the level, and the level too if it is now empty. */
    method DropFront(side: Side) returns (levelEmpty: bool)
      requires LevelsOf(side) != [] && LevelsOf(side)[0].ids != []
      modifies this
      ensures Image() == RemoveFront(old(Image()), side)
      ensures levelEmpty <==> |old(LevelsOf(side))[0].ids| == 1
      ensures !levelEmpty ==> LevelsOf(side) != [] && LevelsOf(side)[0].price == old(LevelsOf(side))[0].price
    {
      orders := orders - {LevelsOf(side)[0].ids[0]};
      levelEmpty := |LevelsOf(side)[0].ids| == 1;
      if side.Bid? {
        bids := PopFront(bids);
      } else {
        asks := PopFront(asks);
      }
    }

    /** The matching loop of a limit order: level by level, oldest order first, while the limit is crossed. */
    method MatchLimit(orderId: OrderId, user: UserId, side: Side, price: Price, qty: Quantity)
      returns (remaining: Quantity, results: seq<MatchResult>)
      requires Valid()
      modifies this
      ensures Valid()
      ensures var out := Consume(old(Abs()).SideOf(side.Opposite()), Some(price), qty);
              && remaining == out.left
              && results == FillResults(orderId, user, side, out.fills)
              && Abs() == old(Abs()).WithSide(side.Opposite(), out.rest)
    {
      hide Index.Coherent, Index.Abs, UnderWay, Consume, FillResults, WellFormed;
      var opp := side.Opposite();
      remaining, results := qty, [];
      ghost var b0, fills := Abs(), [];
      NotStarted(b0, side, Some(price), qty);
      NoResultsYet(orderId, user, side);
      while remaining > 0
        invariant Valid()
        invariant UnderWay(b0, Abs(), side, Some(price), qty, fills, remaining)
        invariant results == FillResults(orderId, user, side, fills)
        decreases |Abs().SideOf(opp)|, remaining
      {
        var best := Best(opp);
        if best.None? {
          break;
        }
        var restingPrice := best.value;
        if BetterPrice(opp, price, restingPrice) {
          break;
        }
        ghost var ahead, wanted := |Abs().SideOf(opp)|, remaining;
        while remaining > 0
          invariant Valid()
          invariant UnderWay(b0, Abs(), side, Some(price), qty, fills, remaining)
          invariant results == FillResults(orderId, user, side, fills)
          invariant LevelsOf(opp) != [] && LevelsOf(opp)[0].price == restingPrice
          invariant |Abs().SideOf(opp)| < ahead || (|Abs().SideOf(opp)| == ahead && remaining == wanted)
          decreases |Abs().SideOf(opp)|
        {
          ghost var b := Abs();
          var trade, makerDone, levelEmpty := FillFront(orderId, user, side, restingPrice, remaining);
          ghost var fill := Fill(b.SideOf(opp)[0], Min(remaining, b.SideOf(opp)[0].remaining));
          OneFillFurther(b0, b, side, Some(price), qty, fills, remaining);
          FillResultsAppend(orderId, user, side, fills, fill);
          fills := fills + [fill];
          results := results + [Traded(trade)];
          remaining := remaining - trade.qty;
          if !makerDone || levelEmpty {
            break;
          }
        }
      }
      NothingMoreToFill(b0, Abs(), side, Some(price), qty, fills, remaining);
    }

    /** Place a limit order under an id the book has not issued. */
    method AddOrderWithId(orderId: OrderId, user: UserId, side: Side, price: Price, qty: Quantity, tif: TimeInForce)
      returns (r: Result<seq<MatchResult>>)
      requires Valid() && nextOrderId <= orderId
      modifies this
      ensures Valid()
      ensures price == 0 ==> r == Err(InvalidPrice)
      ensures price > 0 && qty == 0 ==> r == Err(InvalidQuantity)
      ensures r.Err? ==> Image() == old(Image()).IssuedUpTo(orderId)
      ensures tif.Fok? && Consume(old(Abs()).SideOf(side.Opposite()), Some(price), qty).left > 0 ==>
                Image() == old(Image()).IssuedUpTo(orderId)
      ensures price > 0 && qty > 0 ==>
                var x := PlaceLimit(old(Abs()), orderId, user, side, price, qty, tif);
                r == Ok(ResultsOf(x)) && Abs() == x.book
    {
      hide Index.Coherent, Index.Abs;
      ghost var b := Abs();
      PlacedBook(Image(), orderId, user, side, price, qty, tif);
      IssueId(orderId);
      if price == 0 {
        return Err(InvalidPrice);
      }
      if qty == 0 {
        return Err(InvalidQuantity);
      }
      if tif == Fok {
        var fillable := CanFillQuantity(side, price, qty);
        if !fillable {
          assert ResultsOf(Execution(Abs(), [], None)) == [];
          return Ok([]);
        }
      }
      var remaining, results := MatchLimit(orderId, user, side, price, qty);
      assert results + [] == results;
      if remaining > 0 && tif == Gtc {
        var o := Order(orderId, user, side, price, remaining);
        RestOrder(o);
        results := results + [Accepted(o)];
      }
      r := Ok(results);
    }

    /** The matching loop of a market order, which stops at the worst acceptable price if there is one. */
    method MatchMarket(orderId: OrderId, user: UserId, side: Side, worst: Option<Price>, qty: Quantity)
      returns (remaining: Quantity, results: seq<MatchResult>)
      requires Valid()
      modifies this
      ensures Valid()
      ensures var out := Consume(old(Abs()).SideOf(side.Opposite()), worst, qty);
              && remaining == out.left
              && results == FillResults(orderId, user, side, out.fills)
              && Abs() == old(Abs()).WithSide(side.Opposite(), out.rest)
    {
      hide Index.Coherent, Index.Abs, UnderWay, Consume, FillResults, WellFormed;
      var opp := side.Opposite();
      remaining, results := qty, [];
      ghost var b0, fills := Abs(), [];
      NotStarted(b0, side, worst, qty);
      NoResultsYet(orderId, user, side);
      while remaining > 0
        invariant Valid()
        invariant UnderWay(b0, Abs(), side, worst, qty, fills, remaining)
        invariant results == FillResults(orderId, user, side, fills)
        decreases |Abs().SideOf(opp)|, remaining
      {
        var best := Best(opp);
        if best.None? {
          break;
        }
        var restingPrice := best.value;
        if worst.Some? && BetterPrice(opp, worst.value, restingPrice) {
          break;
        }
        ghost var ahead, wanted := |Abs().SideOf(opp)|, remaining;
        while remaining > 0
          invariant Valid()
          invariant UnderWay(b0, Abs(), side, worst, qty, fills, remaining)
          invariant results == FillResults(orderId, user, side, fills)
          invariant LevelsOf(opp) != [] && LevelsOf(opp)[0].price == restingPrice
          invariant |Abs().SideOf(opp)| < ahead || (|Abs().SideOf(opp)| == ahead && remaining == wanted)
          decreases |Abs().SideOf(opp)|
        {
          ghost var b := Abs();
          var trade, makerDone, levelEmpty := FillFront(orderId, user, side, restingPrice, remaining);
          ghost var fill := Fill(b.SideOf(opp)[0], Min(remaining, b.SideOf(opp)[0].remaining));
          OneFillFurther(b0, b, side, worst, qty, fills, remaining);
          FillResultsAppend(orderId, user, side, fills, fill);
          fills := fills + [fill];
          results := results + [Traded(trade)];
          remaining := remaining - trade.qty;
          if !makerDone || levelEmpty {
            break;
          }
        }
      }
      NothingMoreToFill(b0, Abs(), side, worst, qty, fills, remaining);
    }

    /** Execute a market order under an id the book has not issued; what cannot be filled is dropped. */
    method ExecuteMarketOrderWithId(orderId: OrderId, user: UserId, side: Side, qty: Quantity, worst: Option<Price>)
      returns (r: Result<seq<MatchResult>>)
      requires Valid() && nextOrderId <= orderId
      modifies this
      ensures Valid()
      ensures qty == 0 ==> r == Err(InvalidQuantity) && Image() == old(Image()).IssuedUpTo(orderId)
      ensures qty > 0 ==>
                var x := ExecuteMarket(old(Abs()), orderId, user, side, qty, worst);
                r == Ok(ResultsOf(x)) && Abs() == x.book
    {
      hide Index.Coherent, Index.Abs;
      IssueId(orderId);
      if qty == 0 {
        return Err(InvalidQuantity);
      }
      var _, results := MatchMarket(orderId, user, side, worst, qty);
      assert results + [] == results;
      r := Ok(results);
    }

    method IssueId(orderId: OrderId)
      requires Valid()
      modifies this`nextOrderId
      ensures Valid() && Abs() == old(Abs()).IssuedUpTo(orderId) && Image() == old(Image()).IssuedUpTo(orderId)
    {
      hide Index.Coherent, Index.Abs;
      IssuingKeepsCoherent(Image(), orderId);
      if nextOrderId < orderId + 1 {
        nextOrderId := orderId + 1;
      }
    }

    method RestOrder(o: Order)
      requires Valid() && !Abs().Has(o.id)
      requires WellFormed(Abs().WithSide(o.side, Insert(Abs().SideOf(o.side), o)))
      modifies this
      ensures Valid() && Abs() == old(Abs()).WithSide(o.side, Insert(old(Abs()).SideOf(o.side), o))
    {
      hide Index.Coherent, Index.Abs, WellFormed;
      RestIsPlaced(Image(), o);
      if o.side.Bid? {
        bids := PushBack(Bid, bids, o.price, o.id);
      } else {
        asks := PushBack(Ask, asks, o.price, o.id);
      }
      orders := orders[o.id := o];
      assert Image() == Rest(old(Image()), o);
    }

    /** Withdraw an order for its owner. */
    method CancelOrder(orderId: OrderId, user: UserId) returns (r: Result<Order>)
      requires Valid()
      modifies this
      ensures Valid()
      ensures match Cancel(old(Abs()), orderId, user)
              case Err(error) => r == Err(error) && Image() == old(Image()) && Abs() == old(Abs())
              case Ok(removal) => r == Ok(removal.order) && Abs() == removal.book
    {
      hide Index.Coherent, Index.Abs;
      OrdersAreLookups(Image(), orderId);
      if orderId !in orders {
        return Err(OrderNotFound);
      }
      var o := orders[orderId];
      if o.user != user {
        return Err(NotOrderOwner);
      }
      WithdrawIsCancel(Image(), orderId);
      assert orderId in orders && Lists(LevelsOf(o.side), orderId);  // its level and its place there exist
      orders := orders - {orderId};
      if o.side.Bid? {
        bids := TakeOut(bids, o.price, orderId);
      } else {
        asks := TakeOut(asks, o.price, orderId);
      }
      assert Image() == Withdraw(old(Image()), o);
      r := Ok(o);
    }

    // ----- Predicting an execution -----

    /** Whether enough rests within the limit to fill the whole quantity. */
    method CanFillQuantity(side: Side, price: Price, qty: Quantity) returns (r: bool)
      requires Valid()
      ensures r <==> Consume(Abs().SideOf(side.Opposite()), Some(price), qty).left == 0
    {
      LinkedSide(Image(), side.Opposite());
      QuoteIsExecution(Abs().SideOf(side.Opposite()), Some(price), qty);
      r := WalkCanFill(side.Opposite(), LevelsOf(side.Opposite()), orders, price, qty);
    }

    /** The exact cost and quantity of the market buy that would follow. */
    method QuoteCostForMarketBuy(qty: Quantity, worst: Option<Price>) returns (cost: nat, fillable: Quantity)
      requires Valid()
      ensures cost == FilledCost(Consume(Abs().asks, worst, qty).fills)
      ensures fillable == FilledQty(Consume(Abs().asks, worst, qty).fills)
    {
      LinkedSide(Image(), Ask);
      QuoteIsExecution(Abs().asks, worst, qty);
      cost, fillable := WalkQuote(Ask, asks, orders, qty, worst);
    }

    /** The exact quantity of the market sell that would follow. */
    method FillableQtyForMarketSell(qty: Quantity, worst: Option<Price>) returns (fillable: Quantity)
      requires Valid()
      ensures fillable == FilledQty(Consume(Abs().bids, worst, qty).fills)
    {
      LinkedSide(Image(), Bid);
      QuoteIsExecution(Abs().bids, worst, qty);
      fillable := WalkFillable(Bid, bids, orders, qty, worst);
    }
  }

  lemma FrontMaker(ix: Index, side: Side)
    requires ix.Coherent() && ix.LevelsOf(side) != []
    ensures ix.LevelsOf(side)[0].ids != []
    ensures var id := ix.LevelsOf(side)[0].ids[0];
            var q := ix.Abs().SideOf(side);
            && id in ix.orders && q != [] && q[0] == ix.orders[id] && ix.orders[id].id == id
            && ix.orders[id].side == side && ix.orders[id].price == ix.LevelsOf(side)[0].price
            && ix.orders[id].remaining > 0
  {
    FrontOrder(ix, side);
    CoherentSide(ix, side);
  }

  lemma IssuingKeepsCoherent(ix: Index, id: OrderId)
    requires ix.Coherent()
    ensures ix.IssuedUpTo(id).Coherent() && ix.IssuedUpTo(id).Abs() == ix.Abs().IssuedUpTo(id)
  {
    var after := ix.IssuedUpTo(id);
    assert forall o :: InBook(after.Abs(), o) <==> InBook(ix.Abs(), o);
  }

  /** The facts that resting the remainder of a limit order relies on. */
  lemma PlacedBook(ix: Index, id: OrderId, user: UserId, side: Side, price: Price, qty: Quantity, tif: TimeInForce)
    requires ix.Coherent() && ix.nextOrderId <= id
    ensures WellFormed(PlaceLimit(ix.Abs(), id, user, side, price, qty, tif).book)
    ensures var out := Consume(ix.Abs().SideOf(side.Opposite()), Some(price), qty);
            !ix.Abs().IssuedUpTo(id).WithSide(side.Opposite(), out.rest).Has(id)
  {
    PlacingKeepsWellFormed(ix.Abs(), id, user, side, price, qty, tif);
    ExecutionLookup(ix.Abs(), id, user, side, Some(price), qty, id);
    LookupIsSound(ix.Abs(), id);
  }

  lemma RestIsPlaced(ix: Index, o: Order)
    requires ix.Coherent() && !ix.Abs().Has(o.id)
    requires WellFormed(ix.Abs().WithSide(o.side, Insert(ix.Abs().SideOf(o.side), o)))
    ensures Rest(ix, o).Coherent()
    ensures Rest(ix, o).Abs() == ix.Abs().WithSide(o.side, Insert(ix.Abs().SideOf(o.side), o))
  {
    OrdersAreLookups(ix, o.id);
    RestIsInsert(ix, o);
  }

  lemma WithdrawIsCancel(ix: Index, id: OrderId)
    requires ix.Coherent() && id in ix.orders
    ensures var o := ix.orders[id];
            && o.id == id && Lists(ix.LevelsOf(o.side), id)
            && Withdraw(ix, o).Coherent()
            && Cancel(ix.Abs(), id, o.user) == Ok(Removal(Withdraw(ix, o).Abs(), o))
  {
    var o := ix.orders[id];
    OrdersAreLookups(ix, id);
    CoherentSide(ix, o.side);
    WithdrawIsRemove(ix, o);
    CancellingKeepsWellFormed(ix.Abs(), id, o.user);
  }

  lemma UpdateThenRemove(m: OrderMap, id: OrderId, o: Order)
    ensures m[id := o] - {id} == m - {id}
  {
  }

  // ----- The walks -----

  datatype Quote = Quote(cost: nat, qty: Quantity)

  /** What walking the queue adds up to: nothing is matched, only counted. */
  function QuoteOf(q: seq<Order>, limit: Option<Price>, qty: Quantity): Quote {
    if qty == 0 || q == [] || !Reaches(limit, q[0]) then
      Quote(0, 0)
    else
      var take := Min(qty, q[0].remaining);
      var behind := QuoteOf(q[1..], limit, qty - take);
      Quote(Cost(q[0].price, take) + behind.cost, take + behind.qty)
  }

  /** The count of a walk is exactly what the execution of the same order would fill. */
  lemma {:induction false} QuoteIsExecution(q: seq<Order>, limit: Option<Price>, qty: Quantity)
    ensures var out := Consume(q, limit, qty);
            QuoteOf(q, limit, qty) == Quote(FilledCost(out.fills), FilledQty(out.fills)) &&
            out.left == qty - QuoteOf(q, limit, qty).qty
  {
    hide Cost, Reaches;
    if qty == 0 || q == [] || !Reaches(limit, q[0]) {
    } else {
      var take := Min(qty, q[0].remaining);
      QuoteIsExecution(q[1..], limit, qty - take);
      var fills := Consume(q, limit, qty).fills;
      if qty < q[0].remaining {
        assert fills[1..] == [];
        assert FilledCost(fills[1..]) == 0 && FilledQty(fills[1..]) == 0;
      } else {
        assert fills[1..] == Consume(q[1..], limit, qty - take).fills;
      }
    }
  }

  method WalkCanFill(side: Side, levels: seq<Level>, orders: OrderMap, price: Price, qty: Quantity) returns (r: bool)
    requires LevelsIndexed(side, levels, orders)
    ensures r <==> QuoteOf(Flatten(levels, orders), Some(price), qty).qty == qty
  {
    hide LevelsIndexed, Flatten, QuoteOf, QuoteFrom;
    ghost var q, n, limit := Flatten(levels, orders), 0, Some(price);
    WalkStarts(q, limit, qty);
    if qty == 0 {
      return true;
    }
    var available := 0;
    for i := 0 to |levels|
      invariant n == Offset(levels, i) <= |q| && available < qty
      invariant QuoteOf(q, limit, qty).qty == available + QuoteFrom(q, n, limit, qty - available).qty
    {
      FlattenAt(side, levels, orders, i, 0);
      if BetterPrice(side, price, levels[i].price) {
        WalkStops(q, n, limit, qty - available);
        return false;
      }
      for j := 0 to |levels[i].ids|
        invariant n == Offset(levels, i) + j <= |q| && available < qty
        invariant QuoteOf(q, limit, qty).qty == available + QuoteFrom(q, n, limit, qty - available).qty
      {
        FlattenAt(side, levels, orders, i, j);
        WalkStep(q, n, limit, qty - available);
        n := n + 1;
        available := available + orders[levels[i].ids[j]].remaining;
        if available >= qty {
          WalkStops(q, n, limit, 0);
          return true;
        }
      }
    }
    FlattenLength(side, levels, orders);
    WalkStops(q, n, limit, qty - available);
    r := false;
  }

  method WalkQuote(side: Side, levels: seq<Level>, orders: OrderMap, wanted: Quantity, worst: Option<Price>)
    returns (cost: nat, fillable: Quantity)
    requires LevelsIndexed(side, levels, orders)
    ensures cost == QuoteOf(Flatten(levels, orders), worst, wanted).cost
    ensures fillable == QuoteOf(Flatten(levels, orders), worst, wanted).qty
  {
    hide LevelsIndexed, Flatten, QuoteOf, QuoteFrom, Cost;
    var qty := wanted;
    cost, fillable := 0, 0;
    ghost var q, n := Flatten(levels, orders), 0;
    WalkStarts(q, worst, wanted);
    for i := 0 to |levels|
      invariant n == Offset(levels, i) <= |q|
      invariant QuoteOf(q, worst, wanted).cost == cost + QuoteFrom(q, n, worst, qty).cost
      invariant QuoteOf(q, worst, wanted).qty == fillable + QuoteFrom(q, n, worst, qty).qty
    {
      FlattenAt(side, levels, orders, i, 0);
      if worst.Some? && BetterPrice(side, worst.value, levels[i].price) {
        WalkStops(q, n, worst, qty);
        return;
      }
      for j := 0 to |levels[i].ids|
        invariant n == Offset(levels, i) + j <= |q|
        invariant QuoteOf(q, worst, wanted).cost == cost + QuoteFrom(q, n, worst, qty).cost
        invariant QuoteOf(q, worst, wanted).qty == fillable + QuoteFrom(q, n, worst, qty).qty
      {
        FlattenAt(side, levels, orders, i, j);
        WalkStep(q, n, worst, qty);
        n := n + 1;
        var take := Min(qty, orders[levels[i].ids[j]].remaining);
        cost, fillable, qty := cost + Cost(levels[i].price, take), fillable + take, qty - take;
        if qty == 0 {
          WalkStops(q, n, worst, 0);
          return;
        }
      }
    }
    FlattenLength(side, levels, orders);
    WalkStops(q, n, worst, qty);
  }

  method WalkFillable(side: Side, levels: seq<Level>, orders: OrderMap, wanted: Quantity, worst: Option<Price>)
    returns (fillable: Quantity)
    requires LevelsIndexed(side, levels, orders)
    ensures fillable == QuoteOf(Flatten(levels, orders), worst, wanted).qty
  {
    hide LevelsIndexed, Flatten, QuoteOf, QuoteFrom;
    var qty := wanted;
    fillable := 0;
    ghost var q, n := Flatten(levels, orders), 0;
    WalkStarts(q, worst, wanted);
    for i := 0 to |levels|
      invariant n == Offset(levels, i) <= |q|
      invariant QuoteOf(q, worst, wanted).qty == fillable + QuoteFrom(q, n, worst, qty).qty
    {
      FlattenAt(side, levels, orders, i, 0);
      if worst.Some? && BetterPrice(side, worst.value, levels[i].price) {
        WalkStops(q, n, worst, qty);
        return;
      }
      for j := 0 to |levels[i].ids|
        invariant n == Offset(levels, i) + j <= |q|
        invariant QuoteOf(q, worst, wanted).qty == fillable + QuoteFrom(q, n, worst, qty).qty
      {
        FlattenAt(side, levels, orders, i, j);
        WalkStep(q, n, worst, qty);
        n := n + 1;
        var take := Min(qty, orders[levels[i].ids[j]].remaining);
        fillable, qty := fillable + take, qty - take;
        if qty == 0 {
          WalkStops(q, n, worst, 0);
          return;
        }
      }
    }
    FlattenLength(side, levels, orders);
    WalkStops(q, n, worst, qty);
  }

  ghost function QuoteFrom(q: seq<Order>, n: nat, limit: Option<Price>, qty: Quantity): Quote
    requires n <= |q|
  {
    QuoteOf(q[n..], limit, qty)
  }

  lemma WalkStarts(q: seq<Order>, limit: Option<Price>, qty: Quantity)
    ensures QuoteFrom(q, 0, limit, qty) == QuoteOf(q, limit, qty)
    ensures qty == 0 ==> QuoteOf(q, limit, qty) == Quote(0, 0)
  {
    assert q[0..] == q;
  }

  /** A walk ends where nothing is wanted, nothing is left or the limit is passed. */
  lemma WalkStops(q: seq<Order>, n: nat, limit: Option<Price>, qty: Quantity)
    requires n <= |q| && (qty == 0 || n == |q| || !Reaches(limit, q[n]))
    ensures QuoteFrom(q, n, limit, qty) == Quote(0, 0)
  {
  }

  /** Walking past an order within the limit takes as much of it as is still needed. */
  lemma WalkStep(q: seq<Order>, n: nat, limit: Option<Price>, qty: Quantity)
    requires n < |q| && Reaches(limit, q[n])
    ensures var take := Min(qty, q[n].remaining);
            && QuoteFrom(q, n, limit, qty).cost == Cost(q[n].price, take) + QuoteFrom(q, n + 1, limit, qty - take).cost
            && QuoteFrom(q, n, limit, qty).qty == take + QuoteFrom(q, n + 1, limit, qty - take).qty
  {
    assert q[n..][1..] == q[n + 1..];
  }

  /** How many ids the first i levels hold. */
  ghost function Offset(levels: seq<Level>, i: nat): nat
    requires i <= |levels|
  {
    if i == 0 then 0 else Offset(levels, i - 1) + |levels[i - 1].ids|
  }

  lemma {:induction false} OffsetOfTail(levels: seq<Level>, i: nat)
    requires 0 < i <= |levels|
    ensures Offset(levels, i) == |levels[0].ids| + Offset(levels[1..], i - 1)
  {
    if i > 1 {
      OffsetOfTail(levels, i - 1);
    }
  }

  /** The id a walk has reached is the order at that offset of the queue. */
  lemma {:induction false} FlattenAt(side: Side, levels: seq<Level>, orders: OrderMap, i: nat, j: nat)
    requires LevelsIndexed(side, levels, orders) && i < |levels| && (j == 0 || j < |levels[i].ids|)
    ensures j < |levels[i].ids| && levels[i].ids[j] in orders
    ensures var q, n := Flatten(levels, orders), Offset(levels, i) + j;
            n < |q| && q[n] == orders[levels[i].ids[j]] && q[n].side == side && q[n].price == levels[i].price
  {
    assert LevelIndexed(side, levels[i], orders);
    QueueOfIndexed(side, levels[0], levels[0].ids, orders);
    if i > 0 {
      OffsetOfTail(levels, i);
      FlattenAt(side, levels[1..], orders, i - 1, j);
    }
  }

  lemma {:induction false} FlattenLength(side: Side, levels: seq<Level>, orders: OrderMap)
    requires LevelsIndexed(side, levels, orders)
    ensures |Flatten(levels, orders)| == Offset(levels, |levels|)
  {
    if levels != [] {
      QueueOfIndexed(side, levels[0], levels[0].ids, orders);
      FlattenLength(side, levels[1..], orders);
      OffsetOfTail(levels, |levels|);
    }
  }
}
