/**
 * Properties of resting orders that survive a loss of quantity: if every limit order that is placed has such a
 * property, so does every order that ever rests.
 */
module Resting {
  import opened Types
  import opened Fees
  import opened Matching
  import opened Queues
  import opened Books
  import opened Engine
  import opened Claims
  import opened Solvency
  import opened Runs

  type Property = Order -> bool

  ghost predicate SurvivesFills(p: Property) {
    forall o: Order, qty: Quantity :: p(o) && qty <= o.remaining ==> p(o.(remaining := qty))
  }

  ghost predicate AllHave(p: Property, q: seq<Order>) {
    forall o :: o in q ==> p(o)
  }

  ghost predicate RestingHave(p: Property, e: Engine) {
    forall a: Asset, side: Side :: AllHave(p, e.BookOf(a).SideOf(side))
  }

  /** A command that places a limit order places one with the property, whatever its id. */
  ghost predicate PlacesOnly(p: Property, c: Command) {
    c.PlaceOrder? && c.msg.kind.Limit? && c.msg.price > 0 && c.msg.qty > 0 ==>
      forall id: OrderId, side: Side :: p(Order(id, c.msg.user, side, c.msg.price, c.msg.qty))
  }

  lemma ConsumeKeepsProperty(p: Property, side: Side, q: seq<Order>, limit: Option<Price>, qty: Quantity)
    requires SurvivesFills(p) && IsQueue(side, q) && AllHave(p, q)
    ensures AllHave(p, Consume(q, limit, qty).rest)
  {
    forall o | o in Consume(q, limit, qty).rest ensures p(o) {
      ConsumeOrigin(side, q, limit, qty, o);
      var was :| was in q && o == was.(remaining := o.remaining) && o.remaining <= was.remaining;
      assert p(was);
    }
  }

  lemma InsertKeepsProperty(p: Property, q: seq<Order>, o: Order)
    requires AllHave(p, q) && p(o)
    ensures AllHave(p, Insert(q, o))
  {
    forall x | x in Insert(q, o) ensures p(x) {
      InsertedIn(q, o, x);
    }
  }

  lemma SettlementKeepsProperty(p: Property, e: Engine, s: Settlement)
    requires SurvivesFills(p) && BooksSound(e) && RestingHave(p, e) && Balanced(e, s)
    requires s.x.resting.Some? ==> p(s.x.resting.value)
    ensures RestingHave(p, s.Apply(e))
  {
    hide AllHave, Settle, WellFormed;
    SettleAccounts(e, s);
    var b, opp := e.BookOf(s.asset), s.side.Opposite();
    assert AllHave(p, b.SideOf(s.side)) && AllHave(p, b.SideOf(opp));
    QueueOfSide(e, s.asset, opp);
    ConsumeKeepsProperty(p, opp, b.SideOf(opp), s.limit, s.matched);
    if s.x.resting.Some? {
      InsertKeepsProperty(p, b.SideOf(s.side), s.x.resting.value);
    }
    forall a: Asset, side: Side ensures AllHave(p, s.Apply(e).BookOf(a).SideOf(side)) {
      assert AllHave(p, e.BookOf(a).SideOf(side));
    }
  }

  lemma QueueOfSide(e: Engine, asset: Asset, side: Side)
    requires BooksSound(e)
    ensures IsQueue(side, e.BookOf(asset).SideOf(side))
  {
    assert WellFormed(e.BookOf(asset));
  }

  lemma RemovalKeepsProperty(p: Property, b: Book, id: OrderId, user: UserId, side: Side)
    requires WellFormed(b) && AllHave(p, b.SideOf(side)) && Cancel(b, id, user).Ok?
    ensures AllHave(p, Cancel(b, id, user).value.book.SideOf(side))
  {
    hide WellFormed;
    LookupIsSound(b, id);
    var o := b.Lookup(id).value;
    if side == o.side {
      var k := RemovePosition(b.SideOf(side), id);
    }
  }

  lemma CancelKeepsProperty(p: Property, e: Engine, a: Asset, id: OrderId, user: UserId)
    requires BooksSound(e) && RestingHave(p, e) && Cancel(e.BookOf(a), id, user).Ok?
    ensures RestingHave(p, CancelIn(e, a, Cancel(e.BookOf(a), id, user).value).state)
  {
    hide AllHave, Cancel, WellFormed, CancelIn;
    var removal := Cancel(e.BookOf(a), id, user).value;
    CancelShape(e, a, removal);
    assert WellFormed(e.BookOf(a));
    forall m: Asset, side: Side ensures AllHave(p, CancelIn(e, a, removal).state.BookOf(m).SideOf(side)) {
      assert AllHave(p, e.BookOf(m).SideOf(side));
      RemovalKeepsProperty(p, e.BookOf(a), id, user, side);
    }
  }

  lemma RestingRemainderHas(p: Property, e: Engine, m: OrderMsg)
    requires SurvivesFills(p) && BooksSound(e) && PlacesOnly(p, PlaceOrder(m)) && SettlementOf(e, m).Some?
    ensures var x := SettlementOf(e, m).value.x; x.resting.Some? ==> p(x.resting.value)
  {
    hide WellFormed;
    if m.kind.Limit? {
      var asset, side := m.asset.value, m.side.value;
      assert WellFormed(e.BookOf(asset));
      LimitIsExecution(e.BookOf(asset), e.nextId, m.user, side, m.price, m.qty, m.tif);
      FilledPlusLeft(e.BookOf(asset).SideOf(side.Opposite()), Some(m.price), m.qty);
      assert p(Order(e.nextId, m.user, side, m.price, m.qty));
    }
  }

  lemma CommandKeepsProperty(p: Property, e: Engine, c: Command)
    requires SurvivesFills(p) && Inv(e) && RestingHave(p, e) && PlacesOnly(p, c)
    ensures RestingHave(p, Dispatch(e, c).state)
  {
    hide SurvivesFills, PlacesOnly, Dispatch, Balanced, RestingHave, Settlement.Apply, SettlementOf;
    CommandEffect(e, c);
    if c.Reset? {
      InitiallyNoneRest(p, e);
    } else if SettlementIn(e, c).Some? {
      RestingRemainderHas(p, e, c.msg);
      SettlementKeepsProperty(p, e, SettlementIn(e, c).value);
    } else if CancelledIn(e, c).Some? {
      CancelKeepsProperty(p, e, CancelledIn(e, c).value, c.orderId, c.user);
    } else {
      SameBooksHave(p, e, Dispatch(e, c).state);
    }
  }

  lemma InitiallyNoneRest(p: Property, e: Engine)
    ensures RestingHave(p, Dispatch(e, Reset).state)
    ensures RestingHave(p, Initial(e.fees))
  {
  }

  lemma SameBooksHave(p: Property, e: Engine, after: Engine)
    requires RestingHave(p, e) && after == e.(accounts := after.accounts)
    ensures RestingHave(p, after)
  {
    forall a: Asset, side: Side ensures AllHave(p, after.BookOf(a).SideOf(side)) {
      assert AllHave(p, e.BookOf(a).SideOf(side)) && after.BookOf(a) == e.BookOf(a);
    }
  }

  /** What every placed limit order has and no fill takes away, every order resting in a reachable state has. */
  lemma {:induction false} RunKeepsProperty(p: Property, fees: FeeSchedule, log: seq<Command>)
    requires SurvivesFills(p)
    requires forall i :: 0 <= i < |log| ==> PlacesOnly(p, log[i])
    ensures RestingHave(p, Run(Initial(fees), log))
    decreases |log|
  {
    hide SurvivesFills, PlacesOnly, Dispatch, RestingHave, Inv;
    if log == [] {
      InitiallyNoneRest(p, Initial(fees));
    } else {
      var before := log[..|log| - 1];
      RunKeepsProperty(p, fees, before);
      InitialInv(fees);
      RunKeepsInv(Initial(fees), before);
      CommandKeepsProperty(p, Run(Initial(fees), before), log[|log| - 1]);
    }
  }

  // ----- Prices -----

  function HasPrice(): Property {
    (o: Order) => o.price > 0
  }

  /** No order without a price ever rests. */
  lemma RestingOrdersArePriced(fees: FeeSchedule, log: seq<Command>)
    ensures RestingHave(HasPrice(), Run(Initial(fees), log))
  {
    RunKeepsProperty(HasPrice(), fees, log);
  }
}
