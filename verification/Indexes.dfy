/**
 * The three structures of a book together - two sides of levels and the order map - as one value. Coherence
 * says that they agree; each edit below keeps them coherent and has the intended effect on the queues.
 */
module Indexes {
  import opened Types
  import opened Matching
  import opened Queues
  import opened Books
  import opened Levels

  datatype Index = Index(nextOrderId: OrderId, bids: seq<Level>, asks: seq<Level>, orders: OrderMap) {
    function LevelsOf(side: Side): seq<Level> {
      if side.Bid? then bids else asks
    }

    function WithLevels(side: Side, levels: seq<Level>): Index {
      if side.Bid? then this.(bids := levels) else this.(asks := levels)
    }

    function QueueAt(side: Side): seq<Order> {
      Flatten(LevelsOf(side), orders)
    }

    /** Only the id counter moves past the id. */
    function IssuedUpTo(id: OrderId): Index {
      this.(nextOrderId := if nextOrderId < id + 1 then id + 1 else nextOrderId)
    }

    /** The book this index represents. */
    function Abs(): Book {
      Book(Flatten(bids, orders), Flatten(asks, orders), nextOrderId)
    }

    /** Levels and map refer to each other: every id at its own side and price, and no level is empty. */
    ghost predicate Linked() {
      && Indexed(Bid, bids, orders)
      && Indexed(Ask, asks, orders)
      && (forall id :: id in orders ==> orders[id].id == id && Lists(LevelsOf(orders[id].side), id))
    }

    /** Linked, and the queues are in price-time order with every order once, live and uncrossed. */
    ghost predicate Coherent() {
      Linked() && WellFormed(Abs())
    }
  }

  lemma LinkedSide(ix: Index, side: Side)
    requires ix.Linked()
    ensures Indexed(side, ix.LevelsOf(side), ix.orders)
    ensures ix.Abs().SideOf(side) == ix.QueueAt(side)
  {
  }

  lemma CoherentSide(ix: Index, side: Side)
    requires ix.Coherent()
    ensures IsQueue(side, ix.QueueAt(side))
    ensures ix.Abs().SideOf(side) == ix.QueueAt(side)
  {
  }

  lemma ListedOrder(ix: Index, side: Side, id: OrderId)
    requires ix.Linked() && Lists(ix.LevelsOf(side), id)
    ensures id in ix.orders && ix.orders[id].id == id && ix.orders[id].side == side
    ensures ix.orders[id] in ix.QueueAt(side)
  {
    LinkedSide(ix, side);
    FlattenComplete(side, ix.LevelsOf(side), ix.orders, id);
    FlattenSound(side, ix.LevelsOf(side), ix.orders, ix.orders[id]);
  }

  /** The order map answers exactly what searching the queues would. */
  lemma OrdersAreLookups(ix: Index, id: OrderId)
    requires ix.Coherent()
    ensures ix.Abs().Lookup(id) == if id in ix.orders then Some(ix.orders[id]) else None
  {
    if id in ix.orders {
      ListedOrder(ix, ix.orders[id].side, id);
      LookupIsComplete(ix.Abs(), ix.orders[id]);
    } else if ix.Abs().Has(id) {
      LookupIsSound(ix.Abs(), id);
      var o := ix.Abs().Lookup(id).value;
      LinkedSide(ix, o.side);
      FlattenSound(o.side, ix.LevelsOf(o.side), ix.orders, o);
    }
  }

  lemma OnOneSide(ix: Index, side: Side, id: OrderId)
    requires ix.Linked() && id in ix.orders && ix.orders[id].side == side
    ensures !Lists(ix.LevelsOf(side.Opposite()), id)
  {
    if Lists(ix.LevelsOf(side.Opposite()), id) {
      ListedOrder(ix, side.Opposite(), id);
    }
  }

  lemma UnknownIsUnlisted(ix: Index, side: Side, id: OrderId)
    requires ix.Linked() && id !in ix.orders
    ensures !Lists(ix.LevelsOf(side), id)
  {
    if Lists(ix.LevelsOf(side), id) {
      ListedOrder(ix, side, id);
    }
  }

  // ----- Putting an edit together -----

  /** The two maps differ at most in one order. */
  ghost predicate SameExcept(was: OrderMap, now: OrderMap, id: OrderId) {
    forall x :: x != id ==> (x in now <==> x in was) && (x in now ==> now[x] == was[x])
  }

  /** A side that does not list the edited order keeps its queue. */
  lemma UntouchedSide(ix: Index, side: Side, now: OrderMap, id: OrderId)
    requires ix.Linked() && !Lists(ix.LevelsOf(side), id) && SameExcept(ix.orders, now, id)
    ensures Flatten(ix.LevelsOf(side), now) == ix.QueueAt(side)
    ensures Indexed(side, ix.LevelsOf(side), now)
  {
    LinkedSide(ix, side);
    forall x | Lists(ix.LevelsOf(side), x) ensures x in ix.orders {
      ListedOrder(ix, side, x);
    }
    FlattenDepends(ix.LevelsOf(side), ix.orders, now);
    IndexedDepends(side, ix.LevelsOf(side), ix.orders, now);
  }

  /** An edit of one side, from the pieces it has to establish. */
  lemma EditedSide(ix: Index, side: Side, after: Index, q: seq<Order>)
    requires after.nextOrderId == ix.nextOrderId
    requires Indexed(side, after.LevelsOf(side), after.orders) && after.QueueAt(side) == q
    requires Indexed(side.Opposite(), after.LevelsOf(side.Opposite()), after.orders)
    requires after.QueueAt(side.Opposite()) == ix.QueueAt(side.Opposite())
    requires forall id :: id in after.orders ==>
               after.orders[id].id == id && Lists(after.LevelsOf(after.orders[id].side), id)
    ensures after.Linked() && after.Abs() == ix.Abs().WithSide(side, q)
  {
  }

  // ----- Filling the front order -----

  /** What one fill of the front order leaves of the queue. */
  function AfterFill(q: seq<Order>, qty: Quantity): seq<Order> {
    if q != [] && qty < q[0].remaining then
      [q[0].(remaining := q[0].remaining - qty)] + q[1..]
    else if q != [] then q[1..]
    else []
  }

  lemma AfterFillIsWellFormed(b: Book, side: Side, qty: Quantity)
    requires WellFormed(b) && b.SideOf(side) != []
    requires 0 < qty <= b.SideOf(side)[0].remaining
    ensures WellFormed(b.WithSide(side, AfterFill(b.SideOf(side), qty)))
  {
    var q := b.SideOf(side);
    assert Consume(q, None, qty).rest == AfterFill(q, qty);
    assert InBook(b, q[0]);
    ConsumedBookIsWellFormed(b, 0, side.Opposite(), None, qty);
    assert b.IssuedUpTo(0) == b;
  }

  /** The id at the front of a side, listed nowhere else. */
  ghost predicate IsFront(ix: Index, side: Side, id: OrderId) {
    var levels := ix.LevelsOf(side);
    && levels != [] && levels[0].ids != [] && levels[0].ids[0] == id
    && id in ix.orders && ix.orders[id].id == id && ix.orders[id].side == side
    && ix.QueueAt(side) != [] && ix.QueueAt(side)[0] == ix.orders[id]
    && !Lists(PopFront(levels), id)
  }

  lemma FrontOrder(ix: Index, side: Side)
    requires ix.Coherent() && ix.LevelsOf(side) != []
    ensures ix.LevelsOf(side)[0].ids != []
    ensures var id := ix.LevelsOf(side)[0].ids[0];
            IsFront(ix, side, id) && ix.orders[id].price == ix.LevelsOf(side)[0].price && ix.orders[id].remaining > 0
  {
    var levels := ix.LevelsOf(side);
    LinkedSide(ix, side);
    CoherentSide(ix, side);
    FrontOfFlatten(side, levels, ix.orders);
    assert LevelIndexed(side, levels[0], ix.orders);
    FrontListedOnce(side, levels, ix.orders);
  }

  lemma FrontListedOnce(side: Side, levels: seq<Level>, orders: OrderMap)
    requires Indexed(side, levels, orders) && levels != []
    requires IsQueue(side, Flatten(levels, orders))
    ensures levels[0].ids != [] && !Lists(PopFront(levels), levels[0].ids[0])
  {
    var id := levels[0].ids[0];
    FrontOfFlatten(side, levels, orders);
    PopFrontFlatten(side, levels, orders);
    HeadIsUnique(side, Flatten(levels, orders));
    if Lists(PopFront(levels), id) {
      FlattenComplete(side, PopFront(levels), orders, id);
      FindSound(Flatten(levels, orders)[1..], id);
    }
  }

  /** Take quantity from an order in the map. */
  function Reduce(ix: Index, id: OrderId, qty: Quantity): Index
    requires id in ix.orders && qty <= ix.orders[id].remaining
  {
    ix.(orders := ix.orders[id := ix.orders[id].(remaining := ix.orders[id].remaining - qty)])
  }

  lemma ReducingKeepsIndexed(ix: Index, side: Side, id: OrderId, qty: Quantity)
    requires ix.Linked() && id in ix.orders && qty <= ix.orders[id].remaining
    ensures Indexed(side, ix.LevelsOf(side), Reduce(ix, id, qty).orders)
  {
    LinkedSide(ix, side);
    forall x | Lists(ix.LevelsOf(side), x) ensures x in ix.orders {
      ListedOrder(ix, side, x);
    }
    IndexedDepends(side, ix.LevelsOf(side), ix.orders, Reduce(ix, id, qty).orders);
  }

  /** On the levels: only the front order changes. */
  lemma ReducedFlatten(levels: seq<Level>, orders: OrderMap, o: Order)
    requires levels != [] && levels[0].ids != [] && o.id == levels[0].ids[0] && o.id in orders
    requires !Lists(PopFront(levels), o.id)
    ensures Flatten(levels, orders) != []
    ensures Flatten(levels, orders[o.id := o]) == [o] + Flatten(levels, orders)[1..]
  {
    FrontAndRest(levels, orders);
    FrontAndRest(levels, orders[o.id := o]);
    FlattenDepends(PopFront(levels), orders, orders[o.id := o]);
  }

  lemma ReducedSide(ix: Index, side: Side, id: OrderId, qty: Quantity)
    requires IsFront(ix, side, id) && qty < ix.orders[id].remaining
    ensures Reduce(ix, id, qty).QueueAt(side) == AfterFill(ix.QueueAt(side), qty)
  {
    var o := ix.orders[id].(remaining := ix.orders[id].remaining - qty);
    ReducedFlatten(ix.LevelsOf(side), ix.orders, o);
    assert AfterFill(ix.QueueAt(side), qty) == [o] + ix.QueueAt(side)[1..];
  }

  lemma ReduceFrontOrder(ix: Index, side: Side, id: OrderId, qty: Quantity)
    requires ix.Linked() && IsFront(ix, side, id) && qty < ix.orders[id].remaining
    ensures Reduce(ix, id, qty).Linked()
    ensures Reduce(ix, id, qty).Abs() == ix.Abs().WithSide(side, AfterFill(ix.QueueAt(side), qty))
  {
    var after := Reduce(ix, id, qty);
    ReducedSide(ix, side, id, qty);
    OnOneSide(ix, side, id);
    UntouchedSide(ix, side.Opposite(), after.orders, id);
    ReducingKeepsIndexed(ix, side, id, qty);
    forall x | x in after.orders
      ensures after.orders[x].id == x && Lists(after.LevelsOf(after.orders[x].side), x)
    {
      assert after.orders[x].side == ix.orders[x].side;
    }
    EditedSide(ix, side, after, AfterFill(ix.QueueAt(side), qty));
  }

  /** Drop the order at the front of a side from the levels and from the map. */
  function RemoveFront(ix: Index, side: Side): Index
    requires ix.LevelsOf(side) != [] && ix.LevelsOf(side)[0].ids != []
  {
    ix.(orders := ix.orders - {ix.LevelsOf(side)[0].ids[0]}).WithLevels(side, PopFront(ix.LevelsOf(side)))
  }

  lemma RemovedFlatten(side: Side, levels: seq<Level>, orders: OrderMap, id: OrderId)
    requires Indexed(side, levels, orders) && levels != [] && levels[0].ids != [] && id == levels[0].ids[0]
    requires !Lists(PopFront(levels), id)
    ensures Flatten(levels, orders) != []
    ensures Flatten(PopFront(levels), orders - {id}) == Flatten(levels, orders)[1..]
    ensures Indexed(side, PopFront(levels), orders - {id})
  {
    FrontOfFlatten(side, levels, orders);
    PopFrontFlatten(side, levels, orders);
    FlattenDepends(PopFront(levels), orders, orders - {id});
    forall x | Lists(PopFront(levels), x) ensures x in orders - {id} {
      FlattenComplete(side, PopFront(levels), orders, x);
    }
    IndexedDepends(side, PopFront(levels), orders, orders - {id});
  }

  lemma RemoveFrontOrder(ix: Index, side: Side, id: OrderId)
    requires ix.Linked() && IsFront(ix, side, id)
    ensures RemoveFront(ix, side).Linked()
    ensures RemoveFront(ix, side).Abs() == ix.Abs().WithSide(side, ix.QueueAt(side)[1..])
  {
    var after := RemoveFront(ix, side);
    LinkedSide(ix, side);
    RemovedFlatten(side, ix.LevelsOf(side), ix.orders, id);
    OnOneSide(ix, side, id);
    UntouchedSide(ix, side.Opposite(), after.orders, id);
    forall x | x in after.orders
      ensures after.orders[x].id == x && Lists(after.LevelsOf(after.orders[x].side), x)
    {
      PopFrontLists(ix.LevelsOf(side), x);
    }
    EditedSide(ix, side, after, ix.QueueAt(side)[1..]);
  }

  /** The index after a fill of the front order: reduced, or removed when nothing remains of it. */
  function FillFront(ix: Index, side: Side, qty: Quantity): Index
    requires ix.LevelsOf(side) != [] && ix.LevelsOf(side)[0].ids != []
    requires ix.LevelsOf(side)[0].ids[0] in ix.orders
  {
    var id := ix.LevelsOf(side)[0].ids[0];
    if qty < ix.orders[id].remaining then Reduce(ix, id, qty) else RemoveFront(ix, side)
  }

  /** A fill of the front order keeps the three structures coherent and is one step of the execution. */
  lemma FillFrontIsFill(ix: Index, side: Side, qty: Quantity)
    requires ix.Coherent() && ix.LevelsOf(side) != [] && ix.LevelsOf(side)[0].ids != []
    requires ix.LevelsOf(side)[0].ids[0] in ix.orders
    requires 0 < qty <= ix.orders[ix.LevelsOf(side)[0].ids[0]].remaining
    ensures FillFront(ix, side, qty).Coherent()
    ensures FillFront(ix, side, qty).Abs() == ix.Abs().WithSide(side, AfterFill(ix.Abs().SideOf(side), qty))
  {
    var id := ix.LevelsOf(side)[0].ids[0];
    FrontOrder(ix, side);
    CoherentSide(ix, side);
    AfterFillIsWellFormed(ix.Abs(), side, qty);
    if qty < ix.orders[id].remaining {
      ReduceFrontOrder(ix, side, id, qty);
    } else {
      RemoveFrontOrder(ix, side, id);
    }
  }

  // ----- Resting -----

  function Rest(ix: Index, o: Order): Index {
    ix.(orders := ix.orders[o.id := o])
      .WithLevels(o.side, PushBack(o.side, ix.LevelsOf(o.side), o.price, o.id))
  }

  lemma ListsSplit(levels: seq<Level>, x: OrderId)
    requires levels != []
    ensures Lists(levels, x) <==> x in levels[0].ids || Lists(levels[1..], x)
  {
    if Lists(levels, x) {
      var i :| 0 <= i < |levels| && x in levels[i].ids;
      assert i > 0 ==> levels[1..][i - 1] == levels[i];
    }
    if Lists(levels[1..], x) {
      var i :| 0 <= i < |levels[1..]| && x in levels[1..][i].ids;
      assert levels[i + 1] == levels[1..][i];
    }
  }

  lemma {:induction false} PushBackLists(side: Side, levels: seq<Level>, price: Price, id: OrderId, x: OrderId)
    ensures Lists(PushBack(side, levels, price, id), id)
    ensures Lists(levels, x) ==> Lists(PushBack(side, levels, price, id), x)
  {
    var r := PushBack(side, levels, price, id);
    ListsSplit(r, id);
    ListsSplit(r, x);
    if levels != [] {
      ListsSplit(levels, x);
      if levels[0].price == price {
        assert r[1..] == levels[1..];
      } else if !BetterPrice(side, price, levels[0].price) {
        PushBackLists(side, levels[1..], price, id, x);
        assert r[1..] == PushBack(side, levels[1..], price, id);
      } else {
        assert r[1..] == levels;
      }
    }
  }

  lemma RestedSide(ix: Index, o: Order)
    requires ix.Linked() && o.id !in ix.orders
    ensures var after := Rest(ix, o);
            && after.QueueAt(o.side) == Insert(ix.QueueAt(o.side), o)
            && Indexed(o.side, after.LevelsOf(o.side), after.orders)
  {
    UnknownIsUnlisted(ix, o.side, o.id);
    UntouchedSide(ix, o.side, Rest(ix, o).orders, o.id);
    PushBackFlatten(ix.LevelsOf(o.side), Rest(ix, o).orders, o);
    PushBackIndexed(ix.LevelsOf(o.side), Rest(ix, o).orders, o);
  }

  /** Resting an unknown order inserts it into its side's queue and touches nothing else. */
  lemma RestIsInsert(ix: Index, o: Order)
    requires ix.Linked() && o.id !in ix.orders
    ensures Rest(ix, o).Linked()
    ensures Rest(ix, o).Abs() == ix.Abs().WithSide(o.side, Insert(ix.Abs().SideOf(o.side), o))
  {
    var after := Rest(ix, o);
    RestedSide(ix, o);
    UnknownIsUnlisted(ix, o.side.Opposite(), o.id);
    UntouchedSide(ix, o.side.Opposite(), after.orders, o.id);
    forall x | x in after.orders
      ensures after.orders[x].id == x && Lists(after.LevelsOf(after.orders[x].side), x)
    {
      PushBackLists(o.side, ix.LevelsOf(o.side), o.price, o.id, x);
    }
    EditedSide(ix, o.side, after, Insert(ix.QueueAt(o.side), o));
  }

  // ----- Cancelling -----

  function Withdraw(ix: Index, o: Order): Index {
    ix.(orders := ix.orders - {o.id}).WithLevels(o.side, TakeOut(ix.LevelsOf(o.side), o.price, o.id))
  }

  lemma {:induction false} TakeOutLists(levels: seq<Level>, price: Price, id: OrderId, x: OrderId)
    requires x != id
    ensures Lists(levels, x) <==> Lists(TakeOut(levels, price, id), x)
  {
    if levels != [] {
      var r := TakeOut(levels, price, id);
      var tail := levels[1..];
      ListsSplit(levels, x);
      if levels[0].price != price {
        TakeOutLists(tail, price, id, x);
        ListsSplit(r, x);
        assert r[1..] == TakeOut(tail, price, id);
      } else if id in levels[0].ids {
        var pos := IndexOf(levels[0].ids, id);
        var ids := levels[0].ids[..pos] + levels[0].ids[pos + 1..];
        assert levels[0].ids == levels[0].ids[..pos] + [id] + levels[0].ids[pos + 1..];
        assert x in levels[0].ids <==> x in ids;
        if ids != [] {
          ListsSplit(r, x);
          assert r[1..] == tail;
        }
      }
    }
  }

  lemma WithdrawnIsUnlisted(side: Side, levels: seq<Level>, orders: OrderMap, o: Order)
    requires Indexed(side, levels, orders) && IsQueue(side, Flatten(levels, orders))
    requires o.id in orders && orders[o.id] == o && Lists(levels, o.id)
    ensures !Lists(TakeOut(levels, o.price, o.id), o.id)
  {
    var left := TakeOut(levels, o.price, o.id);
    TakeOutFlatten(side, levels, orders, o);
    FindRemove(side, Flatten(levels, orders), o.id, o.id);
    if Lists(left, o.id) {
      FlattenComplete(side, left, orders, o.id);
      FindSound(Flatten(left, orders), o.id);
    }
  }

  lemma WithdrawnSide(side: Side, levels: seq<Level>, orders: OrderMap, o: Order)
    requires Indexed(side, levels, orders) && IsQueue(side, Flatten(levels, orders))
    requires o.id in orders && orders[o.id] == o && Lists(levels, o.id)
    ensures var left := TakeOut(levels, o.price, o.id);
            && Flatten(left, orders - {o.id}) == Remove(Flatten(levels, orders), o.id)
            && Indexed(side, left, orders - {o.id})
  {
    var left := TakeOut(levels, o.price, o.id);
    TakeOutFlatten(side, levels, orders, o);
    WithdrawnIsUnlisted(side, levels, orders, o);
    FlattenDepends(left, orders, orders - {o.id});
    forall x | Lists(left, x) ensures x in orders - {o.id} {
      FlattenComplete(side, left, orders, x);
    }
    IndexedDepends(side, left, orders, orders - {o.id});
  }

  /** Withdrawing an order removes it from its side's queue and touches nothing else. */
  lemma WithdrawIsRemove(ix: Index, o: Order)
    requires ix.Linked() && o.id in ix.orders && ix.orders[o.id] == o
    requires IsQueue(o.side, ix.QueueAt(o.side))
    ensures Withdraw(ix, o).Linked()
    ensures Withdraw(ix, o).Abs() == ix.Abs().WithSide(o.side, Remove(ix.Abs().SideOf(o.side), o.id))
  {
    var after := Withdraw(ix, o);
    LinkedSide(ix, o.side);
    WithdrawnSide(o.side, ix.LevelsOf(o.side), ix.orders, o);
    OnOneSide(ix, o.side, o.id);
    UntouchedSide(ix, o.side.Opposite(), after.orders, o.id);
    forall x | x in after.orders
      ensures after.orders[x].id == x && Lists(after.LevelsOf(after.orders[x].side), x)
    {
      TakeOutLists(ix.LevelsOf(o.side), o.price, o.id, x);
    }
    EditedSide(ix, o.side, after, Remove(ix.QueueAt(o.side), o.id));
  }

  // ----- Resting and withdrawing -----

  lemma {:induction false} IndexOfLast(ids: seq<OrderId>, id: OrderId)
    requires id !in ids
    ensures IndexOf(ids + [id], id) == |ids|
  {
    if ids != [] {
      assert (ids + [id])[1..] == ids[1..] + [id];
      IndexOfLast(ids[1..], id);
    }
  }

  lemma {:induction false} TakeOutUndoesPushBack(side: Side, levels: seq<Level>, price: Price, id: OrderId)
    requires !Lists(levels, id)
    requires forall i :: 0 <= i < |levels| ==> levels[i].ids != []
    ensures TakeOut(PushBack(side, levels, price, id), price, id) == levels
  {
    if levels == [] || BetterPrice(side, price, levels[0].price) {
      assert IndexOf([id], id) == 0;
    } else if levels[0].price == price {
      assert id !in levels[0].ids;
      var ids := levels[0].ids + [id];
      IndexOfLast(levels[0].ids, id);
      assert ids[..|levels[0].ids|] + ids[|levels[0].ids| + 1..] == levels[0].ids;
    } else {
      ListsSplit(levels, id);
      TakeOutUndoesPushBack(side, levels[1..], price, id);
    }
  }

  /** Withdrawing an order just rested restores every level, every queue and the order map. */
  lemma WithdrawUndoesRest(ix: Index, o: Order)
    requires ix.Linked() && o.id !in ix.orders
    ensures Withdraw(Rest(ix, o), o) == ix
  {
    UnknownIsUnlisted(ix, o.side, o.id);
    LinkedSide(ix, o.side);
    assert forall i :: 0 <= i < |ix.LevelsOf(o.side)| ==> LevelIndexed(o.side, ix.LevelsOf(o.side)[i], ix.orders);
    TakeOutUndoesPushBack(o.side, ix.LevelsOf(o.side), o.price, o.id);
    assert ix.orders[o.id := o] - {o.id} == ix.orders;
  }

  // ----- An index is determined by its book -----

  lemma FrontLevelOfFlatten(side: Side, levels: seq<Level>, orders: OrderMap, n: nat)
    requires Indexed(side, levels, orders) && levels != []
    ensures |levels[0].ids| <= |Flatten(levels, orders)|
    ensures n < |levels[0].ids| ==>
              Flatten(levels, orders)[n].id == levels[0].ids[n] && Flatten(levels, orders)[n].price == levels[0].price
    ensures n == |levels[0].ids| < |Flatten(levels, orders)| ==> Flatten(levels, orders)[n].price != levels[0].price
    ensures Flatten(levels, orders)[|levels[0].ids|..] == Flatten(levels[1..], orders)
    ensures Indexed(side, levels[1..], orders) && levels[0].ids != []
  {
    var tail := levels[1..];
    IndexedTail(side, levels, orders);
    QueueOfIndexed(side, levels[0], levels[0].ids, orders);
    FrontOfFlatten(side, tail, orders);
    assert tail != [] ==> tail[0] == levels[1] && BetterPrice(side, levels[0].price, levels[1].price);
  }

  /** The first level holds exactly the orders in front that share its price. */
  lemma FrontLevelsAgree(side: Side, xs: seq<Level>, ys: seq<Level>, orders: OrderMap)
    requires Indexed(side, xs, orders) && Indexed(side, ys, orders) && xs != [] && ys != []
    requires Flatten(xs, orders) == Flatten(ys, orders)
    ensures xs[0] == ys[0]
  {
    hide Indexed, Flatten;
    FrontLevelOfFlatten(side, xs, orders, 0);
    FrontLevelOfFlatten(side, ys, orders, 0);
    FrontLevelOfFlatten(side, xs, orders, |ys[0].ids|);
    FrontLevelOfFlatten(side, ys, orders, |xs[0].ids|);
    FrontLevelOfFlatten(side, xs, orders, |xs[0].ids|);
    FrontLevelOfFlatten(side, ys, orders, |ys[0].ids|);
    forall j | 0 <= j < |xs[0].ids| ensures xs[0].ids[j] == ys[0].ids[j] {
      FrontLevelOfFlatten(side, xs, orders, j);
      FrontLevelOfFlatten(side, ys, orders, j);
    }
  }

  lemma {:induction false} FlattenDeterminesLevels(side: Side, xs: seq<Level>, ys: seq<Level>, orders: OrderMap)
    requires Indexed(side, xs, orders) && Indexed(side, ys, orders)
    requires Flatten(xs, orders) == Flatten(ys, orders)
    ensures xs == ys
    decreases xs
  {
    hide Indexed, Flatten;
    FrontOfFlatten(side, xs, orders);
    FrontOfFlatten(side, ys, orders);
    if xs != [] {
      FrontLevelsAgree(side, xs, ys, orders);
      FrontLevelOfFlatten(side, xs, orders, 0);
      FrontLevelOfFlatten(side, ys, orders, 0);
      FlattenDeterminesLevels(side, xs[1..], ys[1..], orders);
      assert xs == [xs[0]] + xs[1..] && ys == [ys[0]] + ys[1..];
    }
  }

  /** Two coherent indexes of the same book have the same levels, the same queues in them and the same map. */
  lemma AbsDeterminesIndex(a: Index, b: Index)
    requires a.Coherent() && b.Coherent() && a.Abs() == b.Abs()
    ensures a == b
  {
    hide WellFormed, Book.Lookup, Indexed, Flatten;
    forall id ensures id in a.orders <==> id in b.orders
              ensures id in a.orders ==> a.orders[id] == b.orders[id] {
      OrdersAreLookups(a, id);
      OrdersAreLookups(b, id);
    }
    assert a.orders == b.orders;
    FlattenDeterminesLevels(Bid, a.bids, b.bids, a.orders);
    FlattenDeterminesLevels(Ask, a.asks, b.asks, a.orders);
  }
}
