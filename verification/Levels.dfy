/**
 * The book's index: sorted price levels of order ids, next to a map from id to order. Flattening a side
 * through the map gives the price-time queue; each edit of the index is an edit of the queue.
 */
module Levels {
  import opened Types
  import opened Matching
  import opened Queues

  /** A price level: a FIFO queue of order ids. */
  datatype Level = Level(price: Price, ids: seq<OrderId>)

  type OrderMap = map<OrderId, Order>

  /** The orders of a level, in FIFO order; ids without an order are skipped. */
  function QueueOf(ids: seq<OrderId>, orders: OrderMap): seq<Order> {
    if ids == [] then []
    else (if ids[0] in orders then [orders[ids[0]]] else []) + QueueOf(ids[1..], orders)
  }

  function Flatten(levels: seq<Level>, orders: OrderMap): seq<Order> {
    if levels == [] then [] else QueueOf(levels[0].ids, orders) + Flatten(levels[1..], orders)
  }

  ghost predicate LevelIndexed(side: Side, level: Level, orders: OrderMap) {
    && level.ids != []
    && forall j :: 0 <= j < |level.ids| ==>
         level.ids[j] in orders &&
         var o := orders[level.ids[j]];
         o.id == level.ids[j] && o.side == side && o.price == level.price
  }

  ghost predicate LevelsIndexed(side: Side, levels: seq<Level>, orders: OrderMap) {
    forall i :: 0 <= i < |levels| ==> LevelIndexed(side, levels[i], orders)
  }

  /** No empty level, prices strictly from best to worst, and every listed id has its order at that price. */
  ghost predicate Indexed(side: Side, levels: seq<Level>, orders: OrderMap) {
    && LevelsIndexed(side, levels, orders)
    && (forall i, j :: 0 <= i < j < |levels| ==> BetterPrice(side, levels[i].price, levels[j].price))
  }

  ghost predicate Lists(levels: seq<Level>, id: OrderId) {
    exists i :: 0 <= i < |levels| && id in levels[i].ids
  }

  // ----- Flattening -----

  lemma {:induction false} QueueOfIndexed(side: Side, level: Level, ids: seq<OrderId>, orders: OrderMap)
    requires LevelIndexed(side, level, orders)
    requires forall x :: x in ids ==> x in level.ids
    ensures |QueueOf(ids, orders)| == |ids|
    ensures forall j :: 0 <= j < |ids| ==>
              ids[j] in orders && QueueOf(ids, orders)[j] == orders[ids[j]] &&
              QueueOf(ids, orders)[j].id == ids[j] && QueueOf(ids, orders)[j].price == level.price &&
              QueueOf(ids, orders)[j].side == side
  {
    if ids != [] {
      QueueOfIndexed(side, level, ids[1..], orders);
      assert ids[0] in level.ids;
    }
  }

  lemma {:induction false} FlattenSound(side: Side, levels: seq<Level>, orders: OrderMap, o: Order)
    requires Indexed(side, levels, orders)
    requires o in Flatten(levels, orders)
    ensures o.id in orders && orders[o.id] == o && o.side == side && Lists(levels, o.id)
  {
    QueueOfIndexed(side, levels[0], levels[0].ids, orders);
    var q := QueueOf(levels[0].ids, orders);
    if o in q {
      var j :| 0 <= j < |q| && q[j] == o;
      assert levels[0].ids[j] == o.id;
    } else {
      assert o in Flatten(levels[1..], orders);
      FlattenSound(side, levels[1..], orders, o);
      var i :| 0 <= i < |levels[1..]| && o.id in levels[1..][i].ids;
      assert levels[i + 1] == levels[1..][i];
    }
  }

  lemma {:induction false} FlattenComplete(side: Side, levels: seq<Level>, orders: OrderMap, id: OrderId)
    requires Indexed(side, levels, orders)
    requires Lists(levels, id)
    ensures id in orders && orders[id] in Flatten(levels, orders) && orders[id].id == id
  {
    QueueOfIndexed(side, levels[0], levels[0].ids, orders);
    if id in levels[0].ids {
      var j :| 0 <= j < |levels[0].ids| && levels[0].ids[j] == id;
      assert QueueOf(levels[0].ids, orders)[j] == orders[id];
    } else {
      var i :| 0 <= i < |levels| && id in levels[i].ids;
      assert levels[1..][i - 1] == levels[i];
      FlattenComplete(side, levels[1..], orders, id);
    }
  }

  lemma {:induction false} QueueOfDepends(ids: seq<OrderId>, a: OrderMap, b: OrderMap)
    requires forall x :: x in ids ==> (x in a <==> x in b) && (x in a ==> a[x] == b[x])
    ensures QueueOf(ids, a) == QueueOf(ids, b)
  {
    if ids != [] {
      QueueOfDepends(ids[1..], a, b);
    }
  }

  /** Flattening a side looks only at the orders listed on it. */
  lemma {:induction false} FlattenDepends(levels: seq<Level>, a: OrderMap, b: OrderMap)
    requires forall x :: Lists(levels, x) ==> (x in a <==> x in b) && (x in a ==> a[x] == b[x])
    ensures Flatten(levels, a) == Flatten(levels, b)
  {
    if levels != [] {
      forall x | x in levels[0].ids ensures Lists(levels, x) {
        assert x in levels[0].ids;
      }
      QueueOfDepends(levels[0].ids, a, b);
      forall x | Lists(levels[1..], x) ensures Lists(levels, x) {
        var i :| 0 <= i < |levels[1..]| && x in levels[1..][i].ids;
        assert x in levels[i + 1].ids;
      }
      FlattenDepends(levels[1..], a, b);
    }
  }

  lemma IndexedDepends(side: Side, levels: seq<Level>, a: OrderMap, b: OrderMap)
    requires Indexed(side, levels, a)
    requires forall x :: Lists(levels, x) ==> x in b && (x in a ==> a[x].(remaining := b[x].remaining) == b[x])
    ensures Indexed(side, levels, b)
  {
    forall i | 0 <= i < |levels| ensures LevelIndexed(side, levels[i], b) {
      assert LevelIndexed(side, levels[i], a);
      forall j | 0 <= j < |levels[i].ids|
        ensures levels[i].ids[j] in b && a[levels[i].ids[j]].(remaining := b[levels[i].ids[j]].remaining) ==
                b[levels[i].ids[j]]
      {
        assert Lists(levels, levels[i].ids[j]);
      }
    }
  }

  // ----- The front of a side -----

  lemma FrontOfFlatten(side: Side, levels: seq<Level>, orders: OrderMap)
    requires Indexed(side, levels, orders)
    ensures levels == [] <==> Flatten(levels, orders) == []
    ensures levels != [] ==>
              levels[0].ids[0] in orders &&
              Flatten(levels, orders)[0] == orders[levels[0].ids[0]] &&
              Flatten(levels, orders)[0].id == levels[0].ids[0] &&
              Flatten(levels, orders)[0].price == levels[0].price &&
              Flatten(levels, orders)[0].side == side
  {
    if levels != [] {
      assert LevelIndexed(side, levels[0], orders);
      QueueOfIndexed(side, levels[0], levels[0].ids, orders);
    }
  }

  /** Pop the front id, and the front level with it if it becomes empty. */
  function PopFront(levels: seq<Level>): seq<Level>
    requires levels != [] && levels[0].ids != []
  {
    if |levels[0].ids| == 1 then levels[1..] else [Level(levels[0].price, levels[0].ids[1..])] + levels[1..]
  }

  lemma PopFrontLists(levels: seq<Level>, x: OrderId)
    requires levels != [] && levels[0].ids != []
    ensures Lists(PopFront(levels), x) ==> Lists(levels, x)
    ensures Lists(levels, x) ==> x == levels[0].ids[0] || Lists(PopFront(levels), x)
  {
    var popped := PopFront(levels);
    if Lists(popped, x) {
      var i :| 0 <= i < |popped| && x in popped[i].ids;
      if |levels[0].ids| == 1 {
        assert x in levels[i + 1].ids;
      } else {
        assert x in levels[i].ids;
      }
    }
    if Lists(levels, x) && x != levels[0].ids[0] {
      var i :| 0 <= i < |levels| && x in levels[i].ids;
      if |levels[0].ids| == 1 {
        assert i > 0 && popped[i - 1] == levels[i];
      } else if i == 0 {
        assert x in popped[0].ids;
      } else {
        assert popped[i] == levels[i];
      }
    }
  }

  lemma FrontAndRest(levels: seq<Level>, orders: OrderMap)
    requires levels != [] && levels[0].ids != [] && levels[0].ids[0] in orders
    ensures Flatten(levels, orders) == [orders[levels[0].ids[0]]] + Flatten(PopFront(levels), orders)
  {
    var ids := levels[0].ids;
    var first, rest := orders[ids[0]], Flatten(levels[1..], orders);
    assert QueueOf(ids, orders) == [first] + QueueOf(ids[1..], orders);
    assert [first] + QueueOf(ids[1..], orders) + rest == [first] + (QueueOf(ids[1..], orders) + rest);
    if |ids| == 1 {
      assert QueueOf(ids[1..], orders) == [];
    } else {
      assert PopFront(levels)[1..] == levels[1..];
    }
  }

  lemma PopFrontIndexed(side: Side, levels: seq<Level>, orders: OrderMap)
    requires Indexed(side, levels, orders) && levels != []
    ensures levels[0].ids != [] && levels[0].ids[0] in orders
    ensures Indexed(side, PopFront(levels), orders)
  {
    hide Indexed, BetterPrice;
    IndexedTail(side, levels, orders);
    var first, tail := levels[0], levels[1..];
    if |first.ids| > 1 {
      var popped := Level(first.price, first.ids[1..]);
      if tail != [] {
        NextPriceIsWorse(side, levels, orders);
      }
      assert LevelIndexed(side, popped, orders);
      ConsIndexed(side, popped, tail, orders);
    }
  }

  lemma PopFrontFlatten(side: Side, levels: seq<Level>, orders: OrderMap)
    requires Indexed(side, levels, orders) && levels != []
    ensures Flatten(PopFront(levels), orders) == Flatten(levels, orders)[1..]
    ensures Indexed(side, PopFront(levels), orders)
  {
    hide Indexed, Flatten;
    PopFrontIndexed(side, levels, orders);
    FrontAndRest(levels, orders);
  }

  lemma NextPriceIsWorse(side: Side, levels: seq<Level>, orders: OrderMap)
    requires Indexed(side, levels, orders) && |levels| > 1
    ensures BetterPrice(side, levels[0].price, levels[1].price)
  {
  }

  // ----- Resting -----

  /** Append an id to the level at its price, creating the level at its place if there is none. */
  function PushBack(side: Side, levels: seq<Level>, price: Price, id: OrderId): seq<Level> {
    if levels == [] || BetterPrice(side, price, levels[0].price) then [Level(price, [id])] + levels
    else if levels[0].price == price then [Level(price, levels[0].ids + [id])] + levels[1..]
    else [levels[0]] + PushBack(side, levels[1..], price, id)
  }

  lemma IndexedTail(side: Side, levels: seq<Level>, orders: OrderMap)
    requires Indexed(side, levels, orders) && levels != []
    ensures Indexed(side, levels[1..], orders) && LevelIndexed(side, levels[0], orders)
  {
  }

  lemma {:induction false} QueueOfAppend(ids: seq<OrderId>, id: OrderId, orders: OrderMap)
    requires id in orders
    ensures QueueOf(ids + [id], orders) == QueueOf(ids, orders) + [orders[id]]
  {
    if ids != [] {
      QueueOfAppend(ids[1..], id, orders);
      assert (ids + [id])[1..] == ids[1..] + [id];
    }
  }

  /** A run of orders that the new one does not beat is passed over. */
  lemma {:induction false} InsertSkips(skipped: seq<Order>, q: seq<Order>, o: Order)
    requires forall x :: x in skipped ==> !BetterPrice(o.side, o.price, x.price)
    ensures Insert(skipped + q, o) == skipped + Insert(q, o)
  {
    hide BetterPrice;
    if skipped == [] {
      assert skipped + q == q;
    } else {
      InsertSkips(skipped[1..], q, o);
      assert (skipped + q)[1..] == skipped[1..] + q;
      assert (skipped + q)[0] == skipped[0] && skipped[0] in skipped;
      assert skipped == [skipped[0]] + skipped[1..];
    }
  }

  /** Pushing an id onto its level is inserting the order by price-time priority. */
  lemma {:induction false} PushBackFlatten(levels: seq<Level>, orders: OrderMap, o: Order)
    requires Indexed(o.side, levels, orders)
    requires o.id in orders && orders[o.id] == o
    ensures Flatten(PushBack(o.side, levels, o.price, o.id), orders) == Insert(Flatten(levels, orders), o)
  {
    FrontOfFlatten(o.side, levels, orders);
    if levels == [] || BetterPrice(o.side, o.price, levels[0].price) {
      assert QueueOf([o.id], orders) == [o];
    } else {
      IndexedTail(o.side, levels, orders);
      var first := QueueOf(levels[0].ids, orders);
      QueueOfIndexed(o.side, levels[0], levels[0].ids, orders);
      InsertSkips(first, Flatten(levels[1..], orders), o);
      if levels[0].price == o.price {
        QueueOfAppend(levels[0].ids, o.id, orders);
        FrontOfFlatten(o.side, levels[1..], orders);
        assert |levels| > 1 ==> BetterPrice(o.side, levels[0].price, levels[1].price);
        assert Insert(Flatten(levels[1..], orders), o) == [o] + Flatten(levels[1..], orders);
      } else {
        PushBackFlatten(levels[1..], orders, o);
      }
    }
  }

  lemma {:induction false} PushBackIndexed(levels: seq<Level>, orders: OrderMap, o: Order)
    requires Indexed(o.side, levels, orders)
    requires o.id in orders && orders[o.id] == o
    ensures Indexed(o.side, PushBack(o.side, levels, o.price, o.id), orders)
    ensures levels != [] ==>
              var r := PushBack(o.side, levels, o.price, o.id);
              r[0].price == levels[0].price || r[0].price == o.price
  {
    var r := PushBack(o.side, levels, o.price, o.id);
    if levels == [] || BetterPrice(o.side, o.price, levels[0].price) {
      assert LevelIndexed(o.side, r[0], orders);
      assert forall i :: 1 <= i < |r| ==> r[i] == levels[i - 1];
    } else {
      IndexedTail(o.side, levels, orders);
      if levels[0].price == o.price {
        assert LevelIndexed(o.side, r[0], orders);
        assert forall i :: 1 <= i < |r| ==> r[i] == levels[i];
      } else {
        PushBackIndexed(levels[1..], orders, o);
        var tail := PushBack(o.side, levels[1..], o.price, o.id);
        ConsIndexed(o.side, levels[0], tail, orders);
      }
    }
  }

  lemma ConsIndexed(side: Side, first: Level, tail: seq<Level>, orders: OrderMap)
    requires LevelIndexed(side, first, orders) && Indexed(side, tail, orders)
    requires tail != [] ==> BetterPrice(side, first.price, tail[0].price)
    ensures Indexed(side, [first] + tail, orders)
  {
    var r := [first] + tail;
    assert forall i :: 1 <= i < |r| ==> r[i] == tail[i - 1];
  }

  // ----- Cancelling -----

  function IndexOf(ids: seq<OrderId>, id: OrderId): nat
    requires id in ids
    ensures IndexOf(ids, id) < |ids| && ids[IndexOf(ids, id)] == id
  {
    if ids[0] == id then 0 else 1 + IndexOf(ids[1..], id)
  }

  /** Remove an id from the level at its price, and the level with it if it becomes empty. */
  function TakeOut(levels: seq<Level>, price: Price, id: OrderId): seq<Level> {
    if levels == [] then []
    else if levels[0].price != price then [levels[0]] + TakeOut(levels[1..], price, id)
    else if id !in levels[0].ids then levels
    else
      var pos := IndexOf(levels[0].ids, id);
      var ids := levels[0].ids[..pos] + levels[0].ids[pos + 1..];
      if ids == [] then levels[1..] else [Level(price, ids)] + levels[1..]
  }

  lemma {:induction false} RemoveInFirst(first: seq<Order>, q: seq<Order>, id: OrderId)
    requires Holds(first, id)
    ensures Remove(first + q, id) == Remove(first, id) + q
  {
    var all := first + q;
    assert all[0] == first[0] && all[1..] == first[1..] + q;
    if first[0].id != id {
      RemoveInFirst(first[1..], q, id);
      assert [first[0]] + (Remove(first[1..], id) + q) == [first[0]] + Remove(first[1..], id) + q;
    }
  }

  lemma {:induction false} RemoveSkips(first: seq<Order>, q: seq<Order>, id: OrderId)
    requires forall x :: x in first ==> x.id != id
    ensures Remove(first + q, id) == first + Remove(q, id)
  {
    if first == [] {
      assert first + q == q;
    } else {
      RemoveSkips(first[1..], q, id);
      assert (first + q)[1..] == first[1..] + q;
    }
  }

  lemma {:induction false} QueueOfWithout(side: Side, level: Level, ids: seq<OrderId>, orders: OrderMap, id: OrderId)
    requires LevelIndexed(side, level, orders)
    requires forall x :: x in ids ==> x in level.ids
    requires id in ids
    ensures Holds(QueueOf(ids, orders), id)
    ensures Remove(QueueOf(ids, orders), id) ==
            QueueOf(ids[..IndexOf(ids, id)] + ids[IndexOf(ids, id) + 1..], orders)
  {
    hide BetterPrice;
    assert ids[0] in level.ids;
    var pos := IndexOf(ids, id);
    if ids[0] == id {
      assert ids[..pos] + ids[pos + 1..] == ids[1..];
    } else {
      QueueOfWithout(side, level, ids[1..], orders, id);
      var shorter := ids[..pos] + ids[pos + 1..];
      assert shorter[0] == ids[0];
      assert shorter[1..] == ids[1..][..pos - 1] + ids[1..][pos..];
    }
  }

  /** Only the level at the order's own price can list it. */
  lemma ListedAtItsPrice(side: Side, levels: seq<Level>, orders: OrderMap, o: Order)
    requires Indexed(side, levels, orders)
    requires o.id in orders && orders[o.id] == o && Lists(levels, o.id)
    ensures levels[0].price == o.price ==> o.id in levels[0].ids
    ensures levels[0].price != o.price ==> Lists(levels[1..], o.id)
    ensures forall x :: x in levels[0].ids ==> x in orders && orders[x].id == x && orders[x].price == levels[0].price
  {
    var i :| 0 <= i < |levels| && o.id in levels[i].ids;
    assert LevelIndexed(side, levels[i], orders) && LevelIndexed(side, levels[0], orders);
    assert levels[i].price == o.price;
    if i > 0 {
      assert BetterPrice(side, levels[0].price, levels[i].price);
      assert levels[1..][i - 1] == levels[i];
    }
  }

  lemma TakeOutFirst(side: Side, levels: seq<Level>, orders: OrderMap, id: OrderId)
    requires Indexed(side, levels, orders) && levels != [] && id in levels[0].ids
    ensures Flatten(TakeOut(levels, levels[0].price, id), orders) == Remove(Flatten(levels, orders), id)
    ensures Indexed(side, TakeOut(levels, levels[0].price, id), orders)
    ensures TakeOut(levels, levels[0].price, id) != [] ==>
              !BetterPrice(side, TakeOut(levels, levels[0].price, id)[0].price, levels[0].price)
  {
    IndexedTail(side, levels, orders);
    var level := levels[0];
    var pos := IndexOf(level.ids, id);
    var left := Level(level.price, level.ids[..pos] + level.ids[pos + 1..]);
    QueueOfWithout(side, level, level.ids, orders, id);
    RemoveInFirst(QueueOf(level.ids, orders), Flatten(levels[1..], orders), id);
    if left.ids != [] {
      assert LevelIndexed(side, left, orders);
      ConsIndexed(side, left, levels[1..], orders);
      assert ([left] + levels[1..])[1..] == levels[1..];
    }
  }

  /** Taking an id out of its level removes its order from the queue. */
  lemma {:induction false} TakeOutFlatten(side: Side, levels: seq<Level>, orders: OrderMap, o: Order)
    requires Indexed(side, levels, orders)
    requires o.id in orders && orders[o.id] == o && Lists(levels, o.id)
    ensures Flatten(TakeOut(levels, o.price, o.id), orders) == Remove(Flatten(levels, orders), o.id)
    ensures Indexed(side, TakeOut(levels, o.price, o.id), orders)
    ensures TakeOut(levels, o.price, o.id) != [] ==>
              !BetterPrice(side, TakeOut(levels, o.price, o.id)[0].price, levels[0].price)
  {
    ListedAtItsPrice(side, levels, orders, o);
    if levels[0].price == o.price {
      TakeOutFirst(side, levels, orders, o.id);
    } else {
      IndexedTail(side, levels, orders);
      TakeOutFlatten(side, levels[1..], orders, o);
      var tail := TakeOut(levels[1..], o.price, o.id);
      if tail != [] {
        assert BetterPrice(side, levels[0].price, levels[1..][0].price);
      }
      ConsIndexed(side, levels[0], tail, orders);
      SkipFirstLevel(side, levels, orders, o.id);
    }
  }

  lemma SkipFirstLevel(side: Side, levels: seq<Level>, orders: OrderMap, id: OrderId)
    requires Indexed(side, levels, orders) && levels != []
    requires id !in levels[0].ids
    ensures Remove(Flatten(levels, orders), id) ==
            QueueOf(levels[0].ids, orders) + Remove(Flatten(levels[1..], orders), id)
  {
    IndexedTail(side, levels, orders);
    QueueOfIndexed(side, levels[0], levels[0].ids, orders);
    RemoveSkips(QueueOf(levels[0].ids, orders), Flatten(levels[1..], orders), id);
  }
}
