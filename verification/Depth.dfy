/** Aggregated price levels, as published to clients. */
module Depths {
  import opened Types
  import opened Matching
  import opened Levels

  /** Aggregate a queue into price levels, best first. */
  function Depth(q: seq<Order>): seq<DepthLevel> {
    if q == [] then [] else
      var tail := Depth(q[1..]);
      if tail != [] && tail[0].price == q[0].price then
        [DepthLevel(q[0].price, q[0].remaining + tail[0].qty)] + tail[1..]
      else
        [DepthLevel(q[0].price, q[0].remaining)] + tail
  }

  const DEPTH_LIMIT: nat := 25

  function TopLevels(levels: seq<DepthLevel>): seq<DepthLevel> {
    if |levels| <= DEPTH_LIMIT then levels else levels[..DEPTH_LIMIT]
  }

  /** All that rests at one price. */
  function QtyAt(q: seq<Order>, price: Price): nat {
    if q == [] then 0 else (if q[0].price == price then q[0].remaining else 0) + QtyAt(q[1..], price)
  }

  lemma {:induction false} NothingBetter(side: Side, q: seq<Order>, price: Price)
    requires forall o :: o in q ==> BetterPrice(side, price, o.price)
    ensures QtyAt(q, price) == 0
  {
    if q != [] {
      NothingBetter(side, q[1..], price);
    }
  }

  ghost predicate BestFirst(side: Side, d: seq<DepthLevel>) {
    forall i, j :: 0 <= i < j < |d| ==> BetterPrice(side, d[i].price, d[j].price)
  }

  ghost predicate HasLevel(d: seq<DepthLevel>, price: Price) {
    exists i :: 0 <= i < |d| && d[i].price == price
  }

  /** Once the price changes behind the front, every later order is priced worse. */
  lemma PriceDropsForGood(side: Side, q: seq<Order>)
    requires IsQueue(side, q) && |q| > 1 && q[1].price != q[0].price
    ensures forall o :: o in q[1..] ==> BetterPrice(side, q[0].price, o.price)
  {
    assert Before(q[0], q[1]);
    forall i | 1 <= i < |q| ensures BetterPrice(side, q[0].price, q[i].price) {
      assert i > 1 ==> Before(q[1], q[i]);
    }
  }

  lemma {:induction false} DepthPrices(side: Side, q: seq<Order>)
    requires IsQueue(side, q)
    ensures BestFirst(side, Depth(q))
  {
    if q != [] {
      TailIsQueue(side, q);
      DepthPrices(side, q[1..]);
      DepthStartsAtFront(q[1..]);
      var d, tail := Depth(q), Depth(q[1..]);
      if tail == [] {
        assert |d| == 1;
      } else if tail[0].price != q[0].price {
        PriceDropsForGood(side, q);
        assert q[1] in q[1..];
        ConsBestFirst(side, DepthLevel(q[0].price, q[0].remaining), tail);
      } else {
        assert d[1..] == tail[1..];
        assert forall i :: 0 < i < |d| ==> d[i] == tail[i];
      }
    }
  }

  lemma ConsBestFirst(side: Side, first: DepthLevel, d: seq<DepthLevel>)
    requires BestFirst(side, d) && d != [] && BetterPrice(side, first.price, d[0].price)
    ensures BestFirst(side, [first] + d)
  {
  }

  lemma {:induction false} DepthHasLevels(q: seq<Order>, o: Order)
    requires o in q
    ensures HasLevel(Depth(q), o.price)
  {
    var d, tail := Depth(q), Depth(q[1..]);
    if o == q[0] {
      assert d[0].price == o.price;
    } else {
      DepthHasLevels(q[1..], o);
      var i :| 0 <= i < |tail| && tail[i].price == o.price;
      if tail[0].price == q[0].price {
        assert d[i].price == o.price;
      } else {
        assert d[i + 1].price == o.price;
      }
    }
  }

  /** How the depth of a queue follows from the depth of its tail. */
  lemma DepthUnfolds(q: seq<Order>, i: nat)
    requires i < |Depth(q)|
    ensures q != []
    ensures var d, tail := Depth(q), Depth(q[1..]);
            var joined := tail != [] && tail[0].price == q[0].price;
            && (i == 0 ==> d[i] == DepthLevel(q[0].price, q[0].remaining + if joined then tail[0].qty else 0))
            && (i > 0 ==> (if joined then i else i - 1) < |tail| && d[i] == tail[if joined then i else i - 1])
  {
  }

  lemma {:induction false} DepthQuantities(side: Side, q: seq<Order>, i: nat)
    requires IsQueue(side, q) && i < |Depth(q)|
    ensures Depth(q)[i].qty == QtyAt(q, Depth(q)[i].price) > 0
  {
    hide IsQueue, Depth;
    DepthUnfolds(q, 0);
    DepthUnfolds(q, i);
    LiveFront(side, q);
    DepthPrices(side, q);
    DepthStartsAtFront(q[1..]);
    var d, tail := Depth(q), Depth(q[1..]);
    assert i > 0 ==> BetterPrice(side, d[0].price, d[i].price);
    if tail != [] && tail[0].price == q[0].price {
      DepthQuantities(side, q[1..], i);
    } else if i > 0 {
      DepthQuantities(side, q[1..], i - 1);
    } else if tail != [] {
      PriceDropsForGood(side, q);
      NothingBetter(side, q[1..], q[0].price);
    }
  }

  /** The published depth: one level per occupied price, best first, with everything that rests there. */
  lemma DepthIsAggregate(side: Side, q: seq<Order>)
    requires IsQueue(side, q)
    ensures BestFirst(side, Depth(q))
    ensures forall o :: o in q ==> HasLevel(Depth(q), o.price)
    ensures forall i :: 0 <= i < |Depth(q)| ==> Depth(q)[i].qty == QtyAt(q, Depth(q)[i].price) > 0
  {
    DepthPrices(side, q);
    forall o | o in q ensures HasLevel(Depth(q), o.price) {
      DepthHasLevels(q, o);
    }
    forall i | 0 <= i < |Depth(q)| ensures Depth(q)[i].qty == QtyAt(q, Depth(q)[i].price) > 0 {
      DepthQuantities(side, q, i);
    }
  }

  // ----- Depth from the index -----

  function LevelQty(ids: seq<OrderId>, orders: OrderMap): nat {
    if ids == [] then 0
    else (if ids[0] in orders then orders[ids[0]].remaining else 0) + LevelQty(ids[1..], orders)
  }

  /** One more order in front either joins the first level or becomes a new one. */
  lemma DepthOfCons(o: Order, q: seq<Order>)
    ensures Depth([o] + q) ==
            if Depth(q) != [] && Depth(q)[0].price == o.price then
              [DepthLevel(o.price, o.remaining + Depth(q)[0].qty)] + Depth(q)[1..]
            else
              [DepthLevel(o.price, o.remaining)] + Depth(q)
  {
    assert ([o] + q)[1..] == q;
  }

  lemma LevelOfCons(ids: seq<OrderId>, orders: OrderMap)
    requires ids != [] && ids[0] in orders
    ensures QueueOf(ids, orders) == [orders[ids[0]]] + QueueOf(ids[1..], orders)
    ensures LevelQty(ids, orders) == orders[ids[0]].remaining + LevelQty(ids[1..], orders)
    ensures QueueOf([], orders) == [] && LevelQty([], orders) == 0
  {
  }

  lemma {:induction false} DepthOfLevel(side: Side, level: Level, ids: seq<OrderId>, behind: seq<Order>,
                                        orders: OrderMap)
    requires LevelIndexed(side, level, orders)
    requires ids != [] && forall x :: x in ids ==> x in level.ids
    requires behind != [] ==> behind[0].price != level.price
    ensures Depth(QueueOf(ids, orders) + behind) == [DepthLevel(level.price, LevelQty(ids, orders))] + Depth(behind)
  {
    hide Depth, QueueOf, LevelQty, LevelIndexed;
    IdIsIndexed(side, level, ids[0], orders);
    LevelOfCons(ids, orders);
    var o, rest := orders[ids[0]], QueueOf(ids[1..], orders) + behind;
    assert QueueOf(ids, orders) + behind == [o] + rest;
    DepthOfCons(o, rest);
    if |ids| == 1 {
      assert ids[1..] == [] && rest == behind;
      DepthStartsAtFront(behind);
    } else {
      DepthOfLevel(side, level, ids[1..], behind, orders);
    }
  }

  lemma IdIsIndexed(side: Side, level: Level, id: OrderId, orders: OrderMap)
    requires LevelIndexed(side, level, orders) && id in level.ids
    ensures id in orders && orders[id].price == level.price
  {
  }

  lemma DepthStartsAtFront(q: seq<Order>)
    ensures q == [] ==> Depth(q) == []
    ensures q != [] ==> Depth(q) != [] && Depth(q)[0].price == q[0].price
  {
  }

  /** The published depth is computed level by level from the index. */
  method DepthOfSide(side: Side, levels: seq<Level>, orders: OrderMap) returns (d: seq<DepthLevel>)
    requires Indexed(side, levels, orders)
    ensures d == Depth(Flatten(levels, orders))
  {
    d := [];
    for i := 0 to |levels|
      invariant d + Depth(Flatten(levels[i..], orders)) == Depth(Flatten(levels, orders))
    {
      var qty := SumLevel(levels[i].ids, orders);
      AddLevel(side, levels, orders, i);
      d := d + [DepthLevel(levels[i].price, qty)];
    }
  }

  method SumLevel(ids: seq<OrderId>, orders: OrderMap) returns (qty: nat)
    ensures qty == LevelQty(ids, orders)
  {
    qty := 0;
    for j := 0 to |ids|
      invariant qty + LevelQty(ids[j..], orders) == LevelQty(ids, orders)
    {
      assert ids[j..][1..] == ids[j + 1..];
      if ids[j] in orders {
        qty := qty + orders[ids[j]].remaining;
      }
    }
  }

  lemma AddLevel(side: Side, levels: seq<Level>, orders: OrderMap, i: nat)
    requires Indexed(side, levels, orders) && i < |levels|
    ensures Depth(Flatten(levels[i..], orders)) ==
            [DepthLevel(levels[i].price, LevelQty(levels[i].ids, orders))] + Depth(Flatten(levels[i + 1..], orders))
  {
    assert LevelIndexed(side, levels[i], orders);
    var rest := levels[i + 1..];
    assert levels[i..][0] == levels[i] && levels[i..][1..] == rest;
    assert Indexed(side, rest, orders);
    FrontOfFlatten(side, rest, orders);
    assert rest != [] ==> BetterPrice(side, levels[i].price, rest[0].price);
    DepthOfLevel(side, levels[i], levels[i].ids, Flatten(rest, orders), orders);
  }
}
