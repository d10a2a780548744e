/**
 * Price-time matching on values. A book side is the queue of its resting orders flattened best price
 * first and, within a price, in order of arrival; an execution consumes a prefix of the opposite queue.
 */
module Matching {
  import opened Types

  predicate BetterPrice(side: Side, p: Price, q: Price) {
    if side.Ask? then p < q else q < p
  }

  /** x has price-time priority over y. */
  predicate Before(x: Order, y: Order) {
    BetterPrice(x.side, x.price, y.price) || (x.price == y.price && x.id < y.id)
  }

  /** The queue of one side: every order live, once, in strict price-time order. */
  ghost predicate IsQueue(side: Side, q: seq<Order>) {
    && (forall i :: 0 <= i < |q| ==> q[i].side == side && q[i].remaining > 0)
    && (forall i, j :: 0 <= i < j < |q| ==> Before(q[i], q[j]) && q[i].id != q[j].id)
  }

  /** The taker's limit (if any) accepts this maker's price. */
  predicate Reaches(limit: Option<Price>, maker: Order) {
    match limit
    case None => true
    case Some(p) => if maker.side.Ask? then maker.price <= p else p <= maker.price
  }

  datatype Fill = Fill(maker: Order, qty: Quantity)

  datatype Outcome = Outcome(fills: seq<Fill>, rest: seq<Order>, left: Quantity)

  /** Consume the queue from its front until the quantity, the queue or the limit runs out. */
  function Consume(q: seq<Order>, limit: Option<Price>, qty: Quantity): Outcome {
    if qty == 0 || q == [] || !Reaches(limit, q[0]) then
      Outcome([], q, qty)
    else if qty < q[0].remaining then
      Outcome([Fill(q[0], qty)], [q[0].(remaining := q[0].remaining - qty)] + q[1..], 0)
    else
      var tail := Consume(q[1..], limit, qty - q[0].remaining);
      Outcome([Fill(q[0], q[0].remaining)] + tail.fills, tail.rest, tail.left)
  }

  function FilledQty(fills: seq<Fill>): nat {
    if fills == [] then 0 else fills[0].qty + FilledQty(fills[1..])
  }

  function FilledCost(fills: seq<Fill>): nat {
    if fills == [] then 0 else Cost(fills[0].maker.price, fills[0].qty) + FilledCost(fills[1..])
  }

  // ----- The reference definition of an execution -----

  /** The i-th fill takes from the i-th order of the queue, completely unless it is the last fill. */
  ghost predicate FillsInTurn(q: seq<Order>, limit: Option<Price>, fills: seq<Fill>, i: nat)
    requires i < |fills| <= |q|
  {
    && fills[i].maker == q[i]
    && Reaches(limit, q[i])
    && 0 < fills[i].qty <= q[i].remaining
    && (i < |fills| - 1 ==> fills[i].qty == q[i].remaining)
  }

  /** What the first n orders of the queue leave behind when the n-th gave qty. */
  ghost function Suffix(q: seq<Order>, n: nat, qty: Quantity): seq<Order>
    requires n <= |q|
  {
    if n > 0 && qty < q[n - 1].remaining then
      [q[n - 1].(remaining := q[n - 1].remaining - qty)] + q[n..]
    else
      q[n..]
  }

  ghost function LastQty(fills: seq<Fill>): Quantity {
    if fills == [] then 0 else fills[|fills| - 1].qty
  }

  /**
   * Price-time priority as a client would state it: the makers are a prefix of the queue, each at a price
   * within the limit; all but the last are filled completely; the rest of the queue is the remaining suffix
   * in the same order; and quantity is left over only if the queue or the limit is exhausted.
   */
  ghost predicate PriceTimeExecution(q: seq<Order>, limit: Option<Price>, qty: Quantity, r: Outcome) {
    var n := |r.fills|;
    && n <= |q|
    && (forall i :: 0 <= i < n ==> FillsInTurn(q, limit, r.fills, i))
    && FilledQty(r.fills) + r.left == qty
    && r.rest == Suffix(q, n, LastQty(r.fills))
    && (r.left > 0 ==> r.rest == q[n..] && (n == |q| || !Reaches(limit, q[n])))
  }

  lemma TailIsQueue(side: Side, q: seq<Order>)
    requires IsQueue(side, q) && q != []
    ensures IsQueue(side, q[1..])
  {
  }

  /** A completely filled front order can be peeled off an execution. */
  lemma PeelFront(q: seq<Order>, limit: Option<Price>, qty: Quantity, tail: Outcome)
    requires q != [] && q[0].remaining > 0 && Reaches(limit, q[0]) && q[0].remaining <= qty
    ensures PriceTimeExecution(q[1..], limit, qty - q[0].remaining, tail) <==>
            PriceTimeExecution(q, limit, qty, Outcome([Fill(q[0], q[0].remaining)] + tail.fills, tail.rest, tail.left))
  {
    hide Reaches;
    var fills := [Fill(q[0], q[0].remaining)] + tail.fills;
    var n := |fills|;
    assert fills[1..] == tail.fills;
    if n <= |q| {
      assert q[1..][n - 1..] == q[n..];
      assert Suffix(q[1..], n - 1, LastQty(tail.fills)) == Suffix(q, n, LastQty(fills));
      assert FillsInTurn(q, limit, fills, 0);
      forall i | 1 <= i < n
        ensures FillsInTurn(q, limit, fills, i) <==> FillsInTurn(q[1..], limit, tail.fills, i - 1)
      {
        assert fills[i] == tail.fills[i - 1];
      }
      assert (forall i :: 0 <= i < n ==> FillsInTurn(q, limit, fills, i)) <==>
             (forall i :: 0 <= i < n - 1 ==> FillsInTurn(q[1..], limit, tail.fills, i)) by {
        if forall i :: 0 <= i < n ==> FillsInTurn(q, limit, fills, i) {
          forall i | 0 <= i < n - 1 ensures FillsInTurn(q[1..], limit, tail.fills, i) {
            assert FillsInTurn(q, limit, fills, i + 1);
          }
        }
      }
    }
  }

  lemma NothingConsumed(q: seq<Order>, limit: Option<Price>, qty: Quantity)
    requires qty == 0 || q == [] || !Reaches(limit, q[0])
    ensures PriceTimeExecution(q, limit, qty, Outcome([], q, qty))
  {
  }

  lemma FrontPartlyConsumed(q: seq<Order>, limit: Option<Price>, qty: Quantity)
    requires q != [] && Reaches(limit, q[0]) && 0 < qty < q[0].remaining
    ensures PriceTimeExecution(q, limit, qty,
              Outcome([Fill(q[0], qty)], [q[0].(remaining := q[0].remaining - qty)] + q[1..], 0))
  {
    var fills := [Fill(q[0], qty)];
    assert fills[1..] == [] && FilledQty([]) == 0;
    assert FilledQty(fills) == qty;
    assert FillsInTurn(q, limit, fills, 0);
    assert LastQty(fills) == qty && q[1 - 1] == q[0];
  }

  lemma LiveFront(side: Side, q: seq<Order>)
    requires IsQueue(side, q) && q != []
    ensures q[0].remaining > 0 && q[0].side == side && IsQueue(side, q[1..])
  {
  }

  /** Matching obeys price-time priority. */
  lemma {:induction false} ConsumeIsPriceTime(side: Side, q: seq<Order>, limit: Option<Price>, qty: Quantity)
    requires IsQueue(side, q)
    ensures PriceTimeExecution(q, limit, qty, Consume(q, limit, qty))
  {
    hide IsQueue, PriceTimeExecution, Reaches;
    if qty == 0 || q == [] || !Reaches(limit, q[0]) {
      NothingConsumed(q, limit, qty);
    } else if qty < q[0].remaining {
      FrontPartlyConsumed(q, limit, qty);
    } else {
      LiveFront(side, q);
      ConsumeIsPriceTime(side, q[1..], limit, qty - q[0].remaining);
      PeelFront(q, limit, qty, Consume(q[1..], limit, qty - q[0].remaining));
    }
  }

  lemma {:induction false} PositiveFillsAreCounted(fills: seq<Fill>)
    requires forall i :: 0 <= i < |fills| ==> fills[i].qty > 0
    ensures FilledQty(fills) == 0 <==> fills == []
  {
    if fills != [] {
      assert fills[0].qty > 0;
    }
  }

  /** The fills of an execution are positive, so there are none when nothing is wanted or can be had. */
  lemma FillsArePositive(q: seq<Order>, limit: Option<Price>, qty: Quantity, r: Outcome)
    requires PriceTimeExecution(q, limit, qty, r)
    ensures forall i :: 0 <= i < |r.fills| ==> r.fills[i].qty > 0
    ensures qty == 0 || q == [] || !Reaches(limit, q[0]) ==> r == Outcome([], q, qty)
  {
    forall i | 0 <= i < |r.fills| ensures r.fills[i].qty > 0 {
      assert FillsInTurn(q, limit, r.fills, i);
    }
    PositiveFillsAreCounted(r.fills);
    assert |r.fills| > 0 ==> FillsInTurn(q, limit, r.fills, 0);
  }

  /** While quantity is wanted and the front is within reach, the front is filled first. */
  lemma FrontIsFilledFirst(q: seq<Order>, limit: Option<Price>, qty: Quantity, r: Outcome)
    requires PriceTimeExecution(q, limit, qty, r)
    requires qty > 0 && q != [] && Reaches(limit, q[0]) && q[0].remaining > 0
    ensures r.fills != [] && r.fills[0].maker == q[0] && 0 < r.fills[0].qty <= q[0].remaining
    ensures r.fills[0].qty < q[0].remaining ==>
              qty == r.fills[0].qty &&
              r == Outcome([Fill(q[0], qty)], [q[0].(remaining := q[0].remaining - qty)] + q[1..], 0)
    ensures r.fills[0].qty <= qty
  {
    assert FilledQty([]) == 0;
    assert r.fills != [];
    assert FillsInTurn(q, limit, r.fills, 0);
    if r.fills[0].qty < q[0].remaining {
      assert r.fills == [r.fills[0]];
      assert r.fills[1..] == [];
    }
  }

  /** The reference definition determines the execution, so it and Consume are the same thing. */
  lemma {:induction false} PriceTimeIsUnique(side: Side, q: seq<Order>, limit: Option<Price>, qty: Quantity, r: Outcome)
    requires IsQueue(side, q)
    requires PriceTimeExecution(q, limit, qty, r)
    ensures r == Consume(q, limit, qty)
  {
    hide IsQueue, PriceTimeExecution, Reaches, FilledQty;
    FillsArePositive(q, limit, qty, r);
    if qty == 0 || q == [] || !Reaches(limit, q[0]) {
    } else {
      LiveFront(side, q);
      FrontIsFilledFirst(q, limit, qty, r);
      if r.fills[0].qty == q[0].remaining {
        var tail := Outcome(r.fills[1..], r.rest, r.left);
        assert r.fills == [Fill(q[0], q[0].remaining)] + tail.fills;
        assert r == Outcome([Fill(q[0], q[0].remaining)] + tail.fills, tail.rest, tail.left);
        PeelFront(q, limit, qty, tail);
        PriceTimeIsUnique(side, q[1..], limit, qty - q[0].remaining, tail);
      }
    }
  }
}
