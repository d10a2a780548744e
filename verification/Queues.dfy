/** Editing a queue: looking up, resting and removing one order, and what each edit keeps. */
module Queues {
  import opened Types
  import opened Matching

  function Find(q: seq<Order>, id: OrderId): Option<Order> {
    if q == [] then None else if q[0].id == id then Some(q[0]) else Find(q[1..], id)
  }

  predicate Holds(q: seq<Order>, id: OrderId) {
    Find(q, id).Some?
  }

  /** Rest an order behind every order with a price at least as good. */
  function Insert(q: seq<Order>, o: Order): seq<Order> {
    if q == [] || BetterPrice(o.side, o.price, q[0].price) then [o] + q else [q[0]] + Insert(q[1..], o)
  }

  function Remove(q: seq<Order>, id: OrderId): seq<Order> {
    if q == [] then [] else if q[0].id == id then q[1..] else [q[0]] + Remove(q[1..], id)
  }

  lemma {:induction false} FindSound(q: seq<Order>, id: OrderId)
    ensures Holds(q, id) ==> Find(q, id).value in q && Find(q, id).value.id == id
    ensures !Holds(q, id) ==> forall o :: o in q ==> o.id != id
  {
    if q != [] {
      FindSound(q[1..], id);
    }
  }

  lemma {:induction false} FindComplete(side: Side, q: seq<Order>, o: Order)
    requires IsQueue(side, q) && o in q
    ensures Find(q, o.id) == Some(o)
  {
    if q[0] != o {
      TailIsQueue(side, q);
      FindComplete(side, q[1..], o);
      var i :| 0 <= i < |q| && q[i] == o;
      assert q[0].id != q[i].id;
    }
  }

  lemma HeadIsUnique(side: Side, q: seq<Order>)
    requires IsQueue(side, q) && q != []
    ensures !Holds(q[1..], q[0].id)
  {
    FindSound(q[1..], q[0].id);
    forall o | o in q[1..] ensures o.id != q[0].id {
      var i :| 0 <= i < |q[1..]| && q[1..][i] == o;
      assert q[i + 1] == o;
    }
  }

  // ----- Inserting -----

  lemma {:induction false} InsertPosition(q: seq<Order>, o: Order) returns (k: nat)
    ensures k <= |q| && Insert(q, o) == q[..k] + [o] + q[k..]
    ensures forall i :: 0 <= i < k ==> !BetterPrice(o.side, o.price, q[i].price)
    ensures k < |q| ==> BetterPrice(o.side, o.price, q[k].price)
  {
    if q == [] || BetterPrice(o.side, o.price, q[0].price) {
      k := 0;
    } else {
      var j := InsertPosition(q[1..], o);
      k := j + 1;
      assert q[..k] == [q[0]] + q[1..][..j];
      assert q[k..] == q[1..][j..];
      forall i | 0 <= i < k ensures !BetterPrice(o.side, o.price, q[i].price) {
        if i > 0 {
          assert q[i] == q[1..][i - 1];
        }
      }
    }
  }

  /** Where the elements of a queue are once an order stands at position k. */
  lemma InsertedAt(q: seq<Order>, o: Order, k: nat, i: nat)
    requires k <= |q| && i <= |q|
    ensures (q[..k] + [o] + q[k..])[i] == if i < k then q[i] else if i == k then o else q[i - 1]
  {
  }

  lemma InsertedInOrder(side: Side, q: seq<Order>, o: Order, k: nat, i: nat, j: nat)
    requires IsQueue(side, q) && o.side == side && k <= |q| && i < j <= |q|
    requires forall x :: x in q ==> x.id < o.id
    requires forall x :: 0 <= x < k ==> !BetterPrice(side, o.price, q[x].price)
    requires k < |q| ==> BetterPrice(side, o.price, q[k].price)
    ensures var r := q[..k] + [o] + q[k..]; Before(r[i], r[j]) && r[i].id != r[j].id
  {
    InsertedAt(q, o, k, i);
    InsertedAt(q, o, k, j);
    if i == k {
      assert q[j - 1] in q;
      assert k < j - 1 ==> Before(q[k], q[j - 1]);
    } else if j == k {
      assert q[i] in q;
    } else {
      var i', j' := if i < k then i else i - 1, if j < k then j else j - 1;
      assert Before(q[i'], q[j']) && q[i'].id != q[j'].id;
    }
  }

  lemma InsertKeepsQueue(side: Side, q: seq<Order>, o: Order)
    requires IsQueue(side, q)
    requires o.side == side && o.remaining > 0
    requires forall x :: x in q ==> x.id < o.id
    ensures IsQueue(side, Insert(q, o))
  {
    hide Before, BetterPrice;
    var k := InsertPosition(q, o);
    var r := q[..k] + [o] + q[k..];
    forall i, j | 0 <= i < j < |r| ensures Before(r[i], r[j]) && r[i].id != r[j].id {
      InsertedInOrder(side, q, o, k, i, j);
    }
    forall i | 0 <= i < |r| ensures r[i].side == side && r[i].remaining > 0 {
      InsertedAt(q, o, k, i);
    }
  }

  lemma {:induction false} FindInsert(q: seq<Order>, o: Order, id: OrderId)
    requires forall x :: x in q ==> x.id != o.id
    ensures Find(Insert(q, o), id) == if id == o.id then Some(o) else Find(q, id)
  {
    if q == [] || BetterPrice(o.side, o.price, q[0].price) {
    } else {
      FindInsert(q[1..], o, id);
    }
  }

  lemma {:induction false} RemoveUndoesInsert(q: seq<Order>, o: Order)
    requires forall x :: x in q ==> x.id != o.id
    ensures Remove(Insert(q, o), o.id) == q
  {
    if q == [] || BetterPrice(o.side, o.price, q[0].price) {
    } else {
      RemoveUndoesInsert(q[1..], o);
    }
  }

  // ----- Removing -----

  lemma {:induction false} RemovePosition(q: seq<Order>, id: OrderId) returns (k: nat)
    requires Holds(q, id)
    ensures k < |q| && q[k] == Find(q, id).value && q[k].id == id
    ensures Remove(q, id) == q[..k] + q[k + 1..]
  {
    if q[0].id == id {
      k := 0;
    } else {
      var j := RemovePosition(q[1..], id);
      k := j + 1;
      assert q[..k] == [q[0]] + q[1..][..j];
    }
  }

  lemma RemoveKeepsQueue(side: Side, q: seq<Order>, id: OrderId)
    requires IsQueue(side, q) && Holds(q, id)
    ensures IsQueue(side, Remove(q, id))
  {
    var k := RemovePosition(q, id);
    DroppingKeepsQueue(side, q, k);
  }

  lemma DroppingKeepsQueue(side: Side, q: seq<Order>, k: nat)
    requires IsQueue(side, q) && k < |q|
    ensures IsQueue(side, q[..k] + q[k + 1..])
  {
    var r := q[..k] + q[k + 1..];
    forall i, j | 0 <= i < j < |r| ensures Before(r[i], r[j]) && r[i].id != r[j].id {
      var i', j' := if i < k then i else i + 1, if j < k then j else j + 1;
      assert r[i] == q[i'] && r[j] == q[j'];
    }
  }

  lemma {:induction false} FindRemove(side: Side, q: seq<Order>, gone: OrderId, id: OrderId)
    requires IsQueue(side, q)
    ensures Find(Remove(q, gone), id) == if id == gone then None else Find(q, id)
  {
    if q != [] {
      TailIsQueue(side, q);
      if q[0].id == gone {
        HeadIsUnique(side, q);
      } else {
        FindRemove(side, q[1..], gone, id);
      }
    }
  }

  // ----- Consuming -----

  /** A partly filled front keeps its place. */
  lemma ReducingKeepsQueue(side: Side, q: seq<Order>, left: Quantity)
    requires IsQueue(side, q) && q != [] && left > 0
    ensures IsQueue(side, [q[0].(remaining := left)] + q[1..])
  {
    var r := [q[0].(remaining := left)] + q[1..];
    forall i, j | 0 <= i < j < |r| ensures Before(r[i], r[j]) && r[i].id != r[j].id {
      assert Before(q[i], q[j]) && q[i].id != q[j].id;
    }
  }

  lemma {:induction false} ConsumeKeepsQueue(side: Side, q: seq<Order>, limit: Option<Price>, qty: Quantity)
    requires IsQueue(side, q)
    ensures IsQueue(side, Consume(q, limit, qty).rest)
  {
    hide IsQueue, Reaches;
    if qty == 0 || q == [] || !Reaches(limit, q[0]) {
    } else if qty < q[0].remaining {
      ReducingKeepsQueue(side, q, q[0].remaining - qty);
    } else {
      TailIsQueue(side, q);
      ConsumeKeepsQueue(side, q[1..], limit, qty - q[0].remaining);
    }
  }

  /** Every order that survives an execution was there before, and only its quantity may have changed. */
  lemma {:induction false} ConsumeOrigin(side: Side, q: seq<Order>, limit: Option<Price>, qty: Quantity, o: Order)
    requires IsQueue(side, q)
    requires o in Consume(q, limit, qty).rest
    ensures exists was :: was in q && o == was.(remaining := o.remaining) && o.remaining <= was.remaining
  {
    hide IsQueue, Reaches;
    if o !in q {
      if qty < q[0].remaining {
        assert o == q[0].(remaining := o.remaining);
      } else {
        TailIsQueue(side, q);
        ConsumeOrigin(side, q[1..], limit, qty - q[0].remaining, o);
      }
    }
  }

  predicate MakerIn(fills: seq<Fill>, id: OrderId) {
    exists i :: 0 <= i < |fills| && fills[i].maker.id == id
  }

  lemma MakerInSplit(fills: seq<Fill>, id: OrderId)
    ensures fills == [] ==> !MakerIn(fills, id)
    ensures fills != [] ==> (MakerIn(fills, id) <==> fills[0].maker.id == id || MakerIn(fills[1..], id))
  {
    if fills != [] {
      if MakerIn(fills[1..], id) {
        var i :| 0 <= i < |fills[1..]| && fills[1..][i].maker.id == id;
        assert fills[i + 1].maker.id == id;
      }
      if MakerIn(fills, id) && fills[0].maker.id != id {
        var i :| 0 <= i < |fills| && fills[i].maker.id == id;
        assert fills[1..][i - 1].maker.id == id;
      }
    }
  }

  /** Executions leave every order alone that is not one of the makers. */
  lemma {:induction false} FindConsume(side: Side, q: seq<Order>, limit: Option<Price>, qty: Quantity, id: OrderId)
    requires IsQueue(side, q)
    ensures var r := Consume(q, limit, qty);
            && (MakerIn(r.fills, id) ==> Holds(q, id))
            && (!MakerIn(r.fills, id) ==> Find(r.rest, id) == Find(q, id))
            && (Holds(r.rest, id) ==>
                  Holds(q, id) && 0 < Find(r.rest, id).value.remaining <= Find(q, id).value.remaining &&
                  Find(r.rest, id).value == Find(q, id).value.(remaining := Find(r.rest, id).value.remaining))
  {
    hide IsQueue, Reaches, MakerIn;
    var r := Consume(q, limit, qty);
    MakerInSplit(r.fills, id);
    FoundIsLive(side, q, id);
    if qty == 0 || q == [] || !Reaches(limit, q[0]) {
    } else {
      TailIsQueue(side, q);
      HeadIsUnique(side, q);
      if qty < q[0].remaining {
        assert r.fills[1..] == [];
        MakerInSplit([], id);
      } else {
        FindConsume(side, q[1..], limit, qty - q[0].remaining, id);
        assert r.fills[1..] == Consume(q[1..], limit, qty - q[0].remaining).fills;
      }
    }
  }

  lemma FoundIsLive(side: Side, q: seq<Order>, id: OrderId)
    requires IsQueue(side, q)
    ensures Holds(q, id) ==> Find(q, id).value.remaining > 0
  {
    FindSound(q, id);
  }
}
