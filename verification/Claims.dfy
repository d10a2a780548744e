/**
 * Claims: how much of each account's locked part the resting orders are entitled to. Every edit of a book
 * changes the claims by what the ledger moves, up to the rounding of a partially filled bid's fee.
 */
module Claims {
  import opened Types
  import opened Fees
  import opened Matching
  import opened Queues
  import opened Books
  import opened Ledger
  import opened Engine

  function Claim(fees: FeeSchedule, asset: Asset, o: Order, k: Account): nat {
    if k == Funding(o.user, o.side, asset) then CancelRefund(fees, o) else 0
  }

  function Claims(fees: FeeSchedule, asset: Asset, q: seq<Order>, k: Account): nat {
    if q == [] then 0 else Claim(fees, asset, q[0], k) + Claims(fees, asset, q[1..], k)
  }

  function BookClaims(fees: FeeSchedule, asset: Asset, b: Book, k: Account): nat {
    Claims(fees, asset, b.bids, k) + Claims(fees, asset, b.asks, k)
  }

  function TotalClaims(e: Engine, k: Account): nat {
    BookClaims(e.fees, Sol, e.sol, k) + BookClaims(e.fees, Btc, e.btc, k) + BookClaims(e.fees, Eth, e.eth, k)
  }

  // ----- Editing a queue -----

  lemma {:induction false} ClaimsInsert(fees: FeeSchedule, asset: Asset, q: seq<Order>, o: Order, k: Account)
    ensures Claims(fees, asset, Insert(q, o), k) == Claims(fees, asset, q, k) + Claim(fees, asset, o, k)
  {
    if q == [] || BetterPrice(o.side, o.price, q[0].price) {
      assert Insert(q, o)[1..] == q;
    } else {
      ClaimsInsert(fees, asset, q[1..], o, k);
      assert Insert(q, o)[1..] == Insert(q[1..], o);
    }
  }

  lemma {:induction false} ClaimsRemove(fees: FeeSchedule, asset: Asset, q: seq<Order>, id: OrderId, k: Account)
    requires Holds(q, id)
    ensures Claims(fees, asset, Remove(q, id), k) ==
            Claims(fees, asset, q, k) - Claim(fees, asset, Find(q, id).value, k)
  {
    if q[0].id != id {
      ClaimsRemove(fees, asset, q[1..], id, k);
      assert Remove(q, id)[1..] == Remove(q[1..], id);
    }
  }

  // ----- Executing against a queue -----

  /** What a fill takes from its maker's locked funds. */
  function MakerPays(fees: FeeSchedule, f: Fill): nat {
    if f.maker.side.Bid? then Cost(f.maker.price, f.qty) + fees.MakerFee(Cost(f.maker.price, f.qty)) else f.qty
  }

  /** What a fill takes from the taker's locked funds. */
  function TakerPays(fees: FeeSchedule, f: Fill): nat {
    if f.maker.side.Ask? then Cost(f.maker.price, f.qty) + fees.TakerFee(Cost(f.maker.price, f.qty)) else f.qty
  }

  function MakerDebits(fees: FeeSchedule, asset: Asset, fills: seq<Fill>, k: Account): nat {
    if fills == [] then 0 else
      (if k == Funding(fills[0].maker.user, fills[0].maker.side, asset) then MakerPays(fees, fills[0]) else 0) +
      MakerDebits(fees, asset, fills[1..], k)
  }

  function TakerDebits(fees: FeeSchedule, fills: seq<Fill>): nat {
    if fills == [] then 0 else TakerPays(fees, fills[0]) + TakerDebits(fees, fills[1..])
  }

  /** The fills that leave a bid of this account's user resting with less: only these can round. */
  function PartialBidFills(asset: Asset, fills: seq<Fill>, k: Account): nat {
    if fills == [] then 0 else
      var f := fills[0];
      (if f.maker.side.Bid? && f.qty < f.maker.remaining && k == Funding(f.maker.user, Bid, asset) then 1 else 0) +
      PartialBidFills(asset, fills[1..], k)
  }

  /** One fill: the maker's claim shrinks by what the maker pays, or by at most one unit more for a bid. */
  lemma FillKeepsClaim(fees: FeeSchedule, o: Order, qty: Quantity)
    requires qty <= o.remaining
    ensures var less := o.(remaining := o.remaining - qty);
            var paid := MakerPays(fees, Fill(o, qty));
            && paid + CancelRefund(fees, less) <= CancelRefund(fees, o)
            && CancelRefund(fees, o) <= paid + CancelRefund(fees, less) +
                 if o.side.Bid? && 0 < qty < o.remaining && fees.MakerFeesRound() then 1 else 0
    ensures qty == o.remaining ==> CancelRefund(fees, o) == MakerPays(fees, Fill(o, qty))
  {
    if o.side.Bid? {
      CostOfParts(o.price, qty, o.remaining - qty);
      FeeOfParts(fees.makerBps, Cost(o.price, qty), Cost(o.price, o.remaining - qty));
      if !fees.MakerFeesRound() {
        WholeRateHasNoRemainder(fees.makerBps, Cost(o.price, qty), Cost(o.price, o.remaining - qty));
      }
    }
  }

  lemma CostOfParts(price: Price, x: Quantity, y: Quantity)
    ensures Cost(price, x + y) == Cost(price, x) + Cost(price, y)
    ensures x == 0 ==> Cost(price, x) == 0
    ensures y == 0 ==> Cost(price, y) == 0
  {
  }

  /** An execution releases exactly the claims its makers pay for, up to the rounding of a partial bid fill. */
  lemma {:induction false} ConsumeClaims(fees: FeeSchedule, asset: Asset, q: seq<Order>, limit: Option<Price>,
                                         qty: Quantity, k: Account)
    ensures var r := Consume(q, limit, qty);
            var kept := MakerDebits(fees, asset, r.fills, k) + Claims(fees, asset, r.rest, k);
            && kept <= Claims(fees, asset, q, k)
            && Claims(fees, asset, q, k) <= kept +
                 if fees.MakerFeesRound() then PartialBidFills(asset, r.fills, k) else 0
  {
    hide CancelRefund, MakerPays, Reaches;
    if qty == 0 || q == [] || !Reaches(limit, q[0]) {
    } else if qty < q[0].remaining {
      FillKeepsClaim(fees, q[0], qty);
      var r := Consume(q, limit, qty);
      assert r.rest[1..] == q[1..];
      assert r.fills[1..] == [];
      assert MakerDebits(fees, asset, r.fills[1..], k) == 0;
    } else {
      FillKeepsClaim(fees, q[0], q[0].remaining);
      ConsumeClaims(fees, asset, q[1..], limit, qty - q[0].remaining, k);
      var r := Consume(q, limit, qty);
      assert r.fills[1..] == Consume(q[1..], limit, qty - q[0].remaining).fills;
    }
  }

  /** At most one fill of an execution is partial. */
  lemma {:induction false} AtMostOnePartialFill(asset: Asset, q: seq<Order>, limit: Option<Price>, qty: Quantity,
                                                k: Account)
    ensures PartialBidFills(asset, Consume(q, limit, qty).fills, k) <= 1
    ensures k.currency.Base? ==> PartialBidFills(asset, Consume(q, limit, qty).fills, k) == 0
  {
    var r := Consume(q, limit, qty);
    if qty == 0 || q == [] || !Reaches(limit, q[0]) {
    } else if qty < q[0].remaining {
      assert r.fills[1..] == [];
      assert PartialBidFills(asset, r.fills[1..], k) == 0;
    } else {
      AtMostOnePartialFill(asset, q[1..], limit, qty - q[0].remaining, k);
      assert r.fills[1..] == Consume(q[1..], limit, qty - q[0].remaining).fills;
    }
  }

  // ----- From fills to ledger debits -----

  ghost predicate MakersOn(side: Side, fills: seq<Fill>) {
    forall i :: 0 <= i < |fills| ==> fills[i].maker.side == side
  }

  lemma ConsumeMakersOn(side: Side, q: seq<Order>, limit: Option<Price>, qty: Quantity)
    requires IsQueue(side, q)
    ensures MakersOn(side, Consume(q, limit, qty).fills)
  {
    ConsumeIsPriceTime(side, q, limit, qty);
    var fills := Consume(q, limit, qty).fills;
    forall i | 0 <= i < |fills| ensures fills[i].maker.side == side {
      assert FillsInTurn(q, limit, fills, i);
    }
  }

  /** Settling the trades of an execution debits each maker and the taker, and nobody else. */
  lemma {:induction false} TradesDebit(fees: FeeSchedule, asset: Asset, id: OrderId, user: UserId, side: Side,
                                       fills: seq<Fill>, k: Account)
    requires MakersOn(side.Opposite(), fills)
    ensures Debits(fees, asset, Trades(id, user, side, fills), k) ==
            MakerDebits(fees, asset, fills, k) +
            if k == Funding(user, side, asset) then TakerDebits(fees, fills) else 0
  {
    if fills != [] {
      TradesDebit(fees, asset, id, user, side, fills[1..], k);
      var trades := Trades(id, user, side, fills);
      assert trades[1..] == Trades(id, user, side, fills[1..]);
      assert fills[0].maker.side == side.Opposite();
      assert Debit(fees, asset, trades[0], k) ==
             (if k == Funding(fills[0].maker.user, fills[0].maker.side, asset) then MakerPays(fees, fills[0]) else 0) +
             (if k == Funding(user, side, asset) then TakerPays(fees, fills[0]) else 0);
    }
  }

  lemma {:induction false} BuyerSpendsTakerDebits(fees: FeeSchedule, id: OrderId, user: UserId, fills: seq<Fill>)
    requires MakersOn(Ask, fills)
    ensures BuyerSpent(fees, Trades(id, user, Bid, fills)) == TakerDebits(fees, fills)
  {
    if fills != [] {
      BuyerSpendsTakerDebits(fees, id, user, fills[1..]);
      assert Trades(id, user, Bid, fills)[1..] == Trades(id, user, Bid, fills[1..]);
      assert fills[0].maker.side == Ask;
    }
  }

  lemma {:induction false} SellerDeliversTakerDebits(fees: FeeSchedule, fills: seq<Fill>)
    requires MakersOn(Bid, fills)
    ensures TakerDebits(fees, fills) == FilledQty(fills)
  {
    if fills != [] {
      SellerDeliversTakerDebits(fees, fills[1..]);
      assert fills[0].maker.side == Bid;
    }
  }

  // ----- The lock is sufficient -----

  /** Fees taken fill by fill never exceed the fee reserved on the total cost. */
  lemma {:induction false} CostCoversTaker(fees: FeeSchedule, fills: seq<Fill>)
    requires MakersOn(Ask, fills)
    ensures TakerDebits(fees, fills) <= FilledCost(fills) + fees.TakerFee(FilledCost(fills))
  {
    if fills != [] {
      CostCoversTaker(fees, fills[1..]);
      assert fills[0].maker.side == Ask;
      FeeOfParts(fees.takerBps, Cost(fills[0].maker.price, fills[0].qty), FilledCost(fills[1..]));
    }
  }

  lemma {:induction false} FilledWithinLimit(q: seq<Order>, price: Price, qty: Quantity)
    requires forall o :: o in q ==> o.side == Ask
    ensures FilledCost(Consume(q, Some(price), qty).fills) <=
            Cost(price, FilledQty(Consume(q, Some(price), qty).fills))
  {
    var r := Consume(q, Some(price), qty);
    if qty == 0 || q == [] || !Reaches(Some(price), q[0]) {
    } else {
      var first := r.fills[0].qty;
      if qty < q[0].remaining {
        assert r.fills[1..] == [];
        assert FilledCost(r.fills[1..]) == 0 && FilledQty(r.fills[1..]) == 0;
      } else {
        FilledWithinLimit(q[1..], price, qty - q[0].remaining);
        assert r.fills[1..] == Consume(q[1..], Some(price), qty - q[0].remaining).fills;
      }
      CostOfParts(price, first, FilledQty(r.fills[1..]));
      ProductMonotone(q[0].price, price, first, first);
    }
  }

  /** Reserving at the higher of both rates covers any split between a taker part and a maker part. */
  lemma ReserveCoversSplit(fees: FeeSchedule, paid: nat, cost: nat, rest: nat, total: nat)
    requires paid <= cost + fees.TakerFee(cost)
    requires cost + rest <= total
    ensures paid + rest + fees.MakerFee(rest) <= total + Fee(fees.ReserveBps(), total)
  {
    FeeMonotone(fees.takerBps, fees.ReserveBps(), cost, cost);
    FeeMonotone(fees.makerBps, fees.ReserveBps(), rest, rest);
    FeeOfParts(fees.ReserveBps(), cost, rest);
    FeeMonotone(fees.ReserveBps(), fees.ReserveBps(), cost + rest, total);
  }

  lemma {:induction false} FilledPlusLeft(q: seq<Order>, limit: Option<Price>, qty: Quantity)
    ensures FilledQty(Consume(q, limit, qty).fills) + Consume(q, limit, qty).left == qty
  {
    var r := Consume(q, limit, qty);
    if qty == 0 || q == [] || !Reaches(limit, q[0]) {
    } else if qty < q[0].remaining {
      assert r.fills[1..] == [];
    } else {
      FilledPlusLeft(q[1..], limit, qty - q[0].remaining);
      assert r.fills[1..] == Consume(q[1..], limit, qty - q[0].remaining).fills;
    }
  }

  /** Filling within the limit and resting the remainder costs no more than the whole order at its limit. */
  lemma CostWithinLimit(q: seq<Order>, price: Price, qty: Quantity)
    requires forall o :: o in q ==> o.side == Ask
    ensures var r := Consume(q, Some(price), qty);
            FilledCost(r.fills) + Cost(price, r.left) <= Cost(price, qty)
  {
    FilledWithinLimit(q, price, qty);
    FilledPlusLeft(q, Some(price), qty);
    var r := Consume(q, Some(price), qty);
    CostOfParts(price, FilledQty(r.fills), r.left);
  }

  /** A limit bid's lock covers its fills, their taker fees and whatever still has to rest. */
  lemma LimitBidLockIsSufficient(fees: FeeSchedule, q: seq<Order>, price: Price, qty: Quantity)
    requires IsQueue(Ask, q)
    ensures var r := Consume(q, Some(price), qty);
            var rest := Cost(price, r.left);
            TakerDebits(fees, r.fills) + rest + fees.MakerFee(rest) <= LimitLock(fees, Bid, price, qty)
  {
    var r := Consume(q, Some(price), qty);
    ConsumeMakersOn(Ask, q, Some(price), qty);
    CostCoversTaker(fees, r.fills);
    CostWithinLimit(q, price, qty);
    ReserveCoversSplit(fees, TakerDebits(fees, r.fills), FilledCost(r.fills), Cost(price, r.left), Cost(price, qty));
  }
}
