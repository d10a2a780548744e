/**
 * Solvency: in every reachable state each user's locked base asset is exactly what their resting asks hold,
 * locked USD covers their resting bids with fees, and nothing is negative, so no ledger subtraction can
 * underflow. All order types reduce to one settlement whose lock is spent, refunded and kept without loss.
 */
module Solvency {
  import opened Types
  import opened Fees
  import opened Matching
  import opened Queues
  import opened Books
  import opened Ledger
  import opened Engine
  import opened Claims

  // ----- The invariant -----

  ghost predicate BooksSound(e: Engine) {
    forall a: Asset :: WellFormed(e.BookOf(a)) && e.BookOf(a).nextId <= e.nextId
  }

  /** Order ids are unique across the markets. */
  ghost predicate IdsApart(e: Engine) {
    forall a: Asset, b: Asset, id :: a != b && e.BookOf(a).Has(id) ==> !e.BookOf(b).Has(id)
  }

  ghost predicate AccountSolvent(e: Engine, k: Account) {
    && Get(e.accounts, k).available >= 0
    && Get(e.accounts, k).locked >= TotalClaims(e, k)
    && (k.currency.Base? ==> Get(e.accounts, k).locked == TotalClaims(e, k))
  }

  ghost predicate Solvent(e: Engine) {
    forall k: Account :: AccountSolvent(e, k)
  }

  ghost predicate Inv(e: Engine) {
    BooksSound(e) && IdsApart(e) && Solvent(e)
  }

  /** What is locked beyond what the resting orders need: the rounding of past partial fills. */
  function Slack(e: Engine, k: Account): int {
    Get(e.accounts, k).locked - TotalClaims(e, k)
  }

  // ----- One settlement -----

  function MatchedBook(b: Book, id: OrderId, side: Side, limit: Option<Price>, qty: Quantity): Book {
    b.IssuedUpTo(id).WithSide(side.Opposite(), Consume(b.SideOf(side.Opposite()), limit, qty).rest)
  }

  function FillsOf(b: Book, side: Side, limit: Option<Price>, qty: Quantity): seq<Fill> {
    Consume(b.SideOf(side.Opposite()), limit, qty).fills
  }

  /** x matches qty against the opposite side and may rest one order of the taker. */
  ghost predicate IsExecution(b: Book, id: OrderId, user: UserId, side: Side, limit: Option<Price>, qty: Quantity,
                              x: Execution)
  {
    var matched := MatchedBook(b, id, side, limit, qty);
    && x.trades == Trades(id, user, side, FillsOf(b, side, limit, qty))
    && (x.resting.None? ==> x.book == matched)
    && (x.resting.Some? ==>
          var o := x.resting.value;
          o.id == id && o.user == user && o.side == side &&
          x.book == matched.WithSide(side, Insert(matched.SideOf(side), o)))
  }

  /** What the taker's resting remainder claims. */
  function Kept(fees: FeeSchedule, x: Execution): nat {
    match x.resting
    case None => 0
    case Some(o) => CancelRefund(fees, o)
  }

  /** An accepted order: what it executes, what it locks first and what it gets back at the end. */
  datatype Settlement = Settlement(
    asset: Asset,
    user: UserId,
    side: Side,
    limit: Option<Price>,
    matched: Quantity,
    original: Quantity,
    x: Execution,
    lock: int,
    refund: int)
  {
    function Payer(): Account {
      Funding(user, side, asset)
    }

    function Fills(e: Engine): seq<Fill> {
      FillsOf(e.BookOf(asset), side, limit, matched)
    }

    function Apply(e: Engine): Engine {
      Settle(e, asset, Payer(), lock, x, refund)
    }
  }

  /** The lock is available, and is spent on the fills, refunded, or kept for the resting order: no loss, no gap. */
  ghost predicate Balanced(e: Engine, s: Settlement) {
    && IsExecution(e.BookOf(s.asset), e.nextId, s.user, s.side, s.limit, s.matched, s.x)
    && WellFormed(s.x.book) && s.x.book.nextId == e.nextId + 1
    && 0 <= s.lock <= Get(e.accounts, s.Payer()).available
    && 0 <= s.refund
    && s.lock == TakerDebits(e.fees, s.Fills(e)) + s.refund + Kept(e.fees, s.x)
  }

  lemma SettleMoves(a: Accounts, fees: FeeSchedule, asset: Asset, payer: Account, lock: int, trades: seq<Trade>,
                    refund: int, k: Account)
    ensures var settled := ApplyTrades(Adjust(a, payer, -lock, lock), fees, asset, trades);
            var after := Get(Adjust(settled, payer, refund, -refund), k);
            && after.locked == Get(a, k).locked - Debits(fees, asset, trades, k) +
                               (if k == payer then lock - refund else 0)
            && after.available == Get(a, k).available + Credits(fees, asset, trades, k) +
                                  (if k == payer then refund - lock else 0)
  {
    TradesEffect(Adjust(a, payer, -lock, lock), fees, asset, trades, k);
  }

  lemma SettlementBalances(e: Engine, s: Settlement, k: Account)
    requires BooksSound(e) && Balanced(e, s)
    ensures var after := s.Apply(e).accounts;
            && Get(after, k).locked == Get(e.accounts, k).locked - MakerDebits(e.fees, s.asset, s.Fills(e), k) +
                                       (if k == s.Payer() then Kept(e.fees, s.x) else 0)
            && Get(after, k).available == Get(e.accounts, k).available + Credits(e.fees, s.asset, s.x.trades, k) +
                                          (if k == s.Payer() then s.refund - s.lock else 0)
  {
    SettlementDebits(e, s, k);
    ApplyMoves(e, s, k);
  }

  lemma ApplyMoves(e: Engine, s: Settlement, k: Account)
    ensures var after := Get(s.Apply(e).accounts, k);
            && after.locked == Get(e.accounts, k).locked - Debits(e.fees, s.asset, s.x.trades, k) +
                               (if k == s.Payer() then s.lock - s.refund else 0)
            && after.available == Get(e.accounts, k).available + Credits(e.fees, s.asset, s.x.trades, k) +
                                  (if k == s.Payer() then s.refund - s.lock else 0)
  {
    SettleMoves(e.accounts, e.fees, s.asset, s.Payer(), s.lock, s.x.trades, s.refund, k);
    SettleAccounts(e, s);
  }

  lemma SettlementDebits(e: Engine, s: Settlement, k: Account)
    requires BooksSound(e) && Balanced(e, s)
    ensures Debits(e.fees, s.asset, s.x.trades, k) ==
            MakerDebits(e.fees, s.asset, s.Fills(e), k) +
            (if k == s.Payer() then s.lock - s.refund - Kept(e.fees, s.x) else 0)
  {
    var b := e.BookOf(s.asset);
    ConsumeMakersOn(s.side.Opposite(), b.SideOf(s.side.Opposite()), s.limit, s.matched);
    TradesDebit(e.fees, s.asset, e.nextId, s.user, s.side, s.Fills(e), k);
  }

  lemma SettleAccounts(e: Engine, s: Settlement)
    ensures s.Apply(e).accounts ==
            Adjust(ApplyTrades(Adjust(e.accounts, s.Payer(), -s.lock, s.lock), e.fees, s.asset, s.x.trades),
                   s.Payer(), s.refund, -s.refund)
    ensures s.Apply(e).nextId == e.nextId + 1 && s.Apply(e).fees == e.fees
    ensures forall a: Asset :: s.Apply(e).BookOf(a) == if a == s.asset then s.x.book else e.BookOf(a)
  {
    hide ApplyTrades, Adjust;
  }

  lemma ExecutionClaims(e: Engine, s: Settlement, k: Account)
    requires BooksSound(e) && Balanced(e, s)
    ensures var fills := s.Fills(e);
            var before := BookClaims(e.fees, s.asset, e.BookOf(s.asset), k) +
                          (if k == s.Payer() then Kept(e.fees, s.x) else 0);
            var after := MakerDebits(e.fees, s.asset, fills, k) + BookClaims(e.fees, s.asset, s.x.book, k);
            && after <= before
            && before <= after + if e.fees.MakerFeesRound() then PartialBidFills(s.asset, fills, k) else 0
  {
    hide BooksSound, Consume, MakerDebits, PartialBidFills, TakerDebits, CancelRefund, WellFormed, Insert;
    var b := e.BookOf(s.asset);
    ConsumeClaims(e.fees, s.asset, b.SideOf(s.side.Opposite()), s.limit, s.matched, k);
    if s.x.resting.Some? {
      var matched := MatchedBook(b, e.nextId, s.side, s.limit, s.matched);
      ClaimsInsert(e.fees, s.asset, matched.SideOf(s.side), s.x.resting.value, k);
    }
  }

  lemma ClaimsWithBook(e: Engine, asset: Asset, b: Book, k: Account)
    ensures TotalClaims(e.WithBook(asset, b), k) ==
            TotalClaims(e, k) - BookClaims(e.fees, asset, e.BookOf(asset), k) + BookClaims(e.fees, asset, b, k)
  {
  }

  /** Slack never shrinks, and grows by at most the partial fills of the account's own bids. */
  lemma SettlementSlack(e: Engine, s: Settlement, k: Account)
    requires BooksSound(e) && Balanced(e, s)
    ensures var grown := Slack(s.Apply(e), k) - Slack(e, k);
            0 <= grown <= if e.fees.MakerFeesRound() then PartialBidFills(s.asset, s.Fills(e), k) else 0
  {
    SettlementBalances(e, s, k);
    ExecutionClaims(e, s, k);
    ApplyClaims(e, s, k);
  }

  lemma ApplyClaims(e: Engine, s: Settlement, k: Account)
    ensures TotalClaims(s.Apply(e), k) ==
            TotalClaims(e, k) - BookClaims(e.fees, s.asset, e.BookOf(s.asset), k) +
            BookClaims(e.fees, s.asset, s.x.book, k)
  {
    SettleAccounts(e, s);
    assert forall a: Asset :: BookClaims(e.fees, a, s.Apply(e).BookOf(a), k) ==
                              BookClaims(e.fees, a, if a == s.asset then s.x.book else e.BookOf(a), k);
    TotalByMarket(e, k);
    TotalByMarket(s.Apply(e), k);
  }

  lemma TotalByMarket(e: Engine, k: Account)
    ensures TotalClaims(e, k) == BookClaims(e.fees, Sol, e.BookOf(Sol), k) + BookClaims(e.fees, Btc, e.BookOf(Btc), k) +
                                 BookClaims(e.fees, Eth, e.BookOf(Eth), k)
  {
  }

  lemma SettlementKeepsSolvent(e: Engine, s: Settlement)
    requires BooksSound(e) && Solvent(e) && Balanced(e, s)
    ensures Solvent(s.Apply(e))
  {
    forall k: Account ensures AccountSolvent(s.Apply(e), k) {
      assert AccountSolvent(e, k);
      assert AccountSolvent(e, s.Payer());
      SettlementBalances(e, s, k);
      SettlementSlack(e, s, k);
      var b := e.BookOf(s.asset);
      AtMostOnePartialFill(s.asset, b.SideOf(s.side.Opposite()), s.limit, s.matched, k);
    }
  }

  lemma SettlementLookup(e: Engine, s: Settlement, id: OrderId)
    requires BooksSound(e) && Balanced(e, s)
    ensures var b := e.BookOf(s.asset);
            && (s.x.resting.Some? && id == e.nextId ==> s.x.book.Lookup(id) == s.x.resting)
            && (MakerIn(s.Fills(e), id) ==> b.Has(id))
            && (id != e.nextId && !MakerIn(s.Fills(e), id) ==> s.x.book.Lookup(id) == b.Lookup(id))
            && (id != e.nextId && s.x.book.Has(id) ==>
                  b.Has(id) && 0 < s.x.book.RemainingOf(id) <= b.RemainingOf(id) &&
                  s.x.book.Lookup(id).value == b.Lookup(id).value.(remaining := s.x.book.RemainingOf(id)))
            && (s.x.resting.None? && id == e.nextId ==> !s.x.book.Has(id))
            && !b.Has(e.nextId)
  {
    var b := e.BookOf(s.asset);
    var matched := MatchedBook(b, e.nextId, s.side, s.limit, s.matched);
    ExecutionLookup(b, e.nextId, s.user, s.side, s.limit, s.matched, id);
    LookupIsSound(b, e.nextId);
    LookupIsSound(b, id);
    if s.x.resting.Some? {
      forall o | InBook(matched, o) ensures o.id != e.nextId {
        MatchedBookOrders(b, e.nextId, s.side, s.limit, s.matched, o);
      }
      RestingLookup(matched, s.x.resting.value, id);
    }
  }

  lemma MatchedBookOrders(b: Book, id: OrderId, side: Side, limit: Option<Price>, qty: Quantity, o: Order)
    requires WellFormed(b) && b.nextId <= id
    requires InBook(MatchedBook(b, id, side, limit, qty), o)
    ensures o.id < id
  {
    var q := b.SideOf(side.Opposite());
    if o in Consume(q, limit, qty).rest {
      ConsumeOrigin(side.Opposite(), q, limit, qty, o);
      var was :| was in q && o == was.(remaining := o.remaining);
      assert InBook(b, was);
    } else {
      assert InBook(b, o);
    }
  }

  lemma SettlementKeepsBooks(e: Engine, s: Settlement)
    requires BooksSound(e) && Balanced(e, s)
    ensures BooksSound(s.Apply(e))
  {
    SettleAccounts(e, s);
    var after := s.Apply(e);
    forall a: Asset ensures WellFormed(after.BookOf(a)) && after.BookOf(a).nextId <= after.nextId {
      assert WellFormed(e.BookOf(a)) && e.BookOf(a).nextId <= e.nextId;
    }
  }

  lemma SettlementAddsOneId(e: Engine, s: Settlement, a: Asset, id: OrderId)
    requires BooksSound(e) && Balanced(e, s)
    requires s.Apply(e).BookOf(a).Has(id)
    ensures e.BookOf(a).Has(id) || (a == s.asset && id == e.nextId)
    ensures !e.BookOf(a).Has(e.nextId)
  {
    SettleAccounts(e, s);
    SettlementLookup(e, s, id);
    LookupIsSound(e.BookOf(a), e.nextId);
  }

  lemma SettlementKeepsIds(e: Engine, s: Settlement)
    requires BooksSound(e) && IdsApart(e) && Balanced(e, s)
    ensures IdsApart(s.Apply(e))
  {
    var after := s.Apply(e);
    forall a: Asset, b: Asset, id | a != b && after.BookOf(a).Has(id) ensures !after.BookOf(b).Has(id) {
      SettlementAddsOneId(e, s, a, id);
      if after.BookOf(b).Has(id) {
        SettlementAddsOneId(e, s, b, id);
      }
    }
  }

  // ----- Every accepted order is a balanced settlement -----

  ghost predicate HasFunds(e: Engine, k: Account, lock: nat) {
    lock <= Get(e.accounts, k).available
  }

  function LimitSettlement(e: Engine, user: UserId, asset: Asset, side: Side, price: Price, qty: Quantity,
                           tif: TimeInForce): Settlement
  {
    var out := Consume(e.BookOf(asset).SideOf(side.Opposite()), Some(price), qty);
    var x := PlaceLimit(e.BookOf(asset), e.nextId, user, side, price, qty, tif);
    var lock := LimitLock(e.fees, side, price, qty);
    Settlement(asset, user, side, Some(price), if tif.Fok? && out.left > 0 then 0 else qty, qty, x, lock,
               LimitRefund(e.fees, side, lock, qty, tif, x))
  }

  lemma LimitIsExecution(b: Book, id: OrderId, user: UserId, side: Side, price: Price, qty: Quantity, tif: TimeInForce)
    requires WellFormed(b)
    ensures var x := PlaceLimit(b, id, user, side, price, qty, tif);
            var left := Consume(b.SideOf(side.Opposite()), Some(price), qty).left;
            var killed := tif.Fok? && left > 0;
            && IsExecution(b, id, user, side, Some(price), if killed then 0 else qty, x)
            && (x.resting == if left > 0 && tif.Gtc? then Some(Order(id, user, side, price, left)) else None)
  {
    var opp := side.Opposite();
    assert b.IssuedUpTo(id).WithSide(opp, b.SideOf(opp)) == b.IssuedUpTo(id);
  }

  /** The refund of a limit bid is exact: neither of its saturating subtractions ever saturates. */
  lemma LimitBidIsExact(e: Engine, user: UserId, asset: Asset, price: Price, qty: Quantity, tif: TimeInForce)
    requires BooksSound(e)
    ensures var s := LimitSettlement(e, user, asset, Bid, price, qty, tif);
            && s.lock - BuyerSpent(e.fees, s.x.trades) - Kept(e.fees, s.x) == s.refund
            && BuyerSpent(e.fees, s.x.trades) == TakerDebits(e.fees, s.Fills(e))
            && s.refund >= 0
  {
    var b := e.BookOf(asset);
    var s := LimitSettlement(e, user, asset, Bid, price, qty, tif);
    LimitIsExecution(b, e.nextId, user, Bid, price, qty, tif);
    ConsumeMakersOn(Ask, b.asks, Some(price), s.matched);
    BuyerSpendsTakerDebits(e.fees, e.nextId, user, s.Fills(e));
    LimitBidLockIsSufficient(e.fees, b.asks, price, qty);
  }

  lemma LimitAskIsExact(e: Engine, user: UserId, asset: Asset, price: Price, qty: Quantity, tif: TimeInForce)
    requires BooksSound(e)
    ensures var s := LimitSettlement(e, user, asset, Ask, price, qty, tif);
            && s.lock - TakerDebits(e.fees, s.Fills(e)) - Kept(e.fees, s.x) == s.refund
            && s.refund >= 0
  {
    var b := e.BookOf(asset);
    var s := LimitSettlement(e, user, asset, Ask, price, qty, tif);
    LimitIsExecution(b, e.nextId, user, Ask, price, qty, tif);
    ConsumeMakersOn(Bid, b.bids, Some(price), s.matched);
    FilledPlusLeft(b.bids, Some(price), s.matched);
    TradedQtyIsFilled(e.nextId, user, Ask, s.Fills(e));
    SellerDeliversTakerDebits(e.fees, s.Fills(e));
  }

  lemma LimitOrderIsBalanced(e: Engine, user: UserId, asset: Asset, side: Side, price: Price, qty: Quantity,
                             tif: TimeInForce)
    requires BooksSound(e)
    requires HasFunds(e, Funding(user, side, asset), LimitLock(e.fees, side, price, qty))
    ensures Balanced(e, LimitSettlement(e, user, asset, side, price, qty, tif))
  {
    var b := e.BookOf(asset);
    PlacingKeepsWellFormed(b, e.nextId, user, side, price, qty, tif);
    LimitIsExecution(b, e.nextId, user, side, price, qty, tif);
    if side.Bid? {
      LimitBidIsExact(e, user, asset, price, qty, tif);
    } else {
      LimitAskIsExact(e, user, asset, price, qty, tif);
    }
  }

  function MarketSellSettlement(e: Engine, user: UserId, asset: Asset, qty: Quantity,
                                worst: Option<Price>): Settlement {
    var x := ExecuteMarket(e.BookOf(asset), e.nextId, user, Ask, qty, worst);
    Settlement(asset, user, Ask, worst, qty, qty, x, qty, qty - TradedQty(x.trades))
  }

  lemma MarketSellIsBalanced(e: Engine, user: UserId, asset: Asset, qty: Quantity, worst: Option<Price>)
    requires BooksSound(e)
    requires HasFunds(e, Funding(user, Ask, asset), qty)
    ensures Balanced(e, MarketSellSettlement(e, user, asset, qty, worst))
  {
    var b := e.BookOf(asset);
    var fills := FillsOf(b, Ask, worst, qty);
    ConsumedBookIsWellFormed(b, e.nextId, Ask, worst, qty);
    ConsumeMakersOn(Bid, b.bids, worst, qty);
    FilledPlusLeft(b.bids, worst, qty);
    TradedQtyIsFilled(e.nextId, user, Ask, fills);
    SellerDeliversTakerDebits(e.fees, fills);
  }

  function MarketBuySettlement(e: Engine, user: UserId, asset: Asset, qty: Quantity, worst: Option<Price>): Settlement {
    var x := ExecuteMarket(e.BookOf(asset), e.nextId, user, Bid, qty, worst);
    var lock := MarketBuyLock(e.fees, FilledCost(Consume(e.BookOf(asset).asks, worst, qty).fills));
    Settlement(asset, user, Bid, worst, qty, qty, x, lock, SaturatingSub(lock, BuyerSpent(e.fees, x.trades)))
  }

  /** The quoted cost and the fee on it cover the market buy; the refund does not saturate. */
  lemma MarketBuyIsBalanced(e: Engine, user: UserId, asset: Asset, qty: Quantity, worst: Option<Price>)
    requires BooksSound(e)
    requires HasFunds(e, Funding(user, Bid, asset), MarketBuySettlement(e, user, asset, qty, worst).lock)
    ensures var s := MarketBuySettlement(e, user, asset, qty, worst);
            && Balanced(e, s)
            && s.lock - BuyerSpent(e.fees, s.x.trades) == s.refund
  {
    var b := e.BookOf(asset);
    var fills := FillsOf(b, Bid, worst, qty);
    ConsumedBookIsWellFormed(b, e.nextId, Bid, worst, qty);
    ConsumeMakersOn(Ask, b.asks, worst, qty);
    BuyerSpendsTakerDebits(e.fees, e.nextId, user, fills);
    CostCoversTaker(e.fees, fills);
  }

  // ----- Classifying an order request -----

  /** The settlement an order request leads to, or None when it is refused. */
  function SettlementOf(e: Engine, m: OrderMsg): Option<Settlement> {
    if m.asset.None? || m.side.None? || m.qty <= 0 || (m.kind.Limit? && m.price <= 0) then
      None
    else
      var asset, side := m.asset.value, m.side.value;
      var worst := WorstPrice(side, m.price, m.slippage, e.BookOf(asset).Best(side.Opposite()));
      var fillable := FilledQty(FillsOf(e.BookOf(asset), side, worst, m.qty));
      var s := if m.kind.Limit? then LimitSettlement(e, m.user, asset, side, m.price, m.qty, m.tif)
               else if side.Ask? then MarketSellSettlement(e, m.user, asset, m.qty, worst)
               else MarketBuySettlement(e, m.user, asset, m.qty, worst);
      if m.kind.Market? && m.tif.Fok? && fillable < m.qty then None
      else if m.kind.Market? && side.Bid? && fillable == 0 then None
      else if Get(e.accounts, s.Payer()).available < s.lock then None
      else Some(s)
  }

  function CreatedEvents(s: Settlement): seq<Event> {
    match s.x.resting
    case None => []
    case Some(o) => [OrderCreated(o.id, o.user, s.asset, o.side, o.price, s.original, o.remaining)]
  }

  /** What an accepted request does to the state and to the execution stream. */
  ghost predicate Settles(e: Engine, s: Settlement, step: Step) {
    && Balanced(e, s)
    && step.state == s.Apply(e)
    && step.events == TradeEvents(e.fees, s.asset, s.x.book, s.x.trades) + CreatedEvents(s) +
                      [DepthEvent(s.asset, s.x.book)]
  }

  /** A refused request emits nothing and at most creates an empty account. */
  ghost predicate Refuses(e: Engine, step: Step) {
    && step.events == []
    && (step.state == e || exists k :: step.state == e.(accounts := Adjust(e.accounts, k, 0, 0)))
  }

  lemma LimitOrderSettles(e: Engine, m: OrderMsg)
    requires BooksSound(e) && m.kind.Limit? && SettlementOf(e, m).Some?
    ensures Settles(e, SettlementOf(e, m).value, HandleOrder(e, m))
  {
    var asset, side := m.asset.value, m.side.value;
    LimitOrderIsBalanced(e, m.user, asset, side, m.price, m.qty, m.tif);
    LimitIsExecution(e.BookOf(asset), e.nextId, m.user, side, m.price, m.qty, m.tif);
  }

  lemma MarketSellSettles(e: Engine, m: OrderMsg)
    requires BooksSound(e) && m.kind.Market? && m.side == Some(Ask) && SettlementOf(e, m).Some?
    ensures Settles(e, SettlementOf(e, m).value, HandleOrder(e, m))
  {
    hide BooksSound, Balanced, Settle, Trades, FilledQty, TradedQty, TradeEvents, DepthEvent, WorstPrice, Consume,
      Get;
    var s := SettlementOf(e, m).value;
    MarketSellIsBalanced(e, m.user, s.asset, m.qty, s.limit);
    var trades := TradeEvents(e.fees, s.asset, s.x.book, s.x.trades);
    assert trades + [] == trades;
  }

  lemma MarketBuySettles(e: Engine, m: OrderMsg)
    requires BooksSound(e) && m.kind.Market? && m.side == Some(Bid) && SettlementOf(e, m).Some?
    ensures Settles(e, SettlementOf(e, m).value, HandleOrder(e, m))
  {
    hide BooksSound, Balanced, Settle, Trades, FilledQty, FilledCost, TradedQty, BuyerSpent, SaturatingSub,
      TradeEvents, DepthEvent, WorstPrice, Consume, Get;
    var s := SettlementOf(e, m).value;
    MarketBuyIsBalanced(e, m.user, s.asset, m.qty, s.limit);
    var trades := TradeEvents(e.fees, s.asset, s.x.book, s.x.trades);
    assert trades + [] == trades;
  }

  lemma LimitOrderRefuses(e: Engine, m: OrderMsg)
    requires m.kind.Limit? && SettlementOf(e, m).None?
    ensures Refuses(e, HandleOrder(e, m))
  {
    hide Settle, PlaceLimit, LimitRefund, TradedQty, TradeEvents, DepthEvent, Consume, Get, Adjust;
  }

  lemma MarketOrderRefuses(e: Engine, m: OrderMsg)
    requires m.kind.Market? && SettlementOf(e, m).None?
    ensures Refuses(e, HandleOrder(e, m))
  {
    hide Settle, ExecuteMarket, FilledQty, FilledCost, TradedQty, BuyerSpent, SaturatingSub, TradeEvents,
      DepthEvent, WorstPrice, Consume, Get, Adjust;
  }

  /** A request is either refused without effect or applies one balanced settlement and reports it. */
  lemma OrderIsSettlement(e: Engine, m: OrderMsg)
    requires BooksSound(e)
    ensures match SettlementOf(e, m)
            case None => Refuses(e, HandleOrder(e, m))
            case Some(s) => Settles(e, s, HandleOrder(e, m))
  {
    hide BooksSound, HandleOrder, Settles, Refuses;
    match (SettlementOf(e, m), m.kind)
    case (Some(_), Limit) => LimitOrderSettles(e, m);
    case (Some(_), Market) =>
      if m.side == Some(Ask) {
        MarketSellSettles(e, m);
      } else {
        MarketBuySettles(e, m);
      }
    case (None, Limit) => LimitOrderRefuses(e, m);
    case (None, Market) => MarketOrderRefuses(e, m);
  }
}
