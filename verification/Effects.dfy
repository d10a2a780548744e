/** What single orders do to the ledger and the books, stated for every state the engine can be in. */
module Effects {
  import opened Types
  import opened Fees
  import opened Matching
  import opened Books
  import opened Ledger
  import opened Engine
  import opened Claims
  import opened Solvency
  import opened Resting
  import opened Runs

  // ----- Locked funds -----

  lemma {:induction false} AskMakersLockNoUsd(fees: FeeSchedule, asset: Asset, fills: seq<Fill>, user: UserId)
    requires MakersOn(Ask, fills)
    ensures MakerDebits(fees, asset, fills, Account(user, Usd)) == 0
  {
    if fills != [] {
      assert fills[0].maker.side == Ask;
      AskMakersLockNoUsd(fees, asset, fills[1..], user);
    }
  }

  /** A buyer's settlement changes the locked USD of nobody but the buyer, and theirs by what stays resting. */
  lemma BuyingLocksWhatRests(e: Engine, s: Settlement, user: UserId)
    requires BooksSound(e) && Balanced(e, s) && s.side.Bid?
    ensures Get(s.Apply(e).accounts, Account(user, Usd)).locked ==
            Get(e.accounts, Account(user, Usd)).locked + if user == s.user then Kept(e.fees, s.x) else 0
  {
    var b := e.BookOf(s.asset);
    ConsumeMakersOn(Ask, b.asks, s.limit, s.matched);
    AskMakersLockNoUsd(e.fees, s.asset, s.Fills(e), user);
    SettlementBalances(e, s, Account(user, Usd));
  }

  /** The order that a request leaves resting, if it is accepted and not filled at once. */
  function RemainderOf(e: Engine, m: OrderMsg): Option<Order> {
    match SettlementOf(e, m)
    case None => None
    case Some(s) => s.x.resting
  }

  /** A limit bid raises its owner's locked USD by exactly what its remainder needs, and nobody else's. */
  lemma LimitBidLocksItsRemainder(e: Engine, m: OrderMsg, user: UserId)
    requires BooksSound(e) && m.kind.Limit? && m.side == Some(Bid)
    ensures Get(HandleOrder(e, m).state.accounts, Account(user, Usd)).locked ==
            Get(e.accounts, Account(user, Usd)).locked +
              if user == m.user && RemainderOf(e, m).Some? then BidReserve(e.fees, RemainderOf(e, m).value) else 0
  {
    hide HandleOrder, BooksSound, Settlement.Apply, WellFormed;
    OrderIsSettlement(e, m);
    if SettlementOf(e, m).Some? {
      BuyingLocksWhatRests(e, SettlementOf(e, m).value, user);
    }
  }

  /** A market buy leaves everybody's locked USD where it was, whether it fills, fills in part or is refused. */
  lemma MarketBuyLocksNothing(e: Engine, m: OrderMsg, user: UserId)
    requires BooksSound(e) && m.kind.Market? && m.side == Some(Bid)
    ensures Get(HandleOrder(e, m).state.accounts, Account(user, Usd)).locked ==
            Get(e.accounts, Account(user, Usd)).locked
  {
    hide HandleOrder, Balanced, BooksSound, Settlement.Apply;
    OrderIsSettlement(e, m);
    if SettlementOf(e, m).Some? {
      BuyingLocksWhatRests(e, SettlementOf(e, m).value, user);
    }
  }

  // ----- Quotes -----

  /** What the trades of an execution are worth. */
  function TradedValue(trades: seq<Trade>): nat {
    if trades == [] then 0 else trades[0].Value() + TradedValue(trades[1..])
  }

  lemma {:induction false} TradedValueIsFilledCost(id: OrderId, user: UserId, side: Side, fills: seq<Fill>)
    ensures TradedValue(Trades(id, user, side, fills)) == FilledCost(fills)
  {
    if fills != [] {
      TradedValueIsFilledCost(id, user, side, fills[1..]);
      assert Trades(id, user, side, fills)[1..] == Trades(id, user, side, fills[1..]);
    }
  }

  /**
   * The quote is exact: its cost and quantity are those of the trades the market buy then makes on the same
   * book, and the cost with the fee on it covers every trade with its own fee.
   */
  lemma QuoteIsExact(b: Book, fees: FeeSchedule, id: OrderId, user: UserId, qty: Quantity, worst: Option<Price>)
    requires WellFormed(b)
    ensures var quote := Consume(b.asks, worst, qty).fills;
            var trades := ExecuteMarket(b, id, user, Bid, qty, worst).trades;
            && TradedValue(trades) == FilledCost(quote)
            && TradedQty(trades) == FilledQty(quote)
            && BuyerSpent(fees, trades) <= MarketBuyLock(fees, FilledCost(quote))
  {
    var fills := Consume(b.asks, worst, qty).fills;
    TradedValueIsFilledCost(id, user, Bid, fills);
    TradedQtyIsFilled(id, user, Bid, fills);
    ConsumeMakersOn(Ask, b.asks, worst, qty);
    BuyerSpendsTakerDebits(fees, id, user, fills);
    CostCoversTaker(fees, fills);
  }

  // ----- Prices -----

  /** Every trade is at its maker's price, which the taker's limit accepts. */
  lemma TradeWithinLimit(e: Engine, s: Settlement, i: nat)
    requires BooksSound(e) && Balanced(e, s) && i < |s.x.trades|
    ensures var t := s.x.trades[i];
            var q := e.BookOf(s.asset).SideOf(s.side.Opposite());
            && i < |q| && t.makerId == q[i].id && t.price == q[i].price && Reaches(s.limit, q[i])
            && q[i].side == s.side.Opposite() && 0 < t.qty <= q[i].remaining
            && t.buyer == (if s.side.Bid? then s.user else q[i].user)
            && t.seller == (if s.side.Bid? then q[i].user else s.user)
  {
    var q := e.BookOf(s.asset).SideOf(s.side.Opposite());
    assert WellFormed(e.BookOf(s.asset));
    ConsumeIsPriceTime(s.side.Opposite(), q, s.limit, s.matched);
    TradeAt(e.nextId, s.user, s.side, s.Fills(e), i);
    assert FillsInTurn(q, s.limit, s.Fills(e), i);
  }

  /** A market order's price bound: explicit, or the best opposite price widened by the slippage and rounded. */
  ghost predicate WithinSlippage(m: OrderMsg, best: Price, price: Price) {
    var percent := if m.slippage.Some? then m.slippage.value else DEFAULT_SLIPPAGE;
    if m.price > 0 then
      if m.side == Some(Ask) then price >= m.price else price <= m.price
    else if m.side == Some(Ask) then
      price >= 1 && price as real > best as real * (1.0 - percent / 100.0) - 1.0
    else
      price as real < best as real * (1.0 + percent / 100.0) + 1.0
  }

  lemma WorstPriceIsWithinSlippage(m: OrderMsg, best: Price, maker: Order)
    requires m.side.Some? && maker.side == m.side.value.Opposite() && maker.price > 0
    requires Reaches(WorstPrice(m.side.value, m.price, m.slippage, Some(best)), maker)
    ensures WithinSlippage(m, best, maker.price)
  {
  }

  /** A market order trades only within its worst price, and that is within the slippage, whatever its sign. */
  lemma MarketOrderRespectsSlippage(e: Engine, m: OrderMsg, i: nat)
    requires BooksSound(e) && RestingHave(HasPrice(), e)
    requires m.kind.Market? && SettlementOf(e, m).Some? && i < |SettlementOf(e, m).value.x.trades|
    ensures var s := SettlementOf(e, m).value;
            var best := e.BookOf(s.asset).Best(s.side.Opposite());
            best.Some? && WithinSlippage(m, best.value, s.x.trades[i].price)
  {
    hide WithinSlippage, WellFormed, Consume, ExecuteMarket, WorstPrice, Balanced, Reaches, HandleOrder;
    OrderIsSettlement(e, m);
    var s := SettlementOf(e, m).value;
    var q := e.BookOf(s.asset).SideOf(s.side.Opposite());
    TradeWithinLimit(e, s, i);
    assert AllHave(HasPrice(), q) && q[i] in q && HasPrice()(q[i]);
    WorstPriceIsWithinSlippage(m, q[0].price, q[i]);
  }

  /** So it is in every reachable state. */
  lemma ReachableMarketOrdersRespectSlippage(fees: FeeSchedule, log: seq<Command>, m: OrderMsg, i: nat)
    ensures var e := Run(Initial(fees), log);
            m.kind.Market? && SettlementOf(e, m).Some? && i < |SettlementOf(e, m).value.x.trades| ==>
              var s := SettlementOf(e, m).value;
              var best := e.BookOf(s.asset).Best(s.side.Opposite());
              best.Some? && WithinSlippage(m, best.value, s.x.trades[i].price)
  {
    hide Run, WithinSlippage, SettlementOf, RestingHave;
    InitialInv(fees);
    RunKeepsInv(Initial(fees), log);
    RestingOrdersArePriced(fees, log);
    var e := Run(Initial(fees), log);
    if m.kind.Market? && SettlementOf(e, m).Some? && i < |SettlementOf(e, m).value.x.trades| {
      MarketOrderRespectsSlippage(e, m, i);
    }
  }

  // ----- The two matchers -----

  /** An immediate-or-cancel limit order and a market order with the same worst price do the same. */
  lemma MatchersAgree(b: Book, id: OrderId, user: UserId, side: Side, price: Price, qty: Quantity)
    ensures PlaceLimit(b, id, user, side, price, qty, Ioc) == ExecuteMarket(b, id, user, side, qty, Some(price))
  {
  }

  // ----- Placing and cancelling -----

  /** Nothing on the other side is within reach of the price. */
  ghost predicate DoesNotCross(b: Book, side: Side, price: Price) {
    forall x :: x in b.SideOf(side.Opposite()) ==> !Reaches(Some(price), x)
  }

  lemma PlacingWithoutCrossing(e: Engine, user: UserId, asset: Asset, side: Side, price: Price, qty: Quantity,
                               k: Account)
    requires BooksSound(e) && qty > 0 && DoesNotCross(e.BookOf(asset), side, price)
    requires HasFunds(e, Funding(user, side, asset), LimitLock(e.fees, side, price, qty))
    ensures var o := Order(e.nextId, user, side, price, qty);
            var placed := LimitOrder(e, user, asset, side, price, qty, Gtc).state;
            && placed == LimitSettlement(e, user, asset, side, price, qty, Gtc).Apply(e)
            && Cancel(placed.BookOf(asset), e.nextId, user) == Ok(Removal(e.BookOf(asset).IssuedUpTo(e.nextId), o))
            && placed.fees == e.fees && placed.nextId == e.nextId + 1
            && (forall a: Asset :: a != asset ==> placed.BookOf(a) == e.BookOf(a))
            && Get(placed.accounts, k).locked == Get(e.accounts, k).locked + Claim(e.fees, asset, o, k)
            && Get(placed.accounts, k).available == Get(e.accounts, k).available - Claim(e.fees, asset, o, k)
  {
    hide Settle, WellFormed, Cancel, Adjust, TradeEvents, DepthEvent, TakerDebits;
    var s := LimitSettlement(e, user, asset, side, price, qty, Gtc);
    var b := e.BookOf(asset);
    assert WellFormed(b);
    var opp := b.SideOf(side.Opposite());
    RestThenCancelIsIdentity(b, e.nextId, user, side, price, qty);
    assert opp != [] ==> opp[0] in opp;
    assert Consume(opp, Some(price), qty) == Outcome([], opp, qty);
    LimitOrderIsBalanced(e, user, asset, side, price, qty, Gtc);
    LimitIsExecution(b, e.nextId, user, side, price, qty, Gtc);
    SettleAccounts(e, s);
    SettlementBalances(e, s, k);
  }

  /** Only the market of the order lets the user cancel it. */
  lemma CancelFindsItsMarket(e: Engine, user: UserId, asset: Asset, id: OrderId)
    requires Cancel(e.BookOf(asset), id, user).Ok?
    requires forall a: Asset :: a != asset ==> !e.BookOf(a).Has(id)
    ensures HandleCancel(e, user, id) == CancelIn(e, asset, Cancel(e.BookOf(asset), id, user).value)
  {
    assert forall a: Asset :: a != asset ==> Cancel(e.BookOf(a), id, user).Err?;
    assert Cancel(e.BookOf(Sol), id, user).Ok? <==> asset == Sol;
    assert Cancel(e.BookOf(Btc), id, user).Ok? <==> asset == Btc;
    assert Cancel(e.BookOf(Eth), id, user).Ok? <==> asset == Eth;
  }

  /**
   * Placing a limit order that does not cross and cancelling it restores every queue of every market and every
   * balance of every user, fee reserve included; only the id counters have advanced.
   */
  lemma PlaceThenCancelRestores(e: Engine, user: UserId, asset: Asset, side: Side, price: Price, qty: Quantity)
    requires BooksSound(e) && qty > 0 && DoesNotCross(e.BookOf(asset), side, price)
    requires HasFunds(e, Funding(user, side, asset), LimitLock(e.fees, side, price, qty))
    ensures var placed := LimitOrder(e, user, asset, side, price, qty, Gtc);
            var cancelled := HandleCancel(placed.state, user, e.nextId);
            && placed.reply == Placed(Some(e.nextId), Open)
            && cancelled.reply == CancelDone(e.nextId, qty)
            && (forall a: Asset :: cancelled.state.BookOf(a) ==
                                   if a == asset then e.BookOf(a).IssuedUpTo(e.nextId) else e.BookOf(a))
            && (forall k: Account :: Get(cancelled.state.accounts, k) == Get(e.accounts, k))
            && cancelled.state.nextId == e.nextId + 1
  {
    hide LimitOrder, HandleCancel, Cancel, Book.Lookup, WellFormed, HasFunds, DoesNotCross, Claim;
    var o := Order(e.nextId, user, side, price, qty);
    var placed := LimitOrder(e, user, asset, side, price, qty, Gtc).state;
    var removal := Removal(e.BookOf(asset).IssuedUpTo(e.nextId), o);
    PlacingWithoutCrossing(e, user, asset, side, price, qty, Account(user, Usd));
    forall a: Asset | a != asset ensures !placed.BookOf(a).Has(e.nextId) {
      assert WellFormed(e.BookOf(a));
      LookupIsSound(e.BookOf(a), e.nextId);
    }
    CancelFindsItsMarket(placed, user, asset, e.nextId);
    CancelShape(placed, asset, removal);
    forall k: Account ensures Get(CancelIn(placed, asset, removal).state.accounts, k) == Get(e.accounts, k) {
      PlacingWithoutCrossing(e, user, asset, side, price, qty, k);
      CancelMoves(placed, asset, removal, k);
    }
    PlacedReply(e, user, asset, side, price, qty);
  }

  lemma PlacedReply(e: Engine, user: UserId, asset: Asset, side: Side, price: Price, qty: Quantity)
    requires qty > 0 && DoesNotCross(e.BookOf(asset), side, price)
    requires HasFunds(e, Funding(user, side, asset), LimitLock(e.fees, side, price, qty))
    ensures LimitOrder(e, user, asset, side, price, qty, Gtc).reply == Placed(Some(e.nextId), Open)
  {
    var opp := e.BookOf(asset).SideOf(side.Opposite());
    assert opp != [] ==> opp[0] in opp;
    assert Consume(opp, Some(price), qty) == Outcome([], opp, qty);
  }

  // ----- Before the first funding -----

  /** Nobody has anything available and nothing rests. */
  ghost predicate Unfunded(e: Engine) {
    && (forall k: Account :: Get(e.accounts, k).available == 0)
    && (forall a: Asset :: e.BookOf(a).bids == [] && e.BookOf(a).asks == [])
  }

  lemma NoOrderWithoutFunds(e: Engine, m: OrderMsg)
    requires Unfunded(e)
    ensures SettlementOf(e, m).None?
  {
    if m.asset.Some? && m.side.Some? && m.qty > 0 {
      var asset, side := m.asset.value, m.side.value;
      assert e.BookOf(asset).SideOf(side.Opposite()) == [];
      assert Get(e.accounts, Funding(m.user, side, asset)).available == 0;
      if m.kind.Limit? && m.price > 0 {
        ProductMonotone(1, m.price, 1, m.qty);
      }
    }
  }

  lemma UnfundedIsQuiet(e: Engine, c: Command)
    requires Unfunded(e) && !c.Reset? && !c.Onramp? && !c.Deposit?
    ensures Dispatch(e, c).events == [] && Unfunded(Dispatch(e, c).state)
  {
    hide HandleOrder, SettlementOf, Cancel;
    match c
    case Signup(user) => OnlyAccountsTouched(e, Dispatch(e, c).state);
    case PlaceOrder(m) =>
      NoOrderWithoutFunds(e, m);
      if m.kind.Limit? {
        LimitOrderRefuses(e, m);
      } else {
        MarketOrderRefuses(e, m);
      }
      OnlyAccountsTouched(e, HandleOrder(e, m).state);
    case CancelOrder(user, id) =>
      assert forall a: Asset :: Cancel(e.BookOf(a), id, user).Err? by {
        NothingToCancel(e, id, user);
      }
      assert e.BookOf(Sol) == e.sol && e.BookOf(Btc) == e.btc && e.BookOf(Eth) == e.eth;
    case Query =>
  }

  lemma OnlyAccountsTouched(e: Engine, after: Engine)
    requires Unfunded(e)
    requires after == e || exists k :: after == e.(accounts := Adjust(e.accounts, k, 0, 0))
    ensures Unfunded(after)
  {
    forall a: Asset ensures after.BookOf(a).bids == [] && after.BookOf(a).asks == [] {
      assert after.BookOf(a) == e.BookOf(a);
    }
    if after != e {
      var k :| after == e.(accounts := Adjust(e.accounts, k, 0, 0));
      forall x: Account ensures Get(after.accounts, x).available == 0 {
        assert Get(e.accounts, x).available == 0;
      }
    }
  }

  lemma NothingToCancel(e: Engine, id: OrderId, user: UserId)
    requires Unfunded(e)
    ensures forall a: Asset :: Cancel(e.BookOf(a), id, user).Err?
  {
  }

  /** Whatever an exchange emits over a reset-free run, it emits a funding first. */
  lemma {:induction false} EmittedStartsWithFunding(fees: FeeSchedule, log: seq<Command>)
    requires ResetFree(log)
    ensures var events := Emitted(Initial(fees), log);
            && (events == [] ==> Unfunded(Run(Initial(fees), log)))
            && (events != [] ==> events[0].FundingExecuted?)
    decreases |log|
  {
    hide Unfunded, Dispatch;
    if log == [] {
      InitiallyUnfunded(fees);
    } else {
      var before, last := log[..|log| - 1], log[|log| - 1];
      var e := Run(Initial(fees), before);
      EmittedStartsWithFunding(fees, before);
      if Emitted(Initial(fees), before) == [] {
        if last.Onramp? || last.Deposit? {
          FundingIsEmitted(e, last);
        } else {
          UnfundedIsQuiet(e, last);
        }
      }
    }
  }

  lemma InitiallyUnfunded(fees: FeeSchedule)
    ensures Unfunded(Initial(fees))
  {
  }

  lemma FundingIsEmitted(e: Engine, c: Command)
    requires c.Onramp? || c.Deposit?
    ensures Dispatch(e, c).events != [] && Dispatch(e, c).events[0].FundingExecuted?
  {
  }
}
