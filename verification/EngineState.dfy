/**
 * The engine's mutable state and its handlers. Each handler locks funds, matches, settles trade by trade and
 * refunds in place, and is proved to take exactly the step its specification describes. Locked funds are
 * only ever spent through methods that require them to be there, so no ledger subtraction underflows.
 */
module EngineStates {
  import opened Types
  import opened Fees
  import opened Matching
  import opened Books
  import opened Ledger
  import opened Engine
  import opened Solvency
  import opened Runs
  import opened Depths
  import opened Indexes
  import opened Orderbooks

  /** Everything a snapshot stores. */
  datatype EngineImage = EngineImage(accounts: Accounts, sol: Index, btc: Index, eth: Index, nextId: OrderId,
                                     fees: FeeSchedule)
  {
    function Abs(): Engine {
      Engine(accounts, sol.Abs(), btc.Abs(), eth.Abs(), nextId, fees)
    }

    ghost predicate Coherent() {
      sol.Coherent() && btc.Coherent() && eth.Coherent() && Inv(Abs())
    }
  }

  // ----- Results under way -----

  /** The trades that the results from position i on still stand for. */
  function Pending(x: Execution, i: nat): seq<Trade> {
    if i <= |x.trades| then x.trades[i..] else []
  }

  lemma {:induction false} AsResultsAt(trades: seq<Trade>, i: nat)
    ensures |AsResults(trades)| == |trades|
    ensures i < |trades| ==> AsResults(trades)[i] == Traded(trades[i])
  {
    if trades != [] {
      AsResultsAt(trades[1..], if i > 0 then i - 1 else 0);
    }
  }

  /** Results are the trades in order, then the accepted order if there is one. */
  lemma ResultAt(x: Execution, i: nat)
    requires i < |ResultsOf(x)|
    ensures i < |x.trades| ==>
              ResultsOf(x)[i] == Traded(x.trades[i]) && Pending(x, i) != [] && Pending(x, i)[0] == x.trades[i] &&
              Pending(x, i)[1..] == Pending(x, i + 1)
    ensures i >= |x.trades| ==>
              x.resting.Some? && ResultsOf(x)[i] == Accepted(x.resting.value) && i == |x.trades| &&
              Pending(x, i) == [] && Pending(x, i + 1) == []
  {
    AsResultsAt(x.trades, i);
  }

  lemma ResultCount(x: Execution)
    ensures |ResultsOf(x)| == |x.trades| + if x.resting.Some? then 1 else 0
    ensures Pending(x, |ResultsOf(x)|) == [] && Pending(x, 0) == x.trades
  {
    AsResultsAt(x.trades, 0);
  }

  /** Settling the first pending trade takes one step of every total and of the accounts. */
  lemma SettlingOneTrade(a: Accounts, fees: FeeSchedule, asset: Asset, after: Book, done: seq<Event>,
                         pending: seq<Trade>)
    requires pending != []
    ensures var t, rest := pending[0], pending[1..];
            && ApplyTrades(a, fees, asset, pending) ==
               ApplyTrades(Ledger.ApplyFill(a, fees, asset, t), fees, asset, rest)
            && TradedQty(pending) == t.qty + TradedQty(rest)
            && BuyerSpent(fees, pending) == BuyerPays(fees, t) + BuyerSpent(fees, rest)
            && done + TradeEvents(fees, asset, after, pending) ==
               done + [TradeEvent(fees, asset, after, t)] + TradeEvents(fees, asset, after, rest)
  {
    hide Ledger.ApplyFill, TradeEvent, BuyerPays;
  }

  lemma NothingPending(a: Accounts, fees: FeeSchedule, asset: Asset, after: Book)
    ensures ApplyTrades(a, fees, asset, []) == a
    ensures TradedQty([]) == BuyerSpent(fees, []) == 0 && TradeEvents(fees, asset, after, []) == []
  {
  }

  class EngineState {
    var accounts: Accounts
    const sol: Orderbook
    const btc: Orderbook
    const eth: Orderbook
    var nextOrderId: OrderId
    const fees: FeeSchedule

    function BookOf(asset: Asset): Orderbook {
      match asset
      case Sol => sol
      case Btc => btc
      case Eth => eth
    }

    function Abs(): Engine
      reads this, sol, btc, eth
    {
      Engine(accounts, sol.Abs(), btc.Abs(), eth.Abs(), nextOrderId, fees)
    }

    /** The image a snapshot would store now. */
    function Image(): EngineImage
      reads this, sol, btc, eth
    {
      EngineImage(accounts, sol.Image(), btc.Image(), eth.Image(), nextOrderId, fees)
    }

    ghost predicate BooksApart() {
      sol != btc && sol != eth && btc != eth
    }

    ghost predicate BooksValid()
      reads sol, btc, eth
    {
      BooksApart() && sol.Valid() && btc.Valid() && eth.Valid()
    }

    /** Every book is coherent and the whole state is solvent. */
    ghost predicate Valid()
      reads this, sol, btc, eth
    {
      BooksValid() && Inv(Abs())
    }

    constructor (fees: FeeSchedule)
      ensures Valid() && Abs() == Initial(fees)
      ensures fresh(sol) && fresh(btc) && fresh(eth)
    {
      hide Inv, Orderbook.Valid, Orderbook.Abs;
      accounts := map[];
      sol := new Orderbook();
      btc := new Orderbook();
      eth := new Orderbook();
      nextOrderId := 1;
      this.fees := fees;
      new;
      InitialInv(fees);
    }

    /** Rebuild the state from a stored image. */
    constructor FromSnapshot(image: EngineImage)
      requires image.Coherent()
      ensures Valid() && Image() == image && Abs() == image.Abs()
      ensures fresh(sol) && fresh(btc) && fresh(eth)
    {
      hide Index.Coherent, Index.Abs, Inv;
      accounts := image.accounts;
      sol := new Orderbook();
      btc := new Orderbook();
      eth := new Orderbook();
      nextOrderId := image.nextId;
      fees := image.fees;
      new;
      sol.Load(image.sol);
      btc.Load(image.btc);
      eth.Load(image.eth);
    }

    lemma ImageIsCoherent()
      requires Valid()
      ensures Image().Coherent() && Image().Abs() == Abs()
    {
      hide Inv, Index.Coherent, Index.Abs;
    }

    method Reset()
      requires Valid()
      modifies this, sol, btc, eth
      ensures Valid() && Abs() == Initial(fees)
    {
      hide Inv, Orderbook.Valid, Orderbook.Abs;
      accounts := map[];
      sol.Reset();
      btc.Reset();
      eth.Reset();
      nextOrderId := 1;
      InitialInv(fees);
    }

    method NextOrderId() returns (id: OrderId)
      modifies this`nextOrderId
      ensures id == old(nextOrderId) && nextOrderId == id + 1
    {
      id := nextOrderId;
      nextOrderId := nextOrderId + 1;
    }

    // ----- Moving funds: every subtraction states what must be there -----

    /** Lock funds if they are available; looking creates a missing account either way. */
    method TryLock(k: Account, amount: nat) returns (ok: bool)
      modifies this`accounts
      ensures ok <==> amount <= Get(old(accounts), k).available
      ensures accounts == if ok then Adjust(old(accounts), k, 0 - amount, amount) else Adjust(old(accounts), k, 0, 0)
    {
      var b := Get(accounts, k);
      ok := amount <= b.available;
      accounts := accounts[k := if ok then Balance(b.available - amount, b.locked + amount) else b];
    }

    method Unlock(k: Account, amount: nat)
      requires amount <= Get(accounts, k).locked
      modifies this`accounts
      ensures accounts == Adjust(old(accounts), k, amount, 0 - amount)
    {
      var b := Get(accounts, k);
      accounts := accounts[k := Balance(b.available + amount, b.locked - amount)];
    }

    method SpendLocked(k: Account, amount: nat)
      requires amount <= Get(accounts, k).locked
      modifies this`accounts
      ensures accounts == Adjust(old(accounts), k, 0, 0 - amount)
    {
      var b := Get(accounts, k);
      accounts := accounts[k := b.(locked := b.locked - amount)];
    }

    method AddAvailable(k: Account, amount: nat)
      modifies this`accounts
      ensures accounts == Adjust(old(accounts), k, amount, 0)
    {
      var b := Get(accounts, k);
      accounts := accounts[k := b.(available := b.available + amount)];
    }

    /** Settle one trade between locked funds; both fees go to the treasury. */
    method ApplyFill(asset: Asset, t: Trade) returns (buyerFee: nat, sellerFee: nat)
      requires BuyerPays(fees, t) <= Get(accounts, Account(t.buyer, Usd)).locked
      requires t.qty <= Get(accounts, Account(t.seller, Base(asset))).locked
      modifies this`accounts
      ensures accounts == Ledger.ApplyFill(old(accounts), fees, asset, t)
      ensures FillFees(buyerFee, sellerFee) == FeesOf(fees, t)
    {
      var value := t.Value();
      match t.takerSide {
        case Bid => buyerFee, sellerFee := fees.TakerFee(value), fees.MakerFee(value);
        case Ask => buyerFee, sellerFee := fees.MakerFee(value), fees.TakerFee(value);
      }
      SpendLocked(Account(t.buyer, Usd), value + buyerFee);
      AddAvailable(Account(t.buyer, Base(asset)), t.qty);
      SpendLocked(Account(t.seller, Base(asset)), t.qty);
      AddAvailable(Account(t.seller, Usd), SaturatingSub(value, sellerFee));
      if buyerFee + sellerFee > 0 {
        AddAvailable(Account(TREASURY, Usd), buyerFee + sellerFee);
      }
    }

    // ----- Orders -----

    /** Settle the results of an execution one by one; the book has already changed completely. */
    method ApplyResults(asset: Asset, side: Side, results: seq<MatchResult>, ghost x: Execution)
      returns (filled: Quantity, spent: nat, resting: Option<Order>, events: seq<Event>)
      requires results == ResultsOf(x)
      requires BookOf(asset).Valid() && BookOf(asset).Abs() == x.book
      requires Covers(accounts, fees, asset, x.trades)
      modifies this`accounts
      ensures accounts == ApplyTrades(old(accounts), fees, asset, x.trades)
      ensures filled == TradedQty(x.trades) && resting == x.resting
      ensures side.Bid? ==> spent == BuyerSpent(fees, x.trades)
      ensures events == TradeEvents(fees, asset, x.book, x.trades)
    {
      hide Covers, Ledger.ApplyFill, FeeSchedule.TakerFee, FeeSchedule.MakerFee, ResultsOf, Pending, Book.Lookup,
        ApplyTrades, TradedQty, BuyerSpent, TradeEvents, Orderbook.Valid, Orderbook.Abs;
      filled, spent, resting, events := 0, 0, None, [];
      ResultCount(x);
      for i := 0 to |results|
        invariant ApplyTrades(accounts, fees, asset, Pending(x, i)) == ApplyTrades(old(accounts), fees, asset, x.trades)
        invariant Covers(accounts, fees, asset, Pending(x, i))
        invariant filled + TradedQty(Pending(x, i)) == TradedQty(x.trades)
        invariant side.Bid? ==> spent + BuyerSpent(fees, Pending(x, i)) == BuyerSpent(fees, x.trades)
        invariant events + TradeEvents(fees, asset, x.book, Pending(x, i)) == TradeEvents(fees, asset, x.book, x.trades)
        invariant resting == if i <= |x.trades| then None else x.resting
      {
        ResultAt(x, i);
        match results[i] {
          case Traded(t) =>
            BatchStaysCovered(accounts, fees, asset, Pending(x, i));
            SettlingOneTrade(accounts, fees, asset, x.book, events, Pending(x, i));
            var buyerFee, sellerFee := ApplyFill(asset, t);
            filled := filled + t.qty;
            if side.Bid? {
              spent := spent + t.Value() + buyerFee;
            }
            var maker := BookOf(asset).GetOrder(t.makerId);
            var makerRemaining := if maker.Some? then maker.value.remaining else 0;
            events := events + [TradeExecuted(t.makerId, t.takerId, t.buyer, t.seller, asset, t.price, t.qty, t.Value(),
                                              makerRemaining, buyerFee, sellerFee)];
          case Accepted(o) =>
            resting := Some(o);
        }
      }
      NothingPending(accounts, fees, asset, x.book);
    }

    method DepthOf(asset: Asset) returns (event: Event)
      requires BooksValid()
      ensures event == DepthEvent(asset, BookOf(asset).Abs())
    {
      var bids, asks := BookOf(asset).GetState();
      event := DepthUpdated(asset, TopLevels(bids), TopLevels(asks));
    }

    // A handler takes an accepted order from state e through settlement s: the book is matched while the
    // accounts are only locked, then the trades are settled, then the excess is released.

    /** The book has changed completely, everything else is as in e, and the accounts have got to a. */
    ghost predicate Executed(e: Engine, s: Settlement, a: Accounts)
      reads this, sol, btc, eth
    {
      && BooksValid() && nextOrderId == e.nextId + 1 && fees == e.fees
      && (forall m: Asset :: BookOf(m).Abs() == if m == s.asset then s.x.book else e.BookOf(m))
      && accounts == a
    }

    method SettleResults(asset: Asset, side: Side, results: seq<MatchResult>, ghost e: Engine, ghost s: Settlement)
      returns (filled: Quantity, spent: nat, resting: Option<Order>, events: seq<Event>)
      requires asset == s.asset && results == ResultsOf(s.x)
      requires Executed(e, s, LockedFor(e, s)) && Covers(LockedFor(e, s), e.fees, s.asset, s.x.trades)
      modifies this`accounts
      ensures Executed(e, s, SettledFor(e, s))
      ensures filled == TradedQty(s.x.trades) && resting == s.x.resting
      ensures side.Bid? ==> spent == BuyerSpent(e.fees, s.x.trades)
      ensures events == TradeEvents(e.fees, asset, s.x.book, s.x.trades)
    {
      hide Covers, ApplyTrades, TradeEvents, BuyerSpent, TradedQty, ResultsOf, Orderbook.Valid, Orderbook.Abs;
      filled, spent, resting, events := ApplyResults(asset, side, results, s.x);
    }

    method Refund(k: Account, excess: nat, ghost e: Engine, ghost s: Settlement)
      requires Inv(e) && Balanced(e, s) && Executed(e, s, SettledFor(e, s)) && k == s.Payer() && excess == s.refund
      modifies this`accounts
      ensures Valid() && Abs() == s.Apply(e)
    {
      hide Inv, Balanced, Settle, ApplyTrades, Orderbook.Valid, Orderbook.Abs;
      RefundIsCovered(e, s);
      Unlock(k, excess);
      SettlementKeepsInv(e, s);
      SettleAccounts(e, s);
      assert BookOf(Sol).Abs() == s.Apply(e).BookOf(Sol);
      assert BookOf(Btc).Abs() == s.Apply(e).BookOf(Btc);
      assert BookOf(Eth).Abs() == s.Apply(e).BookOf(Eth);
    }

    method MatchLimit(user: UserId, asset: Asset, side: Side, price: Price, qty: Quantity, tif: TimeInForce,
                      ghost e: Engine, ghost s: Settlement)
      returns (results: seq<MatchResult>)
      requires BooksValid() && BookOf(asset).nextOrderId <= nextOrderId && price > 0 && qty > 0
      requires asset == s.asset && Abs() == e.(accounts := LockedFor(e, s))
      requires s.x == PlaceLimit(e.BookOf(asset), e.nextId, user, side, price, qty, tif)
      modifies this`nextOrderId, BookOf(asset)
      ensures results == ResultsOf(s.x) && Executed(e, s, LockedFor(e, s))
    {
      hide ResultsOf, LockedFor, PlaceLimit, Orderbook.Valid, Orderbook.Abs;
      assert forall m: Asset :: BookOf(m).Abs() == e.BookOf(m);
      var orderId := NextOrderId();
      var r := BookOf(asset).AddOrderWithId(orderId, user, side, price, qty, tif);
      assert r == Ok(ResultsOf(s.x));
      results := r.value;
    }

    method MatchMarket(user: UserId, asset: Asset, side: Side, qty: Quantity, worst: Option<Price>,
                       ghost e: Engine, ghost s: Settlement)
      returns (results: seq<MatchResult>)
      requires BooksValid() && BookOf(asset).nextOrderId <= nextOrderId && qty > 0
      requires asset == s.asset && Abs() == e.(accounts := LockedFor(e, s))
      requires s.x == ExecuteMarket(e.BookOf(asset), e.nextId, user, side, qty, worst)
      modifies this`nextOrderId, BookOf(asset)
      ensures results == ResultsOf(s.x) && Executed(e, s, LockedFor(e, s))
    {
      hide ResultsOf, LockedFor, ExecuteMarket, Orderbook.Valid, Orderbook.Abs;
      assert forall m: Asset :: BookOf(m).Abs() == e.BookOf(m);
      var orderId := NextOrderId();
      var r := BookOf(asset).ExecuteMarketOrderWithId(orderId, user, side, qty, worst);
      assert r == Ok(ResultsOf(s.x));
      results := r.value;
    }

    lemma IdIsUnissued(asset: Asset)
      requires Valid()
      ensures BookOf(asset).nextOrderId <= nextOrderId
    {
      assert WellFormed(Abs().BookOf(asset)) && Abs().BookOf(asset).nextId <= Abs().nextId;
    }

    /** What a limit order locked in excess of what its fills took and its remainder needs. */
    method LimitExcess(side: Side, tif: TimeInForce, totalLock: nat, qty: Quantity, filled: Quantity, spent: nat,
                       resting: Option<Order>, ghost x: Execution)
      returns (excess: int)
      requires filled == TradedQty(x.trades) && resting == x.resting
      requires side.Bid? ==> spent == BuyerSpent(fees, x.trades)
      ensures excess == LimitRefund(fees, side, totalLock, qty, tif, x)
    {
      if side.Bid? {
        var needed := 0;
        if resting.Some? {
          var restingCost := Cost(resting.value.price, resting.value.remaining);
          needed := restingCost + fees.MakerFee(restingCost);
        }
        excess := SaturatingSub(SaturatingSub(totalLock, spent), needed);
      } else {
        excess := if tif.Gtc? then 0 else qty - filled;
      }
    }

    /** Limit order: lock at the higher fee rate, match, settle, keep only what the remainder needs. */
    method PlaceLimitOrder(user: UserId, asset: Asset, side: Side, price: Price, qty: Quantity, tif: TimeInForce)
      returns (events: seq<Event>, reply: Reply)
      requires Valid() && price > 0 && qty > 0
      modifies this, sol, btc, eth
      ensures Valid()
      ensures Step(Abs(), events, reply) == LimitOrder(old(Abs()), user, asset, side, price, qty, tif)
    {
      hide Inv, Balanced, Settle, LimitOrder, Executed, LockedFor, SettledFor, PlaceLimit, ResultsOf, Covers,
        TradeEvents, DepthEvent, BuyerSpent, TradedQty, LimitRefund, Orderbook.Valid, Orderbook.Abs;
      IdIsUnissued(asset);
      ghost var e := Abs();
      ghost var s := LimitSettlement(e, user, asset, side, price, qty, tif);
      var k := Funding(user, side, asset);
      var cost := Cost(price, qty);
      var totalLock := cost + Fee(fees.ReserveBps(), cost);

      var ok := TryLock(k, if side.Bid? then totalLock else qty);
      if !ok {
        LimitRefused(e, user, asset, side, price, qty, tif);
        return [], Rejected(InsufficientFunds);
      }
      LimitAccepted(e, user, asset, side, price, qty, tif);
      var results := MatchLimit(user, asset, side, price, qty, tif, e, s);
      var filled, spent, resting, trades := SettleResults(asset, side, results, e, s);

      var excess := LimitExcess(side, tif, totalLock, qty, filled, spent, resting, s.x);
      Refund(k, excess, e, s);

      var depth := DepthOf(asset);
      match resting {
        case Some(o) =>
          events := trades + [OrderCreated(o.id, o.user, asset, side, o.price, qty, o.remaining)] + [depth];
          reply := Placed(Some(o.id), Open);
        case None =>
          events := trades + [] + [depth];
          reply := Placed(None, FillStatus(filled, qty));
      }
    }

    /** Market sell: lock the quantity, sell what the limit allows, return the rest. */
    method PlaceMarketSell(user: UserId, asset: Asset, qty: Quantity, worst: Option<Price>, tif: TimeInForce)
      returns (events: seq<Event>, reply: Reply)
      requires Valid() && qty > 0
      modifies this, sol, btc, eth
      ensures Valid()
      ensures Step(Abs(), events, reply) == MarketSell(old(Abs()), user, asset, qty, worst, tif)
    {
      hide Inv, Balanced, Settle, MarketSell, Executed, LockedFor, SettledFor, ExecuteMarket, ResultsOf, Covers,
        TradeEvents, DepthEvent, BuyerSpent, TradedQty, FilledQty, Orderbook.Valid, Orderbook.Abs;
      IdIsUnissued(asset);
      ghost var e := Abs();
      ghost var s := MarketSellSettlement(e, user, asset, qty, worst);
      assert BookOf(asset).Abs() == e.BookOf(asset);
      if tif.Fok? {
        var fillable := BookOf(asset).FillableQtyForMarketSell(qty, worst);
        if fillable < qty {
          MarketSellKilled(e, user, asset, qty, worst);
          return [], Placed(None, Unfilled);
        }
      }
      var k := Funding(user, Ask, asset);
      var ok := TryLock(k, qty);
      if !ok {
        MarketSellRefused(e, user, asset, qty, worst, tif);
        return [], Rejected(InsufficientFunds);
      }
      MarketSellAccepted(e, user, asset, qty, worst, tif);
      var results := MatchMarket(user, asset, Ask, qty, worst, e, s);
      var filled, _, _, trades := SettleResults(asset, Ask, results, e, s);
      Refund(k, qty - filled, e, s);
      var depth := DepthOf(asset);
      events := trades + [depth];
      reply := Placed(None, FillStatus(filled, qty));
    }

    /** Market buy: lock the quoted cost and the fee on it, buy, return what was not spent. */
    method PlaceMarketBuy(user: UserId, asset: Asset, qty: Quantity, worst: Option<Price>, tif: TimeInForce)
      returns (events: seq<Event>, reply: Reply)
      requires Valid() && qty > 0
      modifies this, sol, btc, eth
      ensures Valid()
      ensures Step(Abs(), events, reply) == MarketBuy(old(Abs()), user, asset, qty, worst, tif)
    {
      hide Inv, Balanced, Settle, MarketBuy, Executed, LockedFor, SettledFor, ExecuteMarket, ResultsOf, Covers,
        TradeEvents, DepthEvent, BuyerSpent, TradedQty, FilledQty, FilledCost, Orderbook.Valid, Orderbook.Abs;
      IdIsUnissued(asset);
      ghost var e := Abs();
      ghost var s := MarketBuySettlement(e, user, asset, qty, worst);
      assert BookOf(asset).Abs() == e.BookOf(asset);
      var requiredUsd, fillable := BookOf(asset).QuoteCostForMarketBuy(qty, worst);
      if fillable == 0 || (tif.Fok? && fillable < qty) {
        MarketBuyKilled(e, user, asset, qty, worst, tif);
        if tif.Fok? && fillable < qty {
          return [], Placed(None, Unfilled);
        }
        return [], Rejected(NoLiquidity);
      }
      var totalRequired := requiredUsd + fees.TakerFee(requiredUsd);
      var k := Funding(user, Bid, asset);
      var ok := TryLock(k, totalRequired);
      if !ok {
        MarketBuyRefused(e, user, asset, qty, worst, tif);
        return [], Rejected(InsufficientFunds);
      }
      MarketBuyAccepted(e, user, asset, qty, worst, tif);
      var results := MatchMarket(user, asset, Bid, qty, worst, e, s);
      var filled, totalSpent, _, trades := SettleResults(asset, Bid, results, e, s);
      Refund(k, SaturatingSub(totalRequired, totalSpent), e, s);
      var depth := DepthOf(asset);
      events := trades + [depth];
      reply := Placed(None, FillStatus(filled, qty));
    }

    /** Validate an order request and hand it to its handler. */
    method PlaceOrder(m: OrderMsg) returns (events: seq<Event>, reply: Reply)
      requires Valid()
      modifies this, sol, btc, eth
      ensures Valid()
      ensures Step(Abs(), events, reply) == HandleOrder(old(Abs()), m)
    {
      hide Inv, LimitOrder, MarketSell, MarketBuy, Orderbook.Valid, Orderbook.Abs;
      if m.asset.None? {
        return [], Rejected(UnsupportedAsset);
      }
      if m.side.None? {
        return [], Rejected(UnknownSide);
      }
      if m.qty <= 0 {
        return [], Rejected(InvalidQuantity);
      }
      var asset, side := m.asset.value, m.side.value;
      match m.kind {
        case Limit =>
          if m.price <= 0 {
            return [], Rejected(InvalidPrice);
          }
          events, reply := PlaceLimitOrder(m.user, asset, side, m.price, m.qty, m.tif);
        case Market =>
          var best := BookOf(asset).Best(side.Opposite());
          assert BookOf(asset).Abs() == Abs().BookOf(asset);
          var worst := WorstPrice(side, m.price, m.slippage, best);
          if side.Ask? {
            events, reply := PlaceMarketSell(m.user, asset, m.qty, worst, m.tif);
          } else {
            events, reply := PlaceMarketBuy(m.user, asset, m.qty, worst, m.tif);
          }
      }
    }

    // ----- Cancelling -----

    method RefundCancelled(o: Order, asset: Asset, ghost e: Engine, ghost user: UserId, ghost id: OrderId)
      returns (events: seq<Event>, reply: Reply)
      requires Inv(e) && BooksValid() && accounts == e.accounts && nextOrderId == e.nextId && fees == e.fees
      requires Cancel(e.BookOf(asset), id, user).Ok? && Cancel(e.BookOf(asset), id, user).value.order == o
      requires forall m: Asset :: BookOf(m).Abs() ==
                 if m == asset then Cancel(e.BookOf(asset), id, user).value.book else e.BookOf(m)
      modifies this`accounts
      ensures Valid()
      ensures Step(Abs(), events, reply) == CancelIn(e, asset, Cancel(e.BookOf(asset), id, user).value)
    {
      hide Inv, Orderbook.Valid, Orderbook.Abs, Cancel, DepthEvent, Index.Abs;
      ghost var removal := Cancel(e.BookOf(asset), id, user).value;
      ghost var after := CancelIn(e, asset, removal).state;
      CancelShape(e, asset, removal);
      CancelKeepsInv(e, asset, id, user);
      CancelRefundIsCovered(e, asset, id, user);
      match o.side {
        case Bid =>
          var cost := Cost(o.price, o.remaining);
          Unlock(Account(o.user, Usd), cost + fees.MakerFee(cost));
        case Ask =>
          Unlock(Account(o.user, Base(asset)), o.remaining);
      }
      assert BookOf(Sol).Abs() == after.BookOf(Sol);
      assert BookOf(Btc).Abs() == after.BookOf(Btc);
      assert BookOf(Eth).Abs() == after.BookOf(Eth);
      var depth := DepthOf(asset);
      events := [OrderCancelled(o.id, o.user, o.remaining), depth];
      reply := CancelDone(o.id, o.remaining);
    }

    /** Try the markets in turn; refund the first order that the user may withdraw. */
    method CancelOrder(user: UserId, id: OrderId) returns (events: seq<Event>, reply: Reply)
      requires Valid()
      modifies this, sol, btc, eth
      ensures Valid()
      ensures Step(Abs(), events, reply) == HandleCancel(old(Abs()), user, id)
    {
      hide Inv, Orderbook.Valid, Orderbook.Abs, Cancel, Book.Lookup, CancelIn, DepthEvent, Index.Abs;
      ghost var e := Abs();
      var r := sol.CancelOrder(id, user);
      var asset := Sol;
      if r.Err? {
        r := btc.CancelOrder(id, user);
        asset := Btc;
      }
      if r.Err? {
        r := eth.CancelOrder(id, user);
        asset := Eth;
      }
      if r.Ok? {
        events, reply := RefundCancelled(r.value, asset, e, user, id);
      } else {
        var inSol := sol.GetOrder(id);
        var inBtc := btc.GetOrder(id);
        var inEth := eth.GetOrder(id);
        events := [];
        reply := Rejected(if inSol.Some? || inBtc.Some? || inEth.Some? then NotOrderOwner else OrderNotFound);
      }
    }

    // ----- Funding and dispatch -----

    method Signup(user: UserId) returns (reply: Reply)
      requires Valid()
      modifies this`accounts
      ensures Valid() && Abs() == old(Abs()).(accounts := Adjust(old(accounts), Account(user, Usd), 0, 0))
      ensures reply == Balances
    {
      hide Inv, Orderbook.Valid, Orderbook.Abs;
      ghost var e := Abs();
      var k := Account(user, Usd);
      accounts := accounts[k := Get(accounts, k)];
      AddingKeepsInv(e, e.(accounts := Adjust(e.accounts, k, 0, 0)));
      reply := Balances;
    }

    /** The only ways funds enter: an onramp of USD, a deposit of an asset. */
    method FundAccount(k: Account, qty: nat) returns (events: seq<Event>, reply: Reply)
      requires Valid()
      modifies this`accounts
      ensures Valid()
      ensures Step(Abs(), events, reply) == Fund(old(Abs()), k, qty)
    {
      hide Inv, Orderbook.Valid, Orderbook.Abs;
      ghost var e := Abs();
      AddAvailable(k, qty);
      AddingKeepsInv(e, e.(accounts := Adjust(e.accounts, k, qty, 0)));
      events, reply := [FundingExecuted(k.user, k.currency, qty)], Balances;
    }

    /**
     * One step of the engine. Without a publisher (in replay) nothing is emitted and nobody is answered, but
     * the state takes the same step.
     */
    method DispatchCommand(c: Command, live: bool) returns (events: seq<Event>, reply: Option<Reply>)
      requires Valid()
      modifies this, sol, btc, eth
      ensures Valid()
      ensures Abs() == Dispatch(old(Abs()), c).state
      ensures live ==> events == Dispatch(old(Abs()), c).events && reply == Some(Dispatch(old(Abs()), c).reply)
      ensures !live ==> events == [] && reply == None
    {
      hide Inv, HandleOrder, HandleCancel, Orderbook.Valid, Orderbook.Abs, Index.Abs;
      var answer: Reply;
      events := [];
      match c {
        case Signup(user) => answer := Signup(user);
        case Onramp(user, qty) => events, answer := FundAccount(Account(user, Usd), qty);
        case Deposit(user, asset, qty) => events, answer := FundAccount(Account(user, Base(asset)), qty);
        case PlaceOrder(m) => events, answer := PlaceOrder(m);
        case CancelOrder(user, id) => events, answer := CancelOrder(user, id);
        case Query => answer := Answer;
        case Reset => Reset(); answer := ResetDone;
      }
      reply := if live then Some(answer) else None;
      events := if live then events else [];
    }
  }

  /** The accounts once the payer's funds are locked, and once every trade is settled. */
  function LockedFor(e: Engine, s: Settlement): Accounts {
    Adjust(e.accounts, s.Payer(), -s.lock, s.lock)
  }

  function SettledFor(e: Engine, s: Settlement): Accounts {
    ApplyTrades(LockedFor(e, s), e.fees, s.asset, s.x.trades)
  }

  lemma LimitRefused(e: Engine, user: UserId, asset: Asset, side: Side, price: Price, qty: Quantity, tif: TimeInForce)
    requires Inv(e)
    requires Get(e.accounts, Funding(user, side, asset)).available < LimitLock(e.fees, side, price, qty)
    ensures var after := e.(accounts := Adjust(e.accounts, Funding(user, side, asset), 0, 0));
            Inv(after) && LimitOrder(e, user, asset, side, price, qty, tif) ==
                          Step(after, [], Rejected(InsufficientFunds))
  {
    AddingKeepsInv(e, e.(accounts := Adjust(e.accounts, Funding(user, side, asset), 0, 0)));
  }

  lemma LimitAccepted(e: Engine, user: UserId, asset: Asset, side: Side, price: Price, qty: Quantity, tif: TimeInForce)
    requires Inv(e)
    requires LimitLock(e.fees, side, price, qty) <= Get(e.accounts, Funding(user, side, asset)).available
    ensures var s := LimitSettlement(e, user, asset, side, price, qty, tif);
            && Balanced(e, s) && s.refund >= 0 && s.lock >= 0
            && LockedFor(e, s) == Adjust(e.accounts, s.Payer(), 0 - s.lock, s.lock)
            && Covers(LockedFor(e, s), e.fees, s.asset, s.x.trades)
            && s.Apply(e).BookOf(asset) == s.x.book
            && s.refund == LimitRefund(e.fees, side, LimitLock(e.fees, Bid, price, qty), qty, tif, s.x)
            && LimitOrder(e, user, asset, side, price, qty, tif) ==
               Step(s.Apply(e),
                    TradeEvents(e.fees, asset, s.x.book, s.x.trades) + CreatedEvents(s) + [DepthEvent(asset, s.x.book)],
                    if s.x.resting.Some? then Placed(Some(s.x.resting.value.id), Open)
                    else Placed(None, FillStatus(TradedQty(s.x.trades), qty)))
            && (s.x.resting.Some? ==> s.x.resting.value.user == user && s.x.resting.value.side == side)
  {
    hide Balanced, Inv, BooksSound, Covers, TradeEvents, DepthEvent, TradedQty, FillStatus, Settle, IsExecution,
      Consume, PlaceLimit, SaturatingSub, Cost, Fee, Adjust, Kept;
    var s := LimitSettlement(e, user, asset, side, price, qty, tif);
    assert BooksSound(e) && WellFormed(e.BookOf(asset)) by { Unfold(e); }
    SettleAccounts(e, s);
    LimitOrderIsBalanced(e, user, asset, side, price, qty, tif);
    BalancedAmounts(e, s);
    LockedFundsCoverTheBatch(e, s);
    LimitIsExecution(e.BookOf(asset), e.nextId, user, side, price, qty, tif);
  }

  lemma MarketSellKilled(e: Engine, user: UserId, asset: Asset, qty: Quantity, worst: Option<Price>)
    requires FilledQty(Consume(e.BookOf(asset).bids, worst, qty).fills) < qty
    ensures MarketSell(e, user, asset, qty, worst, Fok) == Step(e, [], Placed(None, Unfilled))
  {
  }

  lemma MarketSellRefused(e: Engine, user: UserId, asset: Asset, qty: Quantity, worst: Option<Price>, tif: TimeInForce)
    requires Inv(e)
    requires tif.Fok? ==> FilledQty(Consume(e.BookOf(asset).bids, worst, qty).fills) >= qty
    requires Get(e.accounts, Funding(user, Ask, asset)).available < qty
    ensures var after := e.(accounts := Adjust(e.accounts, Funding(user, Ask, asset), 0, 0));
            Inv(after) && MarketSell(e, user, asset, qty, worst, tif) == Step(after, [], Rejected(InsufficientFunds))
  {
    AddingKeepsInv(e, e.(accounts := Adjust(e.accounts, Funding(user, Ask, asset), 0, 0)));
  }

  lemma MarketSellAccepted(e: Engine, user: UserId, asset: Asset, qty: Quantity, worst: Option<Price>, tif: TimeInForce)
    requires Inv(e)
    requires tif.Fok? ==> FilledQty(Consume(e.BookOf(asset).bids, worst, qty).fills) >= qty
    requires qty <= Get(e.accounts, Funding(user, Ask, asset)).available
    ensures var s := MarketSellSettlement(e, user, asset, qty, worst);
            && Balanced(e, s) && s.refund >= 0
            && LockedFor(e, s) == Adjust(e.accounts, s.Payer(), 0 - s.lock, s.lock)
            && Covers(LockedFor(e, s), e.fees, s.asset, s.x.trades)
            && s.Apply(e).BookOf(asset) == s.x.book
            && MarketSell(e, user, asset, qty, worst, tif) ==
               Step(s.Apply(e),
                    TradeEvents(e.fees, asset, s.x.book, s.x.trades) + [DepthEvent(asset, s.x.book)],
                    Placed(None, FillStatus(TradedQty(s.x.trades), qty)))
  {
    hide Balanced, Inv, BooksSound, Covers, TradeEvents, DepthEvent, TradedQty, FillStatus, Settle, ExecuteMarket,
      FilledCost, FilledQty, BuyerSpent, SaturatingSub, Consume;
    var s := MarketSellSettlement(e, user, asset, qty, worst);
    assert BooksSound(e) by { Unfold(e); }
    MarketSellIsBalanced(e, user, asset, qty, worst);
    LockedFundsCoverTheBatch(e, s);
    SettleAccounts(e, s);
    BalancedAmounts(e, s);
  }

  lemma MarketBuyKilled(e: Engine, user: UserId, asset: Asset, qty: Quantity, worst: Option<Price>, tif: TimeInForce)
    requires var fillable := FilledQty(Consume(e.BookOf(asset).asks, worst, qty).fills);
             fillable == 0 || (tif.Fok? && fillable < qty)
    ensures var killed := tif.Fok? && FilledQty(Consume(e.BookOf(asset).asks, worst, qty).fills) < qty;
            MarketBuy(e, user, asset, qty, worst, tif) ==
            Step(e, [], if killed then Placed(None, Unfilled) else Rejected(NoLiquidity))
  {
  }

  ghost predicate BuyProceeds(e: Engine, asset: Asset, qty: Quantity, worst: Option<Price>, tif: TimeInForce) {
    var fillable := FilledQty(Consume(e.BookOf(asset).asks, worst, qty).fills);
    fillable > 0 && (tif.Fok? ==> fillable >= qty)
  }

  lemma MarketBuyRefused(e: Engine, user: UserId, asset: Asset, qty: Quantity, worst: Option<Price>, tif: TimeInForce)
    requires Inv(e) && BuyProceeds(e, asset, qty, worst, tif)
    requires var s := MarketBuySettlement(e, user, asset, qty, worst);
             Get(e.accounts, s.Payer()).available < s.lock
    ensures var after := e.(accounts := Adjust(e.accounts, Funding(user, Bid, asset), 0, 0));
            Inv(after) && MarketBuy(e, user, asset, qty, worst, tif) == Step(after, [], Rejected(InsufficientFunds))
  {
    AddingKeepsInv(e, e.(accounts := Adjust(e.accounts, Funding(user, Bid, asset), 0, 0)));
  }

  lemma MarketBuyAccepted(e: Engine, user: UserId, asset: Asset, qty: Quantity, worst: Option<Price>, tif: TimeInForce)
    requires Inv(e) && BuyProceeds(e, asset, qty, worst, tif)
    requires var s := MarketBuySettlement(e, user, asset, qty, worst);
             s.lock <= Get(e.accounts, s.Payer()).available
    ensures var s := MarketBuySettlement(e, user, asset, qty, worst);
            && Balanced(e, s) && s.refund >= 0
            && LockedFor(e, s) == Adjust(e.accounts, s.Payer(), 0 - s.lock, s.lock)
            && Covers(LockedFor(e, s), e.fees, s.asset, s.x.trades)
            && s.Apply(e).BookOf(asset) == s.x.book
            && MarketBuy(e, user, asset, qty, worst, tif) ==
               Step(s.Apply(e),
                    TradeEvents(e.fees, asset, s.x.book, s.x.trades) + [DepthEvent(asset, s.x.book)],
                    Placed(None, FillStatus(TradedQty(s.x.trades), qty)))
  {
    hide Balanced, Inv, BooksSound, Covers, TradeEvents, DepthEvent, TradedQty, FillStatus, Settle, ExecuteMarket,
      FilledCost, FilledQty, BuyerSpent, SaturatingSub, Consume;
    var s := MarketBuySettlement(e, user, asset, qty, worst);
    assert BooksSound(e) by { Unfold(e); }
    MarketBuyIsBalanced(e, user, asset, qty, worst);
    LockedFundsCoverTheBatch(e, s);
    SettleAccounts(e, s);
    BalancedAmounts(e, s);
  }

  lemma Unfold(e: Engine)
    requires Inv(e)
    ensures BooksSound(e) && forall a: Asset :: WellFormed(e.BookOf(a))
  {
  }

  lemma BalancedAmounts(e: Engine, s: Settlement)
    requires Balanced(e, s)
    ensures s.lock >= 0 && s.refund >= 0
  {
  }

  lemma SettlementKeepsInv(e: Engine, s: Settlement)
    requires Inv(e) && Balanced(e, s)
    ensures Inv(s.Apply(e))
  {
    SettlementKeepsBooks(e, s);
    SettlementKeepsIds(e, s);
    SettlementKeepsSolvent(e, s);
  }
}
