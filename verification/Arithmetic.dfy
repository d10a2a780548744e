/**
 * No command overflows: over every log whose funding and limit orders fit, each number the engine stores fits an
 * unsigned 64-bit integer, and so does each number a handler computes on the way, except that a market buy is
 * handled without overflow exactly when its own quote fits.
 */
module Arithmetic {
  import opened Types
  import opened Fees
  import opened Matching
  import opened Books
  import opened Ledger
  import opened Engine
  import opened Claims
  import opened Solvency
  import opened Resting
  import opened Runs
  import opened Depths
  import opened Overflow

  // ----- What a command computes -----

  predicate Validated(m: OrderMsg) {
    m.asset.Some? && m.side.Some? && m.qty > 0 && (m.kind.Limit? ==> m.price > 0)
  }

  /** The fills a market order would get: those its quote or its fill-or-kill check walks over. */
  function QuotedFills(e: Engine, m: OrderMsg): seq<Fill>
    requires Validated(m)
  {
    var b, side := e.BookOf(m.asset.value), m.side.value;
    FillsOf(b, side, WorstPrice(side, m.price, m.slippage, b.Best(side.Opposite())), m.qty)
  }

  /** Before the funds are looked at: a limit order's cost and lock, a market order's walk and lock. */
  ghost predicate RequestComputed(e: Engine, m: OrderMsg) {
    Validated(m) ==>
      if m.kind.Limit? then
        && FeesFit(e.fees, Cost(m.price, m.qty))
        && Fits(LimitLock(e.fees, m.side.value, m.price, m.qty))
      else
        var fills := QuotedFills(e, m);
        && (forall n: nat :: n <= |fills| ==> Fits(FilledQty(fills[..n])))
        && (m.side.value.Bid? ==>
              && (forall n: nat :: n <= |fills| ==> Fits(FilledCost(fills[..n])))
              && Fits(FilledCost(fills) * e.fees.takerBps) && Fits(MarketBuyLock(e.fees, FilledCost(fills))))
  }

  /** The running totals of a settlement after n trades, and every balance at that point. */
  ghost predicate TotalsFit(e: Engine, s: Settlement, n: nat)
    requires n <= |s.x.trades|
  {
    && Fits(TradedQty(s.x.trades[..n]))
    && (s.side.Bid? ==> Fits(BuyerSpent(e.fees, s.x.trades[..n])))
    && forall k: Account :: BalanceFits(AccountsAfter(e, s, n), k)
  }

  ghost predicate BalanceFits(a: Accounts, k: Account) {
    Fits(Get(a, k).available) && Fits(Get(a, k).locked)
  }

  /** One trade: its value, all fees of it, what the buyer pays and the treasury gets; the seller's fee is covered. */
  ghost predicate TradeComputed(fees: FeeSchedule, t: Trade) {
    && FeesFit(fees, t.Value()) && Fits(BuyerPays(fees, t)) && Fits(TotalFee(fees, t))
    && FeesOf(fees, t).seller <= t.Value()
  }

  ghost predicate SettlementComputed(e: Engine, s: Settlement) {
    && Fits(s.lock) && Fits(s.refund)
    && (forall i :: 0 <= i < |s.x.trades| ==> TradeComputed(e.fees, s.x.trades[i]))
    && (forall n: nat :: n <= |s.x.trades| ==> TotalsFit(e, s, n))
    && (s.x.resting.Some? ==> OrderComputed(e.fees, s.x.resting.value))
  }

  /** What a resting order keeps locked, and what cancelling it gives back. */
  predicate OrderComputed(fees: FeeSchedule, o: Order) {
    FeesFit(fees, Cost(o.price, o.remaining)) && Fits(CancelRefund(fees, o))
  }

  ghost predicate CommandComputed(e: Engine, c: Command) {
    && (c.PlaceOrder? ==> RequestComputed(e, c.msg))
    && (SettlementIn(e, c).Some? ==> SettlementComputed(e, SettlementIn(e, c).value))
    && (CancelledIn(e, c).Some? ==>
          OrderComputed(e.fees, Cancel(e.BookOf(CancelledIn(e, c).value), c.orderId, c.user).value.order))
  }

  /** What the engine stores and publishes: every balance, every published level, and the next order id. */
  ghost predicate StateFits(e: Engine) {
    && Fits(e.nextId)
    && (forall k: Account :: BalanceFits(e.accounts, k))
    && forall a: Asset, side: Side :: LevelsFit(Depth(e.BookOf(a).SideOf(side)))
  }

  predicate LevelsFit(levels: seq<DepthLevel>) {
    forall i :: 0 <= i < |levels| ==> Fits(levels[i].qty)
  }

  // ----- One command -----

  /** A market buy's quote, its fee product and its lock fit; nothing is asked of other commands. */
  predicate QuoteFits(e: Engine, c: Command) {
    c.PlaceOrder? && c.msg.kind.Market? && Validated(c.msg) && c.msg.side.value.Bid? ==>
      var cost := FilledCost(QuotedFills(e, c.msg));
      Fits(cost) && Fits(cost * e.fees.takerBps) && Fits(MarketBuyLock(e.fees, cost))
  }

  /** An admissible quote fits. */
  lemma AdmissibleQuoteFits(e: Engine, c: Command)
    requires e.fees.Bounded()
    requires c.PlaceOrder? && Validated(c.msg) && Admissible(FilledCost(QuotedFills(e, c.msg)))
    ensures QuoteFits(e, c)
  {
    AdmissibleAmountFits(e.fees, FilledCost(QuotedFills(e, c.msg)));
  }

  /** The state every command is handled in, if the commands before it fit. */
  ghost predicate Roomy(e: Engine) {
    Inv(e) && BooksAdmitted(e) && SupplyFits(e.accounts) && e.fees.Bounded()
  }

  lemma {:induction false} QuantityGrows(fills: seq<Fill>, n: nat)
    requires n <= |fills|
    ensures FilledQty(fills[..n]) <= FilledQty(fills)
  {
    if n > 0 {
      assert fills[..n][1..] == fills[1..][..n - 1];
      QuantityGrows(fills[1..], n - 1);
    }
  }

  lemma {:induction false} TotalsGrow(fees: FeeSchedule, trades: seq<Trade>, n: nat)
    requires n <= |trades|
    ensures TradedQty(trades[..n]) <= TradedQty(trades)
    ensures BuyerSpent(fees, trades[..n]) <= BuyerSpent(fees, trades)
  {
    if n > 0 {
      assert trades[..n][1..] == trades[1..][..n - 1];
      TotalsGrow(fees, trades[1..], n - 1);
    }
  }

  lemma MarketRequestFits(e: Engine, m: OrderMsg)
    requires Roomy(e) && Validated(m) && m.kind.Market?
    ensures RequestComputed(e, m) <==> QuoteFits(e, PlaceOrder(m))
  {
    hide Inv, BooksAdmitted, SupplyFits, FilledQty, FilledCost, WorstPrice, Consume, MarketBuyLock;
    var b, side := e.BookOf(m.asset.value), m.side.value;
    var worst := WorstPrice(side, m.price, m.slippage, b.Best(side.Opposite()));
    var fills := QuotedFills(e, m);
    SideQuantitiesFit(e, m.asset.value, side.Opposite(), worst, m.qty);
    forall n: nat | n <= |fills| ensures Fits(FilledQty(fills[..n])) {
      QuantityGrows(fills, n);
    }
    forall n: nat | n <= |fills| ensures FilledCost(fills[..n]) <= FilledCost(fills) {
      QuoteGrows(fills, n);
    }
    assert fills[..|fills|] == fills;
  }

  lemma RequestIsComputed(e: Engine, m: OrderMsg)
    requires Roomy(e) && RequestFits(m)
    ensures RequestComputed(e, m) <==> QuoteFits(e, PlaceOrder(m))
  {
    hide Roomy, QuotedFills, FilledCost, FilledQty, FeesFit, Admissible;
    if Validated(m) && m.kind.Market? {
      MarketRequestFits(e, m);
    } else if Validated(m) {
      assert e.fees.Bounded() by {
        RoomyFees(e);
      }
      LimitRequestArithmeticFits(e.fees, m);
    }
  }

  lemma RoomyFees(e: Engine)
    requires Roomy(e)
    ensures e.fees.Bounded()
  {
  }

  /** The lock is available, and the spending, the refund and what stays locked are parts of it. */
  lemma SettlementAmountsFit(e: Engine, s: Settlement)
    requires Roomy(e) && Balanced(e, s)
    ensures Fits(s.lock) && Fits(s.refund) && Fits(Kept(e.fees, s.x)) && Fits(TradedQty(s.x.trades))
    ensures s.side.Bid? ==> Fits(BuyerSpent(e.fees, s.x.trades))
  {
    hide BooksSound, IdsApart, BooksAdmitted, SupplyFits, WellFormed, Consume, TakerDebits, Trades, TradedQty,
      BuyerSpent, FilledQty;
    var opp := s.side.Opposite();
    ClaimsAreNonNegative(e);
    BalancesFit(e.accounts, s.Payer());
    SideQuantitiesFit(e, s.asset, opp, s.limit, s.matched);
    TradedQtyIsFilled(e.nextId, s.user, s.side, s.Fills(e));
    QueueOfSide(e, s.asset, opp);
    ConsumeMakersOn(opp, e.BookOf(s.asset).SideOf(opp), s.limit, s.matched);
    if s.side.Bid? {
      BuyerSpendsTakerDebits(e.fees, e.nextId, s.user, s.Fills(e));
    }
  }

  lemma SettlementTotalsFit(e: Engine, s: Settlement, n: nat)
    requires Roomy(e) && Balanced(e, s) && n <= |s.x.trades|
    ensures TotalsFit(e, s, n)
  {
    hide Inv, BooksAdmitted, SupplyFits, Balanced, AccountsAfter, TradedQty, BuyerSpent;
    SettlementAmountsFit(e, s);
    TotalsGrow(e.fees, s.x.trades, n);
    forall k: Account ensures BalanceFits(AccountsAfter(e, s, n), k) {
      BalancesFitDuringSettlement(e, s, n, k);
    }
  }

  lemma RemainderFits(e: Engine, m: OrderMsg)
    requires Roomy(e) && RequestFits(m)
    ensures match SettlementOf(e, m)
            case None => true
            case Some(s) => Balanced(e, s) && s.x.resting.Some? ==> OrderComputed(e.fees, s.x.resting.value)
  {
    hide Inv, BooksAdmitted, SupplyFits, Balanced, SettlementOf, FeesFit, Admissible, CancelRefund;
    match SettlementOf(e, m)
    case None =>
    case Some(s) =>
      if Balanced(e, s) && s.x.resting.Some? {
        FillsKeepOrdersAdmitted();
        PlacesAdmitted(m);
        SoundBooks(e);
        RestingRemainderHas(Admitted(), e, m);
        assert Admitted()(s.x.resting.value);
        AdmissibleAmountFits(e.fees, Cost(s.x.resting.value.price, s.x.resting.value.remaining));
        SettlementAmountsFit(e, s);
      }
  }

  lemma PlacesAdmitted(m: OrderMsg)
    requires RequestFits(m)
    ensures PlacesOnly(Admitted(), PlaceOrder(m))
  {
  }

  lemma SettlementIsComputed(e: Engine, m: OrderMsg)
    requires Roomy(e) && RequestFits(m)
    ensures match SettlementOf(e, m)
            case None => true
            case Some(s) => Balanced(e, s) ==> SettlementComputed(e, s)
  {
    hide BooksSound, IdsApart, Solvent, BooksAdmitted, SupplyFits, Balanced, SettlementOf, TotalsFit, FeesFit,
      BuyerPays, TotalFee, FeesOf, OrderComputed;
    match SettlementOf(e, m)
    case None =>
    case Some(s) =>
      if Balanced(e, s) {
        SettlementAmountsFit(e, s);
        forall i | 0 <= i < |s.x.trades| ensures TradeComputed(e.fees, s.x.trades[i]) {
          TradeArithmeticFits(e, s, i);
        }
        forall n: nat | n <= |s.x.trades| ensures TotalsFit(e, s, n) {
          SettlementTotalsFit(e, s, n);
        }
        RemainderFits(e, m);
      }
  }

  lemma CommandIsComputed(e: Engine, c: Command)
    requires Roomy(e) && CommandFits(c)
    ensures CommandComputed(e, c) <==> QuoteFits(e, c)
  {
    hide BooksSound, IdsApart, Solvent, BooksAdmitted, SupplyFits, RequestFits, RequestComputed, QuotedFills,
      FilledCost, SettlementComputed, SettlementOf, Balanced, OrderComputed, CancelMarket, Cancel, Dispatch;
    CommandEffect(e, c);
    if c.PlaceOrder? {
      RequestIsComputed(e, c.msg);
      if SettlementIn(e, c).Some? {
        SettlementIsComputed(e, c.msg);
      }
    } else if CancelledIn(e, c).Some? {
      CancelIsComputed(e, CancelledIn(e, c).value, c.orderId, c.user);
    }
  }

  lemma CancelIsComputed(e: Engine, a: Asset, id: OrderId, user: UserId)
    requires Roomy(e) && Cancel(e.BookOf(a), id, user).Ok?
    ensures OrderComputed(e.fees, Cancel(e.BookOf(a), id, user).value.order)
  {
    CancelArithmeticFits(e, a, id, user);
  }

  // ----- Whole logs -----

  /** What is assumed of a log: its length, its limit orders and all its funding fit. */
  ghost predicate LogFits(log: seq<Command>) {
    && |log| < U64_MAX
    && (forall i :: 0 <= i < |log| ==> CommandFits(log[i]))
    && forall cur: Currency :: Fits(FundedOver(log, cur))
  }

  lemma {:induction false} FundingGrows(log: seq<Command>, i: nat, cur: Currency)
    requires i <= |log|
    ensures FundedOver(log[..i], cur) <= FundedOver(log, cur)
    decreases |log|
  {
    if i < |log| {
      assert log[..i] == log[..|log| - 1][..i];
      FundingGrows(log[..|log| - 1], i, cur);
    } else {
      assert log[..i] == log;
    }
  }

  lemma PrefixFits(log: seq<Command>, i: nat)
    requires LogFits(log) && i <= |log|
    ensures LogFits(log[..i])
  {
    forall cur: Currency ensures Fits(FundedOver(log[..i], cur)) {
      assert Fits(FundedOver(log, cur));
      FundingGrows(log, i, cur);
    }
    forall j | 0 <= j < i ensures CommandFits(log[..i][j]) {
      assert CommandFits(log[j]);
    }
  }

  lemma NextIdStep(e: Engine, c: Command)
    requires BooksSound(e)
    ensures Dispatch(e, c).state.nextId <= e.nextId + 1 || Dispatch(e, c).state.nextId == 1
  {
    hide BooksSound, SettlementOf, Balanced, Settlement.Apply, HandleOrder, CancelMarket;
    CommandEffect(e, c);
    if SettlementIn(e, c).Some? {
      SettleAccounts(e, SettlementIn(e, c).value);
    }
  }

  /** Order ids are issued one by one, at most one for each command. */
  lemma {:induction false} IdsAreFew(fees: FeeSchedule, log: seq<Command>)
    ensures Run(Initial(fees), log).nextId <= |log| + 1
    decreases |log|
  {
    hide Dispatch, BooksSound;
    if log != [] {
      var before := log[..|log| - 1];
      IdsAreFew(fees, before);
      InitialInv(fees);
      RunKeepsInv(Initial(fees), before);
      NextIdStep(Run(Initial(fees), before), log[|log| - 1]);
    }
  }

  lemma RunIsRoomy(fees: FeeSchedule, log: seq<Command>)
    requires fees.Bounded() && LogFits(log)
    ensures Roomy(Run(Initial(fees), log))
  {
    hide Inv, BooksAdmitted, CommandFits, Supply, FundedOver;
    InitialInv(fees);
    RunKeepsInv(Initial(fees), log);
    RunKeepsAdmitted(fees, log);
    RunKeepsFees(Initial(fees), log);
    forall cur: Currency ensures Fits(Supply(Run(Initial(fees), log).accounts, cur)) {
      assert Fits(FundedOver(log, cur));
      SupplyWithinFunding(fees, log, cur);
    }
  }

  lemma RoomyStateFits(e: Engine)
    requires Roomy(e) && Fits(e.nextId)
    ensures StateFits(e)
  {
    hide BooksSound, IdsApart, Solvent, BooksAdmitted, SupplyFits, Depth;
    forall k: Account ensures BalanceFits(e.accounts, k) {
      ClaimsAreNonNegative(e);
      BalancesFit(e.accounts, k);
    }
    forall a: Asset, side: Side ensures LevelsFit(Depth(e.BookOf(a).SideOf(side))) {
      SideQuantitiesFit(e, a, side, None, 0);
    }
  }

  /** In every state of a run every number fits, and each command overflows nowhere exactly when its quote fits. */
  lemma NothingOverflows(fees: FeeSchedule, log: seq<Command>, i: nat)
    requires fees.Bounded() && LogFits(log) && i <= |log|
    ensures var e := Run(Initial(fees), log[..i]);
            && StateFits(e)
            && (i < |log| ==> (CommandComputed(e, log[i]) <==> QuoteFits(e, log[i])))
  {
    hide CommandFits, Inv, BooksAdmitted, SupplyFits, StateFits, Roomy, CommandComputed, QuoteFits;
    var e := Run(Initial(fees), log[..i]);
    PrefixFits(log, i);
    RunIsRoomy(fees, log[..i]);
    IdsAreFew(fees, log[..i]);
    RoomyStateFits(e);
    if i < |log| {
      assert CommandFits(log[i]);
      CommandIsComputed(e, log[i]);
    }
  }
}
