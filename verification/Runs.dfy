/**
 * What holds over every run of the engine: solvency, exact locks, uncrossed books, bounded rounding slack,
 * and conservation of every currency.
 */
module Runs {
  import opened Types
  import opened Fees
  import opened Matching
  import opened Queues
  import opened Books
  import opened Ledger
  import opened Engine
  import opened Claims
  import opened Solvency

  // ----- Cancelling -----

  /** The market a cancel request takes effect in. */
  function CancelMarket(e: Engine, user: UserId, id: OrderId): Option<Asset> {
    if Cancel(e.sol, id, user).Ok? then Some(Sol)
    else if Cancel(e.btc, id, user).Ok? then Some(Btc)
    else if Cancel(e.eth, id, user).Ok? then Some(Eth)
    else None
  }

  lemma CancelTakesEffect(e: Engine, user: UserId, id: OrderId)
    ensures match CancelMarket(e, user, id)
            case None =>
              HandleCancel(e, user, id).state == e && HandleCancel(e, user, id).events == []
            case Some(a) =>
              && Cancel(e.BookOf(a), id, user).Ok?
              && HandleCancel(e, user, id) == CancelIn(e, a, Cancel(e.BookOf(a), id, user).value)
  {
  }

  lemma CancelClaims(fees: FeeSchedule, asset: Asset, b: Book, id: OrderId, user: UserId, k: Account)
    requires WellFormed(b) && Cancel(b, id, user).Ok?
    ensures var removal := Cancel(b, id, user).value;
            BookClaims(fees, asset, removal.book, k) ==
            BookClaims(fees, asset, b, k) - Claim(fees, asset, removal.order, k)
  {
    LookupIsSound(b, id);
    var o := b.Lookup(id).value;
    ClaimsRemove(fees, asset, b.SideOf(o.side), id, k);
  }

  lemma CancelShape(e: Engine, a: Asset, removal: Removal)
    ensures var after := CancelIn(e, a, removal).state;
            var o := removal.order;
            && after.accounts == Adjust(e.accounts, Funding(o.user, o.side, a), CancelRefund(e.fees, o),
                                        0 - CancelRefund(e.fees, o))
            && after.nextId == e.nextId && after.fees == e.fees
            && (forall m: Asset :: after.BookOf(m) == if m == a then removal.book else e.BookOf(m))
  {
  }

  /** Cancelling moves the order's claim from locked to available, in its owner's account only. */
  lemma CancelMoves(e: Engine, a: Asset, removal: Removal, k: Account)
    ensures var after := CancelIn(e, a, removal).state;
            && Get(after.accounts, k).locked == Get(e.accounts, k).locked - Claim(e.fees, a, removal.order, k)
            && Get(after.accounts, k).available == Get(e.accounts, k).available + Claim(e.fees, a, removal.order, k)
  {
    CancelShape(e, a, removal);
  }

  /** Cancelling returns exactly what the order claims: the slack of every account is untouched. */
  lemma CancelKeepsSlack(e: Engine, a: Asset, id: OrderId, user: UserId, k: Account)
    requires BooksSound(e) && Cancel(e.BookOf(a), id, user).Ok?
    ensures Slack(CancelIn(e, a, Cancel(e.BookOf(a), id, user).value).state, k) == Slack(e, k)
  {
    var removal := Cancel(e.BookOf(a), id, user).value;
    var after := CancelIn(e, a, removal).state;
    CancelMoves(e, a, removal, k);
    CancelClaims(e.fees, a, e.BookOf(a), id, user, k);
    assert TotalClaims(after, k) == TotalClaims(e.WithBook(a, removal.book), k) by {
      CancelShape(e, a, removal);
    }
    ClaimsWithBook(e, a, removal.book, k);
  }

  lemma CancelKeepsIds(e: Engine, a: Asset, id: OrderId, user: UserId)
    requires BooksSound(e) && IdsApart(e) && Cancel(e.BookOf(a), id, user).Ok?
    ensures var after := CancelIn(e, a, Cancel(e.BookOf(a), id, user).value).state;
            BooksSound(after) && IdsApart(after)
  {
    hide WellFormed, CancelIn, Book.Lookup, Remove;
    var after := CancelIn(e, a, Cancel(e.BookOf(a), id, user).value).state;
    CancellingKeepsWellFormed(e.BookOf(a), id, user);
    CancelShape(e, a, Cancel(e.BookOf(a), id, user).value);
    forall m: Asset ensures WellFormed(after.BookOf(m)) && after.BookOf(m).nextId <= after.nextId {
      assert WellFormed(e.BookOf(m)) && e.BookOf(m).nextId <= e.nextId;
    }
    forall m: Asset, n: Asset, i | m != n && after.BookOf(m).Has(i) ensures !after.BookOf(n).Has(i) {
      CancelLookup(e.BookOf(a), id, user, i);
      assert e.BookOf(m).Has(i);
      assert !e.BookOf(n).Has(i);
    }
  }

  lemma CancelKeepsInv(e: Engine, a: Asset, id: OrderId, user: UserId)
    requires Inv(e) && Cancel(e.BookOf(a), id, user).Ok?
    ensures Inv(CancelIn(e, a, Cancel(e.BookOf(a), id, user).value).state)
  {
    CancelKeepsIds(e, a, id, user);
    forall k: Account ensures AccountSolvent(CancelIn(e, a, Cancel(e.BookOf(a), id, user).value).state, k) {
      assert AccountSolvent(e, k);
      CancelKeepsAccountSolvent(e, a, id, user, k);
    }
  }

  lemma CancelKeepsAccountSolvent(e: Engine, a: Asset, id: OrderId, user: UserId, k: Account)
    requires BooksSound(e) && AccountSolvent(e, k) && Cancel(e.BookOf(a), id, user).Ok?
    ensures AccountSolvent(CancelIn(e, a, Cancel(e.BookOf(a), id, user).value).state, k)
  {
    CancelKeepsSlack(e, a, id, user, k);
    CancelMoves(e, a, Cancel(e.BookOf(a), id, user).value, k);
  }

  // ----- The invariant over runs -----

  lemma InitialInv(fees: FeeSchedule)
    ensures Inv(Initial(fees))
  {
  }

  /** Only the accounts differ, and no account has less available or a different locked amount. */
  ghost predicate OnlyAdds(e: Engine, after: Engine) {
    && after == e.(accounts := after.accounts)
    && forall k: Account :: Get(after.accounts, k).locked == Get(e.accounts, k).locked &&
                            Get(after.accounts, k).available >= Get(e.accounts, k).available
  }

  lemma AddingKeepsInv(e: Engine, after: Engine)
    requires Inv(e) && OnlyAdds(e, after)
    ensures Inv(after)
    ensures forall k: Account :: Slack(after, k) == Slack(e, k)
  {
    forall k: Account ensures AccountSolvent(after, k) && Slack(after, k) == Slack(e, k) {
      assert AccountSolvent(e, k);
    }
    forall a: Asset ensures after.BookOf(a) == e.BookOf(a) {
    }
  }

  /** The settlement a command leads to, if it is an accepted order. */
  function SettlementIn(e: Engine, c: Command): Option<Settlement> {
    if c.PlaceOrder? then SettlementOf(e, c.msg) else None
  }

  function CancelledIn(e: Engine, c: Command): Option<Asset> {
    if c.CancelOrder? then CancelMarket(e, c.user, c.orderId) else None
  }

  /** Every command is a reset, a settlement, an effective cancel, or only adds to available balances. */
  lemma CommandEffect(e: Engine, c: Command)
    requires BooksSound(e)
    ensures var step := Dispatch(e, c);
            && (SettlementIn(e, c).Some? ==> Settles(e, SettlementIn(e, c).value, step))
            && (CancelledIn(e, c).Some? ==>
                  var a := CancelledIn(e, c).value;
                  Cancel(e.BookOf(a), c.orderId, c.user).Ok? &&
                  step == CancelIn(e, a, Cancel(e.BookOf(a), c.orderId, c.user).value))
            && (SettlementIn(e, c).None? && CancelledIn(e, c).None? && !c.Reset? ==> OnlyAdds(e, step.state))
  {
    match c
    case PlaceOrder(m) => OrderIsSettlement(e, m);
    case CancelOrder(user, id) => CancelTakesEffect(e, user, id);
    case _ =>
  }

  lemma CommandKeepsInv(e: Engine, c: Command)
    requires Inv(e)
    ensures Inv(Dispatch(e, c).state)
  {
    CommandEffect(e, c);
    if c.Reset? {
      InitialInv(e.fees);
    } else if SettlementIn(e, c).Some? {
      SettlementKeepsBooks(e, SettlementIn(e, c).value);
      SettlementKeepsIds(e, SettlementIn(e, c).value);
      SettlementKeepsSolvent(e, SettlementIn(e, c).value);
    } else if CancelledIn(e, c).Some? {
      CancelKeepsInv(e, CancelledIn(e, c).value, c.orderId, c.user);
    } else {
      AddingKeepsInv(e, Dispatch(e, c).state);
    }
  }

  lemma SoundBooks(e: Engine)
    requires Inv(e)
    ensures BooksSound(e)
  {
  }

  /** An accepted order's command applies its settlement. */
  lemma SettledState(e: Engine, c: Command)
    requires Inv(e) && c.PlaceOrder? && SettlementOf(e, c.msg).Some?
    ensures var s := SettlementOf(e, c.msg).value;
            && Balanced(e, s) && Dispatch(e, c).state == s.Apply(e) && Inv(s.Apply(e))
  {
    hide Inv, Balanced, SettlementOf, Settlement.Apply;
    assert BooksSound(e) by { SoundBooks(e); }
    OrderIsSettlement(e, c.msg);
    CommandKeepsInv(e, c);
  }

  lemma {:induction false} RunKeepsInv(e: Engine, log: seq<Command>)
    requires Inv(e)
    ensures Inv(Run(e, log))
    decreases |log|
  {
    if log != [] {
      RunKeepsInv(e, log[..|log| - 1]);
      CommandKeepsInv(Run(e, log[..|log| - 1]), log[|log| - 1]);
    }
  }

  lemma OrderKeepsFees(e: Engine, m: OrderMsg)
    ensures HandleOrder(e, m).state.fees == e.fees
  {
    hide PlaceLimit, ExecuteMarket, Consume, ApplyTrades, Adjust, Get, TradeEvents, DepthEvent, WorstPrice,
      LimitRefund, LimitLock, FilledQty, FilledCost, BuyerSpent, TradedQty;
  }

  lemma CommandKeepsFees(e: Engine, c: Command)
    ensures Dispatch(e, c).state.fees == e.fees
  {
    hide HandleOrder, Cancel, Adjust, DepthEvent;
    if c.PlaceOrder? {
      OrderKeepsFees(e, c.msg);
    }
  }

  lemma {:induction false} RunKeepsFees(e: Engine, log: seq<Command>)
    ensures Run(e, log).fees == e.fees
    decreases |log|
  {
    if log != [] {
      RunKeepsFees(e, log[..|log| - 1]);
      CommandKeepsFees(Run(e, log[..|log| - 1]), log[|log| - 1]);
    }
  }

  /** Solvency of every reachable state, stated account by account. */
  lemma ReachableStatesAreSolvent(fees: FeeSchedule, log: seq<Command>, user: UserId, asset: Asset)
    ensures var e := Run(Initial(fees), log);
            && Get(e.accounts, Account(user, Base(asset))).locked == TotalClaims(e, Account(user, Base(asset)))
            && Get(e.accounts, Account(user, Usd)).locked >= TotalClaims(e, Account(user, Usd))
            && Get(e.accounts, Account(user, Base(asset))).available >= 0
            && Get(e.accounts, Account(user, Usd)).available >= 0
  {
    InitialInv(fees);
    RunKeepsInv(Initial(fees), log);
    assert AccountSolvent(Run(Initial(fees), log), Account(user, Base(asset)));
    assert AccountSolvent(Run(Initial(fees), log), Account(user, Usd));
  }

  /** In no reachable state does the best bid meet the best ask. */
  lemma BooksAreNeverCrossed(fees: FeeSchedule, log: seq<Command>, asset: Asset)
    ensures var b := Run(Initial(fees), log).BookOf(asset);
            b.Best(Bid).Some? && b.Best(Ask).Some? ==> b.Best(Bid).value < b.Best(Ask).value
  {
    InitialInv(fees);
    RunKeepsInv(Initial(fees), log);
    var b := Run(Initial(fees), log).BookOf(asset);
    assert WellFormed(b);
    assert b.bids != [] ==> b.bids[0] in b.bids;
    assert b.asks != [] ==> b.asks[0] in b.asks;
  }

  // ----- No ledger subtraction underflows, even in the middle of a batch -----

  /** Each account's locked part covers all the debits of the trades still to be applied. */
  ghost predicate Covers(a: Accounts, fees: FeeSchedule, asset: Asset, pending: seq<Trade>) {
    forall k: Account :: Get(a, k).locked >= Debits(fees, asset, pending, k)
  }

  lemma LockedFundsCoverTheBatch(e: Engine, s: Settlement)
    requires Inv(e) && Balanced(e, s)
    ensures Covers(Adjust(e.accounts, s.Payer(), -s.lock, s.lock), e.fees, s.asset, s.x.trades)
  {
    hide BooksSound, IdsApart, Debits, BookClaims, TotalClaims, IsExecution, WellFormed;
    forall k: Account
      ensures Get(Adjust(e.accounts, s.Payer(), -s.lock, s.lock), k).locked >=
              Debits(e.fees, s.asset, s.x.trades, k)
    {
      assert AccountSolvent(e, k);
      SettlementDebits(e, s, k);
      ExecutionClaims(e, s, k);
      MarketWithinTotal(e, s.asset, k);
    }
  }

  lemma MarketWithinTotal(e: Engine, asset: Asset, k: Account)
    ensures BookClaims(e.fees, asset, e.BookOf(asset), k) <= TotalClaims(e, k)
  {
  }

  /** Applying the next trade of a covered batch takes nothing below zero and leaves the rest covered. */
  lemma BatchStaysCovered(a: Accounts, fees: FeeSchedule, asset: Asset, pending: seq<Trade>)
    requires pending != [] && Covers(a, fees, asset, pending)
    ensures var t := pending[0];
            && Get(a, Account(t.buyer, Usd)).locked >= BuyerPays(fees, t)
            && Get(a, Account(t.seller, Base(asset))).locked >= t.qty
            && Covers(ApplyFill(a, fees, asset, t), fees, asset, pending[1..])
  {
    var t := pending[0];
    assert Get(a, Account(t.buyer, Usd)).locked >= Debits(fees, asset, pending, Account(t.buyer, Usd));
    assert Get(a, Account(t.seller, Base(asset))).locked >=
           Debits(fees, asset, pending, Account(t.seller, Base(asset)));
    forall k: Account
      ensures Get(ApplyFill(a, fees, asset, t), k).locked >= Debits(fees, asset, pending[1..], k)
    {
      assert Get(a, k).locked >= Debits(fees, asset, pending, k);
      FillEffect(a, fees, asset, t, k);
    }
  }

  /** After the last trade the payer's locked part still covers the refund. */
  lemma RefundIsCovered(e: Engine, s: Settlement)
    requires Inv(e) && Balanced(e, s)
    ensures var settled := ApplyTrades(Adjust(e.accounts, s.Payer(), -s.lock, s.lock), e.fees, s.asset, s.x.trades);
            Get(settled, s.Payer()).locked >= s.refund
  {
    SettlementKeepsSolvent(e, s);
    assert AccountSolvent(s.Apply(e), s.Payer());
    SettleAccounts(e, s);
  }

  lemma CancelRefundIsCovered(e: Engine, a: Asset, id: OrderId, user: UserId)
    requires Inv(e) && Cancel(e.BookOf(a), id, user).Ok?
    ensures var o := Cancel(e.BookOf(a), id, user).value.order;
            Get(e.accounts, Funding(o.user, o.side, a)).locked >= CancelRefund(e.fees, o)
  {
    var o := Cancel(e.BookOf(a), id, user).value.order;
    CancelKeepsInv(e, a, id, user);
    assert AccountSolvent(CancelIn(e, a, Cancel(e.BookOf(a), id, user).value).state, Funding(o.user, o.side, a));
  }

  // ----- Rounding slack -----

  /** The partial fills that a command's execution deals to the account's bids. */
  function PartialFillsIn(e: Engine, c: Command, k: Account): nat {
    match SettlementIn(e, c)
    case None => 0
    case Some(s) => PartialBidFills(s.asset, s.Fills(e), k)
  }

  function PartialFillsOver(e: Engine, log: seq<Command>, k: Account): nat {
    if log == [] then 0 else
      PartialFillsOver(e, log[..|log| - 1], k) + PartialFillsIn(Run(e, log[..|log| - 1]), log[|log| - 1], k)
  }

  lemma CommandSlack(e: Engine, c: Command, k: Account)
    requires Inv(e) && !c.Reset?
    ensures var grown := Slack(Dispatch(e, c).state, k) - Slack(e, k);
            0 <= grown <= if e.fees.MakerFeesRound() then PartialFillsIn(e, c, k) else 0
  {
    CommandEffect(e, c);
    var after := Dispatch(e, c).state;
    if SettlementIn(e, c).Some? {
      assert after == SettlementIn(e, c).value.Apply(e);
      SettlementSlack(e, SettlementIn(e, c).value, k);
    } else if CancelledIn(e, c).Some? {
      CancelKeepsSlack(e, CancelledIn(e, c).value, c.orderId, c.user, k);
    } else {
      AddingKeepsInv(e, after);
    }
  }

  /** Slack never shrinks, never exceeds the partial fills dealt to one's bids, and stays put if fees never round. */
  lemma {:induction false} SlackIsBounded(e: Engine, log: seq<Command>, k: Account)
    requires Inv(e) && ResetFree(log)
    ensures var grown := Slack(Run(e, log), k) - Slack(e, k);
            0 <= grown <= if e.fees.MakerFeesRound() then PartialFillsOver(e, log, k) else 0
    decreases |log|
  {
    if log != [] {
      var before := log[..|log| - 1];
      SlackIsBounded(e, before, k);
      RunKeepsInv(e, before);
      RunKeepsFees(e, before);
      CommandSlack(Run(e, before), log[|log| - 1], k);
    }
  }

  /** From an empty exchange: locked USD is what the bids need plus at most one unit per partial fill of them. */
  lemma LockedUsdIsTight(fees: FeeSchedule, log: seq<Command>, user: UserId)
    requires ResetFree(log)
    ensures var e := Run(Initial(fees), log);
            var k := Account(user, Usd);
            && TotalClaims(e, k) <= Get(e.accounts, k).locked
            && Get(e.accounts, k).locked <= TotalClaims(e, k) + PartialFillsOver(Initial(fees), log, k)
            && (!fees.MakerFeesRound() ==> Get(e.accounts, k).locked == TotalClaims(e, k))
  {
    InitialInv(fees);
    SlackIsBounded(Initial(fees), log, Account(user, Usd));
  }

  // ----- Conservation -----

  /** What a command brings in from outside. */
  function Funded(c: Command, cur: Currency): nat {
    match c
    case Onramp(_, qty) => if cur == Usd then qty else 0
    case Deposit(_, asset, qty) => if cur == Base(asset) then qty else 0
    case _ => 0
  }

  function FundedOver(log: seq<Command>, cur: Currency): nat {
    if log == [] then 0 else FundedOver(log[..|log| - 1], cur) + Funded(log[|log| - 1], cur)
  }

  /** What the trades of a command create: seller fees beyond the value of their trade. */
  function CreatedIn(e: Engine, c: Command): nat {
    match SettlementIn(e, c)
    case None => 0
    case Some(s) => CreatedBy(e.fees, s.x.trades)
  }

  function CreatedOver(e: Engine, log: seq<Command>): nat {
    if log == [] then 0 else
      CreatedOver(e, log[..|log| - 1]) + CreatedIn(Run(e, log[..|log| - 1]), log[|log| - 1])
  }

  lemma SettlementSupply(e: Engine, s: Settlement, cur: Currency)
    ensures Supply(s.Apply(e).accounts, cur) ==
            Supply(e.accounts, cur) + if cur == Usd then CreatedBy(e.fees, s.x.trades) else 0
  {
    hide Supply, ApplyTrades, Adjust, Settle, CreatedBy;
    var locked := Adjust(e.accounts, s.Payer(), -s.lock, s.lock);
    var settled := ApplyTrades(locked, e.fees, s.asset, s.x.trades);
    AdjustSupply(e.accounts, s.Payer(), -s.lock, s.lock, cur);
    TradesSupply(locked, e.fees, s.asset, s.x.trades, cur);
    AdjustSupply(settled, s.Payer(), s.refund, -s.refund, cur);
    SettleAccounts(e, s);
  }

  lemma OrderSupply(e: Engine, m: OrderMsg, cur: Currency)
    requires BooksSound(e)
    ensures Supply(HandleOrder(e, m).state.accounts, cur) ==
            Supply(e.accounts, cur) + if cur == Usd then CreatedIn(e, PlaceOrder(m)) else 0
  {
    hide Supply, HandleOrder, SettlementOf, Balanced, Settlement.Apply;
    OrderIsSettlement(e, m);
    match SettlementOf(e, m)
    case Some(s) => SettlementSupply(e, s, cur);
    case None =>
      var after := HandleOrder(e, m).state;
      if after != e {
        var k :| after == e.(accounts := Adjust(e.accounts, k, 0, 0));
        AdjustSupply(e.accounts, k, 0, 0, cur);
      }
  }

  lemma CancelKeepsSupply(e: Engine, user: UserId, id: OrderId, cur: Currency)
    ensures Supply(HandleCancel(e, user, id).state.accounts, cur) == Supply(e.accounts, cur)
  {
    CancelTakesEffect(e, user, id);
    if CancelMarket(e, user, id).Some? {
      var a := CancelMarket(e, user, id).value;
      var o := Cancel(e.BookOf(a), id, user).value.order;
      var refund: int := CancelRefund(e.fees, o);
      AdjustSupply(e.accounts, Funding(o.user, o.side, a), refund, 0 - refund, cur);
    }
  }

  lemma CommandSupply(e: Engine, c: Command, cur: Currency)
    requires BooksSound(e) && !c.Reset?
    ensures Supply(Dispatch(e, c).state.accounts, cur) ==
            Supply(e.accounts, cur) + Funded(c, cur) + if cur == Usd then CreatedIn(e, c) else 0
  {
    hide Supply, HandleOrder, HandleCancel, SettlementOf;
    match c
    case Signup(user) => AdjustSupply(e.accounts, Account(user, Usd), 0, 0, cur);
    case Onramp(user, qty) => AdjustSupply(e.accounts, Account(user, Usd), qty, 0, cur);
    case Deposit(user, asset, qty) => AdjustSupply(e.accounts, Account(user, Base(asset)), qty, 0, cur);
    case PlaceOrder(m) => OrderSupply(e, m, cur);
    case CancelOrder(user, id) => CancelKeepsSupply(e, user, id, cur);
    case Query =>
  }

  /**
   * The supply of a base asset is exactly what was deposited; that of USD is exactly what was onramped plus
   * the seller fees that exceeded their trade's value, which the saturating subtraction turns into new money.
   */
  lemma {:induction false} SupplyIsAccountedFor(fees: FeeSchedule, log: seq<Command>, cur: Currency)
    requires ResetFree(log)
    ensures Supply(Run(Initial(fees), log).accounts, cur) ==
            FundedOver(log, cur) + if cur == Usd then CreatedOver(Initial(fees), log) else 0
    decreases |log|
  {
    if log != [] {
      var before := log[..|log| - 1];
      SupplyIsAccountedFor(fees, before, cur);
      InitialInv(fees);
      RunKeepsInv(Initial(fees), before);
      CommandSupply(Run(Initial(fees), before), log[|log| - 1], cur);
    }
  }

  lemma {:induction false} BoundedFeesCreateNothingOver(fees: FeeSchedule, log: seq<Command>)
    requires fees.Bounded()
    ensures CreatedOver(Initial(fees), log) == 0
    decreases |log|
  {
    if log != [] {
      var before := log[..|log| - 1];
      BoundedFeesCreateNothingOver(fees, before);
      RunKeepsFees(Initial(fees), before);
      var e := Run(Initial(fees), before);
      match SettlementIn(e, log[|log| - 1])
      case None =>
      case Some(s) => BoundedTradesCreateNothing(e.fees, s.x.trades);
    }
  }

  /** With fee rates up to 100%, the supply of every currency is exactly what was onramped or deposited. */
  lemma SupplyIsConserved(fees: FeeSchedule, log: seq<Command>, cur: Currency)
    requires fees.Bounded() && ResetFree(log)
    ensures Supply(Run(Initial(fees), log).accounts, cur) == FundedOver(log, cur)
  {
    SupplyIsAccountedFor(fees, log, cur);
    BoundedFeesCreateNothingOver(fees, log);
  }
}
