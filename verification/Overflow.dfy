/**
 * Why 64 bits are enough: if the supply of every currency fits an unsigned 64-bit integer, and so does every
 * limit order's cost on the fee scale, then every balance, product and running sum of the engine fits.
 */
module Overflow {
  import opened Types
  import opened Fees
  import opened Matching
  import opened Books
  import opened Ledger
  import opened Engine
  import opened Claims
  import opened Solvency
  import opened Resting
  import opened Runs
  import opened Depths

  const U64_MAX: nat := 0xFFFF_FFFF_FFFF_FFFF

  predicate Fits(n: int) {
    0 <= n <= U64_MAX
  }

  /** Small enough to be multiplied by any fee rate up to 100%. */
  predicate Admissible(amount: nat) {
    Fits(amount * BPS_SCALE)
  }

  // ----- Balances are within the supply -----

  ghost predicate NonNegative(a: Accounts) {
    forall k: Account :: Get(a, k).available >= 0 && Get(a, k).locked >= 0
  }

  lemma {:induction false} WorthIsNonNegative(a: Accounts, keys: set<Account>, c: Currency)
    requires NonNegative(a)
    ensures WorthOf(a, keys, c) >= 0
    decreases |keys|
  {
    if keys != {} {
      var k :| k in keys;
      WorthWithout(a, keys, k, c);
      WorthIsNonNegative(a, keys - {k}, c);
      assert Get(a, k).available >= 0;
    }
  }

  lemma BalanceWithinSupply(a: Accounts, k: Account)
    requires NonNegative(a)
    ensures Get(a, k).available + Get(a, k).locked <= Supply(a, k.currency)
  {
    if k in a {
      WorthWithout(a, a.Keys, k, k.currency);
      WorthIsNonNegative(a, a.Keys - {k}, k.currency);
    } else {
      WorthIsNonNegative(a, a.Keys, k.currency);
    }
  }

  lemma {:induction false} ClaimsAreNonNegative(e: Engine)
    requires Solvent(e)
    ensures NonNegative(e.accounts)
  {
    forall k: Account ensures Get(e.accounts, k).available >= 0 && Get(e.accounts, k).locked >= 0 {
      assert AccountSolvent(e, k);
    }
  }

  ghost predicate SupplyFits(a: Accounts) {
    forall c: Currency :: Fits(Supply(a, c))
  }

  lemma BalancesFit(a: Accounts, k: Account)
    requires NonNegative(a) && SupplyFits(a)
    ensures Fits(Get(a, k).available) && Fits(Get(a, k).locked)
  {
    BalanceWithinSupply(a, k);
    assert Fits(Supply(a, k.currency));
    assert Get(a, k).available >= 0 && Get(a, k).locked >= 0;
  }

  /** No currency's supply ever exceeds what was brought in from outside; a reset only takes away. */
  lemma {:induction false} SupplyWithinFunding(fees: FeeSchedule, log: seq<Command>, cur: Currency)
    requires fees.Bounded()
    ensures 0 <= Supply(Run(Initial(fees), log).accounts, cur) <= FundedOver(log, cur)
    decreases |log|
  {
    hide Supply, Dispatch, Inv, CreatedIn, FeeSchedule.Bounded;
    InitialInv(fees);
    RunKeepsInv(Initial(fees), log);
    RunIsWorthSomething(Run(Initial(fees), log), cur);
    if log == [] {
      EmptySupply(cur);
    } else {
      var before, c := log[..|log| - 1], log[|log| - 1];
      var e := Run(Initial(fees), before);
      SupplyWithinFunding(fees, before, cur);
      RunKeepsInv(Initial(fees), before);
      RunKeepsFees(Initial(fees), before);
      StepWithinFunding(e, c, cur);
    }
  }

  lemma RunIsWorthSomething(e: Engine, cur: Currency)
    requires Inv(e)
    ensures Supply(e.accounts, cur) >= 0
  {
    ClaimsAreNonNegative(e);
    WorthIsNonNegative(e.accounts, e.accounts.Keys, cur);
  }

  lemma EmptySupply(cur: Currency)
    ensures Supply(map[], cur) == 0
  {
  }

  lemma StepWithinFunding(e: Engine, c: Command, cur: Currency)
    requires Inv(e) && e.fees.Bounded()
    ensures !c.Reset? ==> Supply(Dispatch(e, c).state.accounts, cur) == Supply(e.accounts, cur) + Funded(c, cur)
    ensures c.Reset? ==> Supply(Dispatch(e, c).state.accounts, cur) == 0
  {
    hide Supply, HandleOrder, HandleCancel, SettlementOf, FeeSchedule.Bounded;
    if c.Reset? {
      EmptySupply(cur);
    } else {
      CommandSupply(e, c, cur);
      if SettlementIn(e, c).Some? {
        BoundedTradesCreateNothing(e.fees, SettlementIn(e, c).value.x.trades);
      }
    }
  }

  /** If what was brought in from outside fits, so does every balance in every reachable state. */
  lemma ReachableBalancesFit(fees: FeeSchedule, log: seq<Command>, k: Account)
    requires fees.Bounded()
    requires Fits(FundedOver(log, k.currency))
    ensures var b := Get(Run(Initial(fees), log).accounts, k); Fits(b.available) && Fits(b.locked)
  {
    InitialInv(fees);
    RunKeepsInv(Initial(fees), log);
    var e := Run(Initial(fees), log);
    ClaimsAreNonNegative(e);
    BalanceWithinSupply(e.accounts, k);
    SupplyWithinFunding(fees, log, k.currency);
    assert Get(e.accounts, k).available >= 0 && Get(e.accounts, k).locked >= 0;
  }

  // ----- Balances in the middle of a batch -----

  /** The accounts when the first n trades of a settlement are applied. */
  function AccountsAfter(e: Engine, s: Settlement, n: nat): Accounts
    requires n <= |s.x.trades|
  {
    ApplyTrades(Adjust(e.accounts, s.Payer(), -s.lock, s.lock), e.fees, s.asset, s.x.trades[..n])
  }

  lemma {:induction false} DebitsOfPrefix(fees: FeeSchedule, asset: Asset, trades: seq<Trade>, n: nat, k: Account)
    requires n <= |trades|
    ensures Debits(fees, asset, trades[..n], k) <= Debits(fees, asset, trades, k)
    decreases n
  {
    if n > 0 {
      assert trades[..n][1..] == trades[1..][..n - 1];
      DebitsOfPrefix(fees, asset, trades[1..], n - 1, k);
    }
  }

  lemma BatchIsNonNegative(e: Engine, s: Settlement, n: nat, k: Account)
    requires Inv(e) && Balanced(e, s) && n <= |s.x.trades|
    ensures Get(AccountsAfter(e, s, n), k).available >= 0 && Get(AccountsAfter(e, s, n), k).locked >= 0
  {
    hide ApplyTrades, Debits, Credits, BooksSound, IdsApart, IsExecution, WellFormed, TakerDebits, Kept;
    var locked := Adjust(e.accounts, s.Payer(), -s.lock, s.lock);
    assert AccountSolvent(e, k);
    LockedFundsCoverTheBatch(e, s);
    assert Get(locked, k).locked >= Debits(e.fees, s.asset, s.x.trades, k);
    TradesEffect(locked, e.fees, s.asset, s.x.trades[..n], k);
    DebitsOfPrefix(e.fees, s.asset, s.x.trades, n, k);
  }

  lemma BatchKeepsSupply(e: Engine, s: Settlement, n: nat, c: Currency)
    requires e.fees.Bounded() && n <= |s.x.trades|
    ensures Supply(AccountsAfter(e, s, n), c) == Supply(e.accounts, c)
  {
    hide ApplyTrades, Supply, Adjust, FeeSchedule.Bounded;
    AdjustSupply(e.accounts, s.Payer(), -s.lock, s.lock, c);
    TradesSupply(Adjust(e.accounts, s.Payer(), -s.lock, s.lock), e.fees, s.asset, s.x.trades[..n], c);
    BoundedTradesCreateNothing(e.fees, s.x.trades[..n]);
  }

  /** No balance leaves 64 bits at any point of a settlement, although the book is already ahead of the ledger. */
  lemma BalancesFitDuringSettlement(e: Engine, s: Settlement, n: nat, k: Account)
    requires Inv(e) && Balanced(e, s) && e.fees.Bounded() && SupplyFits(e.accounts) && n <= |s.x.trades|
    ensures Fits(Get(AccountsAfter(e, s, n), k).available) && Fits(Get(AccountsAfter(e, s, n), k).locked)
  {
    hide AccountsAfter, Supply, Inv, Balanced, FeeSchedule.Bounded;
    var a := AccountsAfter(e, s, n);
    forall x: Account ensures Get(a, x).available >= 0 && Get(a, x).locked >= 0 {
      BatchIsNonNegative(e, s, n, x);
    }
    forall c: Currency ensures Fits(Supply(a, c)) {
      assert Fits(Supply(e.accounts, c));
      BatchKeepsSupply(e, s, n, c);
    }
    BalancesFit(a, k);
  }

  // ----- Products and sums of single amounts -----

  /** Everything that is ever computed from an amount: its fee products, its fees, and its sums with them. */
  predicate FeesFit(fees: FeeSchedule, amount: nat) {
    && Fits(amount) && Fits(amount * fees.makerBps) && Fits(amount * fees.takerBps)
    && Fits(amount * fees.ReserveBps())
    && Fits(amount + fees.MakerFee(amount)) && Fits(amount + fees.TakerFee(amount))
    && Fits(amount + Fee(fees.ReserveBps(), amount))
    && Fits(fees.MakerFee(amount) + fees.TakerFee(amount))
  }

  lemma AdmissibleAmountFits(fees: FeeSchedule, amount: nat)
    requires fees.Bounded() && Admissible(amount)
    ensures FeesFit(fees, amount)
  {
    ProductMonotone(amount, amount, fees.makerBps, BPS_SCALE);
    ProductMonotone(amount, amount, fees.takerBps, BPS_SCALE);
    ProductMonotone(amount, amount, fees.ReserveBps(), BPS_SCALE);
    FeeBelowAmount(fees.makerBps, amount);
    FeeBelowAmount(fees.takerBps, amount);
    FeeBelowAmount(fees.ReserveBps(), amount);
  }

  lemma SmallerIsAdmissible(x: nat, y: nat)
    requires x <= y && Admissible(y)
    ensures Admissible(x)
  {
  }

  // ----- Admitted books -----

  /** Priced, and of admissible cost. */
  function Admitted(): Property {
    (o: Order) => o.price > 0 && Admissible(Cost(o.price, o.remaining))
  }

  ghost predicate BooksAdmitted(e: Engine) {
    RestingHave(Admitted(), e)
  }

  /** The assumed bound on a request: a limit order's cost is admissible. */
  predicate RequestFits(m: OrderMsg) {
    m.kind.Limit? && m.price > 0 && m.qty > 0 ==> Admissible(Cost(m.price, m.qty))
  }

  predicate CommandFits(c: Command) {
    c.PlaceOrder? ==> RequestFits(c.msg)
  }

  lemma CostMonotone(price: Price, x: Quantity, y: Quantity)
    requires x <= y
    ensures Cost(price, x) <= Cost(price, y)
  {
    ProductMonotone(price, price, x, y);
  }

  lemma LessCostIsAdmissible(price: Price, qty: Quantity, remaining: Quantity)
    requires Admissible(Cost(price, remaining)) && qty <= remaining
    ensures Admissible(Cost(price, qty))
  {
    CostMonotone(price, qty, remaining);
    SmallerIsAdmissible(Cost(price, qty), Cost(price, remaining));
  }

  lemma FillsKeepOrdersAdmitted()
    ensures SurvivesFills(Admitted())
  {
    forall o: Order, qty: Quantity | Admitted()(o) && qty <= o.remaining ensures Admitted()(o.(remaining := qty)) {
      LessCostIsAdmissible(o.price, qty, o.remaining);
    }
  }

  /** If every request fits, every order that ever rests does. */
  lemma RunKeepsAdmitted(fees: FeeSchedule, log: seq<Command>)
    requires forall i :: 0 <= i < |log| ==> CommandFits(log[i])
    ensures BooksAdmitted(Run(Initial(fees), log))
  {
    FillsKeepOrdersAdmitted();
    forall i | 0 <= i < |log| ensures PlacesOnly(Admitted(), log[i]) {
      assert CommandFits(log[i]);
    }
    RunKeepsProperty(Admitted(), fees, log);
  }

  // ----- Settling fits -----

  /** The value of each fill is at most its maker's admitted cost, so all that is computed for a trade fits. */
  lemma TradeArithmeticFits(e: Engine, s: Settlement, i: nat)
    requires BooksSound(e) && BooksAdmitted(e) && e.fees.Bounded()
    ensures Balanced(e, s) && i < |s.x.trades| ==>
              var t := s.x.trades[i];
              && FeesFit(e.fees, t.Value())
              && Fits(BuyerPays(e.fees, t)) && Fits(TotalFee(e.fees, t))
              && FeesOf(e.fees, t).seller <= t.Value()
  {
    if Balanced(e, s) && i < |s.x.trades| {
      var b := e.BookOf(s.asset);
      var q := b.SideOf(s.side.Opposite());
      assert WellFormed(b) && AllHave(Admitted(), q);
      ConsumeIsPriceTime(s.side.Opposite(), q, s.limit, s.matched);
      TradeAt(e.nextId, s.user, s.side, s.Fills(e), i);
      var f := s.Fills(e)[i];
      assert FillsInTurn(q, s.limit, s.Fills(e), i);
      assert q[i] in q;
      assert Admitted()(q[i]);
      LessCostIsAdmissible(q[i].price, f.qty, q[i].remaining);
      AdmissibleAmountFits(e.fees, s.x.trades[i].Value());
      BoundedFeesCreateNothing(e.fees, s.x.trades[i]);
    }
  }

  /** What every limit order computes before its side, its funds or the book matter: cost, reserve and lock fit. */
  lemma LimitRequestArithmeticFits(fees: FeeSchedule, m: OrderMsg)
    requires fees.Bounded() && RequestFits(m) && m.kind.Limit? && m.price > 0 && m.qty > 0
    ensures var cost := Cost(m.price, m.qty);
            && Fits(m.qty) && FeesFit(fees, cost)
            && Fits(LimitLock(fees, Bid, m.price, m.qty)) && Fits(LimitLock(fees, Ask, m.price, m.qty))
  {
    AdmissibleAmountFits(fees, Cost(m.price, m.qty));
    ProductMonotone(1, m.price, m.qty, m.qty);
  }

  /** The running totals of an accepted limit order, its refund and all computed for its resting remainder fit too. */
  lemma LimitOrderArithmeticFits(e: Engine, m: OrderMsg)
    requires BooksSound(e) && e.fees.Bounded() && RequestFits(m)
    requires m.kind.Limit? && SettlementOf(e, m).Some?
    ensures var s := SettlementOf(e, m).value;
            && Fits(s.lock) && Fits(s.refund) && Fits(Kept(e.fees, s.x)) && Fits(TradedQty(s.x.trades))
            && (s.side.Bid? ==> Fits(BuyerSpent(e.fees, s.x.trades)))
            && (s.x.resting.Some? ==> FeesFit(e.fees, Cost(s.x.resting.value.price, s.x.resting.value.remaining)))
  {
    hide Consume, PlaceLimit, Fee, Cost, WellFormed, Admissible, FeesFit;
    var asset, side := m.asset.value, m.side.value;
    var s := SettlementOf(e, m).value;
    LimitRequestArithmeticFits(e.fees, m);
    LimitTradesWithinQty(e, m.user, asset, side, m.price, m.qty, m.tif);
    RestingArithmeticFits(e, m.user, asset, side, m.price, m.qty, m.tif);
    if side.Bid? {
      LimitBidIsExact(e, m.user, asset, m.price, m.qty, m.tif);
    } else {
      LimitAskIsExact(e, m.user, asset, m.price, m.qty, m.tif);
    }
  }

  /** What stays locked for the remainder is computed without overflow, and so is what a later cancel gives back. */
  lemma RestingArithmeticFits(e: Engine, user: UserId, asset: Asset, side: Side, price: Price, qty: Quantity,
                              tif: TimeInForce)
    requires BooksSound(e) && e.fees.Bounded() && Admissible(Cost(price, qty))
    ensures match LimitSettlement(e, user, asset, side, price, qty, tif).x.resting
            case None => true
            case Some(o) => FeesFit(e.fees, Cost(o.price, o.remaining))
  {
    hide WellFormed, Consume, Admissible, FeesFit;
    var b := e.BookOf(asset);
    assert WellFormed(b);
    LimitIsExecution(b, e.nextId, user, side, price, qty, tif);
    FilledPlusLeft(b.SideOf(side.Opposite()), Some(price), qty);
    var left := Consume(b.SideOf(side.Opposite()), Some(price), qty).left;
    LessCostIsAdmissible(price, left, qty);
    AdmissibleAmountFits(e.fees, Cost(price, left));
  }

  lemma LimitTradesWithinQty(e: Engine, user: UserId, asset: Asset, side: Side, price: Price, qty: Quantity,
                             tif: TimeInForce)
    requires BooksSound(e)
    ensures TradedQty(LimitSettlement(e, user, asset, side, price, qty, tif).x.trades) <= qty
  {
    hide WellFormed, Consume;
    var s := LimitSettlement(e, user, asset, side, price, qty, tif);
    assert WellFormed(e.BookOf(asset));
    LimitIsExecution(e.BookOf(asset), e.nextId, user, side, price, qty, tif);
    TradedQtyIsFilled(e.nextId, user, side, s.Fills(e));
    FilledPlusLeft(e.BookOf(asset).SideOf(side.Opposite()), Some(price), s.matched);
  }

  lemma {:induction false} QuoteGrows(fills: seq<Fill>, n: nat)
    requires n <= |fills|
    ensures FilledCost(fills[..n]) <= FilledCost(fills)
  {
    if n > 0 {
      assert fills[..n][1..] == fills[1..][..n - 1];
      QuoteGrows(fills[1..], n - 1);
    }
  }

  /** What every market buy computes before its funds matter, if its quoted cost is admissible. */
  lemma MarketBuyQuoteFits(fees: FeeSchedule, b: Book, qty: Quantity, worst: Option<Price>, n: nat)
    requires fees.Bounded() && n <= |Consume(b.asks, worst, qty).fills|
    requires Admissible(FilledCost(Consume(b.asks, worst, qty).fills))
    ensures var fills := Consume(b.asks, worst, qty).fills;
            && Fits(FilledCost(fills[..n])) && FeesFit(fees, FilledCost(fills))
            && Fits(MarketBuyLock(fees, FilledCost(fills)))
  {
    var fills := Consume(b.asks, worst, qty).fills;
    QuoteGrows(fills, n);
    AdmissibleAmountFits(fees, FilledCost(fills));
  }

  /** An accepted market buy's spending and refund fit too. */
  lemma MarketBuyArithmeticFits(e: Engine, m: OrderMsg)
    requires BooksSound(e) && e.fees.Bounded()
    requires m.kind.Market? && m.side == Some(Bid) && SettlementOf(e, m).Some?
    requires Admissible(FilledCost(SettlementOf(e, m).value.Fills(e)))
    ensures var s := SettlementOf(e, m).value;
            && Fits(s.lock) && Fits(BuyerSpent(e.fees, s.x.trades)) && Fits(s.refund)
  {
    hide WellFormed, Consume, Fee, WorstPrice;
    var s := SettlementOf(e, m).value;
    AdmissibleAmountFits(e.fees, FilledCost(s.Fills(e)));
    MarketBuyIsBalanced(e, m.user, s.asset, m.qty, s.limit);
  }

  /** What cancelling an order computes: its cost, the fee product and the refund. */
  lemma CancelArithmeticFits(e: Engine, a: Asset, id: OrderId, user: UserId)
    requires Inv(e) && BooksAdmitted(e) && SupplyFits(e.accounts) && e.fees.Bounded()
    requires Cancel(e.BookOf(a), id, user).Ok?
    ensures var o := Cancel(e.BookOf(a), id, user).value.order;
            FeesFit(e.fees, Cost(o.price, o.remaining)) && Fits(CancelRefund(e.fees, o))
  {
    hide Book.Lookup, WellFormed, Admissible, FeesFit, Supply;
    var b := e.BookOf(a);
    var o := Cancel(b, id, user).value.order;
    assert WellFormed(b);
    LookupIsSound(b, id);
    assert AllHave(Admitted(), b.SideOf(o.side));
    assert Admitted()(o);
    AdmissibleAmountFits(e.fees, Cost(o.price, o.remaining));
    CancelRefundIsCovered(e, a, id, user);
    ClaimsAreNonNegative(e);
    BalancesFit(e.accounts, Funding(o.user, o.side, a));
  }

  // ----- Quantities on a side of a book -----

  function Refunds(fees: FeeSchedule, q: seq<Order>): nat {
    if q == [] then 0 else CancelRefund(fees, q[0]) + Refunds(fees, q[1..])
  }

  function Quantities(q: seq<Order>): nat {
    if q == [] then 0 else q[0].remaining + Quantities(q[1..])
  }

  function RefundsTo(fees: FeeSchedule, asset: Asset, q: seq<Order>, keys: set<Account>): nat {
    if q == [] then 0
    else
      (if Funding(q[0].user, q[0].side, asset) in keys then CancelRefund(fees, q[0]) else 0) +
      RefundsTo(fees, asset, q[1..], keys)
  }

  lemma {:induction false} RefundsWithout(fees: FeeSchedule, asset: Asset, q: seq<Order>, keys: set<Account>,
                                          k: Account)
    requires k in keys
    ensures RefundsTo(fees, asset, q, keys) == Claims.Claims(fees, asset, q, k) + RefundsTo(fees, asset, q, keys - {k})
  {
    if q != [] {
      RefundsWithout(fees, asset, q[1..], keys, k);
    }
  }

  lemma {:induction false} RefundsToNobody(fees: FeeSchedule, asset: Asset, q: seq<Order>)
    ensures RefundsTo(fees, asset, q, {}) == 0
  {
    if q != [] {
      RefundsToNobody(fees, asset, q[1..]);
    }
  }

  ghost predicate Backed(a: Accounts, fees: FeeSchedule, asset: Asset, q: seq<Order>, k: Account) {
    Get(a, k).available >= 0 && Get(a, k).locked >= Claims.Claims(fees, asset, q, k)
  }

  lemma {:induction false} RefundsWithinWorth(a: Accounts, fees: FeeSchedule, asset: Asset, q: seq<Order>, c: Currency,
                                              keys: set<Account>)
    requires forall k: Account :: Backed(a, fees, asset, q, k)
    requires forall o :: o in q ==> Funding(o.user, o.side, asset).currency == c
    ensures RefundsTo(fees, asset, q, keys) <= WorthOf(a, keys, c)
    decreases |keys|
  {
    hide Claims.Claims, RefundsTo, Funding, WorthIn, Backed;
    if keys == {} {
      RefundsToNobody(fees, asset, q);
    } else {
      var k :| k in keys;
      WorthWithout(a, keys, k, c);
      RefundsWithout(fees, asset, q, keys, k);
      RefundsWithinWorth(a, fees, asset, q, c, keys - {k});
      assert Backed(a, fees, asset, q, k);
      BackedByWorth(a, fees, asset, q, c, k);
    }
  }

  lemma BackedByWorth(a: Accounts, fees: FeeSchedule, asset: Asset, q: seq<Order>, c: Currency, k: Account)
    requires Backed(a, fees, asset, q, k)
    requires forall o :: o in q ==> Funding(o.user, o.side, asset).currency == c
    ensures Claims.Claims(fees, asset, q, k) <= WorthIn(a, k, c)
  {
    if k.currency != c {
      NoClaimsInOtherCurrencies(fees, asset, q, c, k);
    }
  }

  lemma {:induction false} NoClaimsInOtherCurrencies(fees: FeeSchedule, asset: Asset, q: seq<Order>, c: Currency,
                                                     k: Account)
    requires forall o :: o in q ==> Funding(o.user, o.side, asset).currency == c
    requires k.currency != c
    ensures Claims.Claims(fees, asset, q, k) == 0
  {
    if q != [] {
      assert q[0] in q;
      NoClaimsInOtherCurrencies(fees, asset, q[1..], c, k);
    }
  }

  lemma {:induction false} ClaimOfMember(fees: FeeSchedule, asset: Asset, q: seq<Order>, o: Order)
    requires o in q
    ensures Claims.Claims(fees, asset, q, Funding(o.user, o.side, asset)) >= CancelRefund(fees, o)
  {
    if q[0] != o {
      ClaimOfMember(fees, asset, q[1..], o);
    }
  }

  lemma {:induction false} RefundsToAll(fees: FeeSchedule, asset: Asset, q: seq<Order>, keys: set<Account>)
    requires forall o :: o in q ==> Funding(o.user, o.side, asset) in keys || CancelRefund(fees, o) == 0
    ensures RefundsTo(fees, asset, q, keys) == Refunds(fees, q)
  {
    if q != [] {
      assert q[0] in q;
      RefundsToAll(fees, asset, q[1..], keys);
    }
  }

  /** Everything the resting orders of a side are entitled to is there: it is part of the currency's supply. */
  lemma RestingOrdersAreBacked(e: Engine, asset: Asset, side: Side)
    requires Inv(e)
    ensures Refunds(e.fees, e.BookOf(asset).SideOf(side)) <= Supply(e.accounts, Funding(0, side, asset).currency)
  {
    var b := e.BookOf(asset);
    var q := b.SideOf(side);
    var c := Funding(0, side, asset).currency;
    assert WellFormed(b) && IsQueue(side, q);
    forall k: Account ensures Backed(e.accounts, e.fees, asset, q, k) {
      assert AccountSolvent(e, k);
      MarketWithinTotal(e, asset, k);
    }
    assert forall o :: o in q ==> o.side == side;
    forall o | o in q ensures Funding(o.user, o.side, asset) in e.accounts || CancelRefund(e.fees, o) == 0 {
      var k := Funding(o.user, o.side, asset);
      ClaimOfMember(e.fees, asset, q, o);
      assert Backed(e.accounts, e.fees, asset, q, k);
    }
    RefundsToAll(e.fees, asset, q, e.accounts.Keys);
    RefundsWithinWorth(e.accounts, e.fees, asset, q, c, e.accounts.Keys);
  }

  lemma {:induction false} QuantitiesWithinRefunds(fees: FeeSchedule, q: seq<Order>)
    requires forall o :: o in q ==> o.price > 0
    ensures Quantities(q) <= Refunds(fees, q)
  {
    if q != [] {
      assert q[0] in q;
      ProductMonotone(1, q[0].price, q[0].remaining, q[0].remaining);
      QuantitiesWithinRefunds(fees, q[1..]);
    }
  }

  lemma {:induction false} LevelWithinSide(q: seq<Order>, price: Price)
    ensures QtyAt(q, price) <= Quantities(q)
  {
    if q != [] {
      LevelWithinSide(q[1..], price);
    }
  }

  lemma {:induction false} FilledWithinSide(q: seq<Order>, limit: Option<Price>, qty: Quantity)
    ensures FilledQty(Consume(q, limit, qty).fills) <= Quantities(q)
  {
    var r := Consume(q, limit, qty);
    if qty == 0 || q == [] || !Reaches(limit, q[0]) {
    } else if qty < q[0].remaining {
      assert r.fills[1..] == [];
      assert FilledQty(r.fills[1..]) == 0;
    } else {
      FilledWithinSide(q[1..], limit, qty - q[0].remaining);
      assert r.fills[1..] == Consume(q[1..], limit, qty - q[0].remaining).fills;
    }
  }

  /** All quantities resting on a side together fit, so every published level and every fillable quantity does. */
  lemma SideQuantitiesFit(e: Engine, asset: Asset, side: Side, limit: Option<Price>, qty: Quantity)
    requires Inv(e) && BooksAdmitted(e) && SupplyFits(e.accounts)
    ensures var q := e.BookOf(asset).SideOf(side);
            && Fits(Quantities(q))
            && (forall i :: 0 <= i < |Depth(q)| ==> Fits(Depth(q)[i].qty))
            && Fits(FilledQty(Consume(q, limit, qty).fills))
  {
    hide Depth, Quantities, WellFormed, Supply;
    var q := e.BookOf(asset).SideOf(side);
    QueueOfSide(e, asset, side);
    assert AllHave(Admitted(), q);
    assert forall o :: o in q ==> Admitted()(o);
    QuantitiesWithinRefunds(e.fees, q);
    RestingOrdersAreBacked(e, asset, side);
    assert Fits(Supply(e.accounts, Funding(0, side, asset).currency));
    DepthIsAggregate(side, q);
    forall i | 0 <= i < |Depth(q)| ensures Fits(Depth(q)[i].qty) {
      LevelWithinSide(q, Depth(q)[i].price);
    }
    FilledWithinSide(q, limit, qty);
  }
}
