/**
 * The read model: the orders, trades and ledger tables as a fold of the execution stream, and why it agrees
 * with the engine that emitted the stream.
 */
module Projection {
  import opened Types
  import opened Fees
  import opened Books
  import opened Ledger
  import opened Engine
  import opened Solvency
  import opened Runs

  datatype OrderRow = OrderRow(user: UserId, market: Asset, side: Side, price: Price, originalQty: Quantity,
                               remainingQty: Quantity, status: OrderStatus)

  datatype TradeRow = TradeRow(makerId: OrderId, takerId: OrderId, buyer: UserId, seller: UserId, market: Asset,
                               price: Price, qty: Quantity, quoteAmount: nat)

  datatype BalanceType = Available | Locked | Clearing

  /** A signed entry; entries of balance type `Clearing` are the counterpart of outside money. */
  datatype LedgerRow = LedgerRow(user: UserId, currency: Currency, amount: int, balanceType: BalanceType)

  type OrderTable = map<OrderId, OrderRow>

  datatype Tables = Tables(orders: OrderTable, trades: seq<TradeRow>, ledger: seq<LedgerRow>)

  const EMPTY_TABLES := Tables(map[], [], [])

  // ----- One event -----

  /** Insert a row, or on conflict overwrite only its quantity and status. */
  function Upsert(rows: OrderTable, id: OrderId, row: OrderRow): OrderTable {
    rows[id := if id in rows then rows[id].(remainingQty := row.remainingQty, status := row.status) else row]
  }

  /** An update of an id without a row has no effect. */
  function SetRemaining(rows: OrderTable, id: OrderId, qty: Quantity, status: OrderStatus): OrderTable {
    if id in rows then rows[id := rows[id].(remainingQty := qty, status := status)] else rows
  }

  function ProjectOrder(rows: OrderTable, event: Event): OrderTable {
    match event
    case OrderCreated(id, user, market, side, price, originalQty, remainingQty) =>
      Upsert(rows, id, OrderRow(user, market, side, price, originalQty, remainingQty, Open))
    case TradeExecuted(makerId, _, _, _, _, _, _, _, makerRemaining, _, _) =>
      SetRemaining(rows, makerId, makerRemaining, if makerRemaining == 0 then Filled else PartiallyFilled)
    case OrderCancelled(id, _, remainingQty) => SetRemaining(rows, id, remainingQty, Cancelled)
    case _ => rows
  }

  function TradeRowsOf(event: Event): seq<TradeRow> {
    match event
    case TradeExecuted(makerId, takerId, buyer, seller, market, price, qty, quoteAmount, _, _, _) =>
      [TradeRow(makerId, takerId, buyer, seller, market, price, qty, quoteAmount)]
    case _ => []
  }

  function LedgerRowsOf(event: Event): seq<LedgerRow> {
    match event
    case TradeExecuted(_, _, buyer, seller, market, _, qty, quoteAmount, _, buyerFee, sellerFee) =>
      [LedgerRow(buyer, Usd, 0 - (quoteAmount + buyerFee), Locked),
       LedgerRow(buyer, Base(market), qty, Available),
       LedgerRow(seller, Usd, SaturatingSub(quoteAmount, sellerFee), Available),
       LedgerRow(seller, Base(market), 0 - qty, Locked)] +
      (if buyerFee + sellerFee > 0 then [LedgerRow(TREASURY, Usd, buyerFee + sellerFee, Available)] else [])
    case FundingExecuted(user, currency, amount) =>
      [LedgerRow(user, currency, amount, Available), LedgerRow(TREASURY, currency, 0 - amount, Clearing)]
    case _ => []
  }

  function Project(t: Tables, event: Event): Tables {
    Tables(ProjectOrder(t.orders, event), t.trades + TradeRowsOf(event), t.ledger + LedgerRowsOf(event))
  }

  function ProjectAll(t: Tables, events: seq<Event>): Tables {
    if events == [] then t else Project(ProjectAll(t, events[..|events| - 1]), events[|events| - 1])
  }

  lemma {:induction false} ProjectConcat(t: Tables, xs: seq<Event>, ys: seq<Event>)
    ensures ProjectAll(t, xs + ys) == ProjectAll(ProjectAll(t, xs), ys)
    decreases |ys|
  {
    hide Project;
    if ys == [] {
      assert xs + ys == xs;
    } else {
      var last := |ys| - 1;
      ProjectConcat(t, xs, ys[..last]);
      assert (xs + ys)[..|xs + ys| - 1] == xs + ys[..last];
    }
  }

  // ----- Sums of ledger rows -----

  /** What a row means for an account: clearing rows belong to nobody. */
  function RowWorth(r: LedgerRow, k: Account): int {
    if r.balanceType != Clearing && k == Account(r.user, r.currency) then r.amount else 0
  }

  function AccountTotal(rows: seq<LedgerRow>, k: Account): int {
    if rows == [] then 0 else RowWorth(rows[0], k) + AccountTotal(rows[1..], k)
  }

  function CurrencyTotal(rows: seq<LedgerRow>, c: Currency): int {
    if rows == [] then 0 else (if rows[0].currency == c then rows[0].amount else 0) + CurrencyTotal(rows[1..], c)
  }

  lemma {:induction false} TotalsConcat(xs: seq<LedgerRow>, ys: seq<LedgerRow>, k: Account, c: Currency)
    ensures AccountTotal(xs + ys, k) == AccountTotal(xs, k) + AccountTotal(ys, k)
    ensures CurrencyTotal(xs + ys, c) == CurrencyTotal(xs, c) + CurrencyTotal(ys, c)
  {
    if xs == [] {
      assert xs + ys == ys;
    } else {
      TotalsConcat(xs[1..], ys, k, c);
      assert (xs + ys)[1..] == xs[1..] + ys;
    }
  }

  lemma {:induction false} TotalsOfTwo(x: LedgerRow, y: LedgerRow, k: Account, c: Currency)
    ensures AccountTotal([x, y], k) == RowWorth(x, k) + RowWorth(y, k)
    ensures CurrencyTotal([x, y], c) ==
            (if x.currency == c then x.amount else 0) + if y.currency == c then y.amount else 0
  {
    assert [x, y][1..] == [y] && [y][1..] == [];
    assert AccountTotal([y], k) == RowWorth(y, k) + AccountTotal([], k);
    assert CurrencyTotal([y], c) == (if y.currency == c then y.amount else 0) + CurrencyTotal([], c);
  }

  /** The rows of a trade move exactly what settling it moves, in every account and currency. */
  lemma TradeRowsTotal(fees: FeeSchedule, asset: Asset, after: Book, t: Trade, k: Account, c: Currency)
    ensures var rows := LedgerRowsOf(TradeEvent(fees, asset, after, t));
            && AccountTotal(rows, k) == Credit(fees, asset, t, k) - Debit(fees, asset, t, k)
            && CurrencyTotal(rows, c) == if c == Usd then Created(fees, t) else 0
  {
    hide FeesOf, SaturatingSub, Trade.Value, LedgerRowsOf, AccountTotal, CurrencyTotal;
    var f := FeesOf(fees, t);
    var buyer := [LedgerRow(t.buyer, Usd, 0 - (t.Value() + f.buyer), Locked),
                  LedgerRow(t.buyer, Base(asset), t.qty, Available)];
    var seller := [LedgerRow(t.seller, Usd, SaturatingSub(t.Value(), f.seller), Available),
                   LedgerRow(t.seller, Base(asset), 0 - t.qty, Locked)];
    RowsOfTrade(fees, asset, after, t);
    TotalsOfTwo(buyer[0], buyer[1], k, c);
    TotalsOfTwo(seller[0], seller[1], k, c);
    TotalsOfFee(f.buyer + f.seller, k, c);
    TotalsConcat(buyer, seller, k, c);
    TotalsConcat(buyer + seller, FeeRows(f.buyer + f.seller), k, c);
  }

  function FeeRows(fee: nat): seq<LedgerRow> {
    if fee > 0 then [LedgerRow(TREASURY, Usd, fee, Available)] else []
  }

  lemma TotalsOfFee(fee: nat, k: Account, c: Currency)
    ensures AccountTotal(FeeRows(fee), k) == if k == Account(TREASURY, Usd) then fee else 0
    ensures CurrencyTotal(FeeRows(fee), c) == if c == Usd then fee else 0
  {
    assert FeeRows(fee) != [] ==> FeeRows(fee)[1..] == [];
  }

  lemma RowsOfTrade(fees: FeeSchedule, asset: Asset, after: Book, t: Trade)
    ensures var f := FeesOf(fees, t);
            LedgerRowsOf(TradeEvent(fees, asset, after, t)) ==
            [LedgerRow(t.buyer, Usd, 0 - (t.Value() + f.buyer), Locked),
             LedgerRow(t.buyer, Base(asset), t.qty, Available)] +
            [LedgerRow(t.seller, Usd, SaturatingSub(t.Value(), f.seller), Available),
             LedgerRow(t.seller, Base(asset), 0 - t.qty, Locked)] +
            FeeRows(f.buyer + f.seller)
  {
    hide FeesOf, SaturatingSub, Trade.Value;
  }

  /** The rows of a trade sum to zero in every currency exactly when the seller's fee is within the trade's value. */
  lemma TradeRowsBalanceExactlyWhen(fees: FeeSchedule, asset: Asset, after: Book, t: Trade)
    ensures (forall c :: CurrencyTotal(LedgerRowsOf(TradeEvent(fees, asset, after, t)), c) == 0)
            <==> FeesOf(fees, t).seller <= t.Value()
  {
    forall c {
      TradeRowsTotal(fees, asset, after, t, Account(0, Usd), c);
    }
    TradeRowsTotal(fees, asset, after, t, Account(0, Usd), Usd);
  }

  // ----- The ledger over a run -----

  function LedgerRowsOfAll(events: seq<Event>): seq<LedgerRow> {
    if events == [] then [] else LedgerRowsOf(events[0]) + LedgerRowsOfAll(events[1..])
  }

  lemma ConcatIsAssociative(xs: seq<LedgerRow>, ys: seq<LedgerRow>, zs: seq<LedgerRow>)
    ensures xs + (ys + zs) == xs + ys + zs
  {
  }

  lemma {:induction false} LedgerRowsConcat(xs: seq<Event>, ys: seq<Event>)
    ensures LedgerRowsOfAll(xs + ys) == LedgerRowsOfAll(xs) + LedgerRowsOfAll(ys)
  {
    hide LedgerRowsOf;
    if xs == [] {
      assert xs + ys == ys;
    } else {
      LedgerRowsConcat(xs[1..], ys);
      assert (xs + ys)[1..] == xs[1..] + ys;
      ConcatIsAssociative(LedgerRowsOf(xs[0]), LedgerRowsOfAll(xs[1..]), LedgerRowsOfAll(ys));
    }
  }

  lemma {:induction false} LedgerIsItsEvents(events: seq<Event>)
    ensures ProjectAll(EMPTY_TABLES, events).ledger == LedgerRowsOfAll(events)
    decreases |events|
  {
    hide LedgerRowsOf, TradeRowsOf, ProjectOrder;
    if events != [] {
      var last := |events| - 1;
      LedgerIsItsEvents(events[..last]);
      LedgerRowsConcat(events[..last], [events[last]]);
      assert events == events[..last] + [events[last]];
      assert LedgerRowsOfAll([events[last]]) == LedgerRowsOf(events[last]);
    }
  }

  lemma {:induction false} TradeEventsTotal(fees: FeeSchedule, asset: Asset, after: Book, trades: seq<Trade>,
                                            k: Account, c: Currency)
    ensures var rows := LedgerRowsOfAll(TradeEvents(fees, asset, after, trades));
            && AccountTotal(rows, k) == Credits(fees, asset, trades, k) - Debits(fees, asset, trades, k)
            && CurrencyTotal(rows, c) == if c == Usd then CreatedBy(fees, trades) else 0
  {
    if trades != [] {
      var first, rest := TradeEvent(fees, asset, after, trades[0]), TradeEvents(fees, asset, after, trades[1..]);
      TradeEventsTotal(fees, asset, after, trades[1..], k, c);
      TradeRowsTotal(fees, asset, after, trades[0], k, c);
      TotalsConcat(LedgerRowsOf(first), LedgerRowsOfAll(rest), k, c);
      assert ([first] + rest)[1..] == rest;
    }
  }

  /** The rows emitted by a command change each account's total by what the command changes its worth. */
  lemma CommandTotals(e: Engine, c: Command, k: Account, cur: Currency)
    requires BooksSound(e) && !c.Reset?
    ensures var step := Dispatch(e, c);
            var rows := LedgerRowsOfAll(step.events);
            && Holding(step.state.accounts, k) == Holding(e.accounts, k) + AccountTotal(rows, k)
            && CurrencyTotal(rows, cur) == if cur == Usd then CreatedIn(e, c) else 0
  {
    hide LedgerRowsOf, AccountTotal, CurrencyTotal, HandleOrder, HandleCancel, Fund, SettlementOf;
    match c
    case Signup(user) => NothingEmitted(k, cur);
    case Onramp(user, qty) => FundingTotals(e, Account(user, Usd), qty, k, cur);
    case Deposit(user, asset, qty) => FundingTotals(e, Account(user, Base(asset)), qty, k, cur);
    case PlaceOrder(m) => OrderTotals(e, m, k, cur);
    case CancelOrder(user, id) => CancelTotals(e, user, id, k, cur);
    case Query => NothingEmitted(k, cur);
  }

  lemma NoTotals(k: Account, cur: Currency)
    ensures AccountTotal([], k) == CurrencyTotal([], cur) == 0
  {
  }

  lemma NothingEmitted(k: Account, cur: Currency)
    ensures AccountTotal(LedgerRowsOfAll([]), k) == CurrencyTotal(LedgerRowsOfAll([]), cur) == 0
  {
  }

  lemma FundingTotals(e: Engine, to: Account, qty: nat, k: Account, cur: Currency)
    ensures var step := Fund(e, to, qty);
            var rows := LedgerRowsOfAll(step.events);
            && Holding(step.state.accounts, k) == Holding(e.accounts, k) + AccountTotal(rows, k)
            && CurrencyTotal(rows, cur) == 0
  {
    hide LedgerRowsOfAll, AccountTotal, CurrencyTotal;
    FundingRows(to, qty);
    TotalsOfTwo(LedgerRow(to.user, to.currency, qty, Available),
                LedgerRow(TREASURY, to.currency, 0 - qty, Clearing), k, cur);
  }

  lemma FundingRows(to: Account, qty: nat)
    ensures LedgerRowsOfAll([FundingExecuted(to.user, to.currency, qty)]) ==
            [LedgerRow(to.user, to.currency, qty, Available), LedgerRow(TREASURY, to.currency, 0 - qty, Clearing)]
  {
    var events := [FundingExecuted(to.user, to.currency, qty)];
    assert events[1..] == [];
    assert LedgerRowsOfAll(events) == LedgerRowsOf(events[0]) + LedgerRowsOfAll([]);
  }

  lemma OrderTotals(e: Engine, m: OrderMsg, k: Account, cur: Currency)
    requires BooksSound(e)
    ensures var step := HandleOrder(e, m);
            var rows := LedgerRowsOfAll(step.events);
            && Holding(step.state.accounts, k) == Holding(e.accounts, k) + AccountTotal(rows, k)
            && CurrencyTotal(rows, cur) == if cur == Usd then CreatedIn(e, PlaceOrder(m)) else 0
  {
    hide HandleOrder, SettlementOf, Balanced, LedgerRowsOfAll, AccountTotal, CurrencyTotal, DepthEvent, TradeEvents,
      CreatedEvents, Settlement.Apply;
    OrderIsSettlement(e, m);
    NothingEmitted(k, cur);
    if SettlementOf(e, m).Some? {
      SettlementTotals(e, SettlementOf(e, m).value, k, cur);
    }
  }

  lemma SettlementTotals(e: Engine, s: Settlement, k: Account, cur: Currency)
    ensures var rows := LedgerRowsOfAll(TradeEvents(e.fees, s.asset, s.x.book, s.x.trades) + CreatedEvents(s) +
                                        [DepthEvent(s.asset, s.x.book)]);
            && Holding(s.Apply(e).accounts, k) == Holding(e.accounts, k) + AccountTotal(rows, k)
            && CurrencyTotal(rows, cur) == if cur == Usd then CreatedBy(e.fees, s.x.trades) else 0
  {
    hide DepthEvent, TradeEvents, CreatedEvents, Settlement.Apply, LedgerRowsOfAll, AccountTotal, CurrencyTotal;
    var trades, created, depth := TradeEvents(e.fees, s.asset, s.x.book, s.x.trades), CreatedEvents(s),
                                  [DepthEvent(s.asset, s.x.book)];
    NoLedgerRows(s);
    LedgerRowsConcat(trades, created);
    LedgerRowsConcat(trades + created, depth);
    assert LedgerRowsOfAll(trades) + [] + [] == LedgerRowsOfAll(trades);
    TradeEventsTotal(e.fees, s.asset, s.x.book, s.x.trades, k, cur);
    ApplyMoves(e, s, k);
  }

  lemma NoLedgerRows(s: Settlement)
    ensures LedgerRowsOfAll(CreatedEvents(s)) == []
    ensures LedgerRowsOfAll([DepthEvent(s.asset, s.x.book)]) == []
  {
    assert [DepthEvent(s.asset, s.x.book)][1..] == [];
  }

  lemma DepthHasNoRows(a: Asset, b: Book)
    ensures LedgerRowsOf(DepthEvent(a, b)) == []
  {
  }

  lemma NoLedgerRowsOnCancel(e: Engine, a: Asset, removal: Removal)
    ensures LedgerRowsOfAll(CancelIn(e, a, removal).events) == []
  {
    hide DepthEvent;
    var o := removal.order;
    var depth := DepthEvent(a, removal.book);
    var events := [OrderCancelled(o.id, o.user, o.remaining), depth];
    assert CancelIn(e, a, removal).events == events;
    assert events[1..] == [depth] && [depth][1..] == [];
    assert LedgerRowsOf(depth) == [] by { DepthHasNoRows(a, removal.book); }
    assert LedgerRowsOfAll([depth]) == [];
  }

  lemma CancelTotals(e: Engine, user: UserId, id: OrderId, k: Account, cur: Currency)
    ensures var step := HandleCancel(e, user, id);
            var rows := LedgerRowsOfAll(step.events);
            && Holding(step.state.accounts, k) == Holding(e.accounts, k) + AccountTotal(rows, k)
            && CurrencyTotal(rows, cur) == 0
  {
    hide HandleCancel, CancelIn, LedgerRowsOfAll, AccountTotal, CurrencyTotal;
    CancelTakesEffect(e, user, id);
    NothingEmitted(k, cur);
    NoTotals(k, cur);
    if CancelMarket(e, user, id).Some? {
      var a := CancelMarket(e, user, id).value;
      var removal := Cancel(e.BookOf(a), id, user).value;
      CancelMoves(e, a, removal, k);
      NoLedgerRowsOnCancel(e, a, removal);
    }
  }

  lemma InvBooks(e: Engine)
    requires Inv(e)
    ensures BooksSound(e) && IdsApart(e)
  {
  }

  lemma {:induction false} LedgerIsAccountedFor(fees: FeeSchedule, log: seq<Command>, k: Account, cur: Currency)
    requires ResetFree(log)
    ensures var ledger := LedgerRowsOfAll(Emitted(Initial(fees), log));
            && Holding(Run(Initial(fees), log).accounts, k) == AccountTotal(ledger, k)
            && CurrencyTotal(ledger, cur) == if cur == Usd then CreatedOver(Initial(fees), log) else 0
    decreases |log|
  {
    hide LedgerRowsOfAll, AccountTotal, CurrencyTotal, Dispatch, Inv, CreatedIn;
    NothingEmitted(k, cur);
    if log != [] {
      var before, last := log[..|log| - 1], log[|log| - 1];
      var e := Run(Initial(fees), before);
      LedgerIsAccountedFor(fees, before, k, cur);
      InitialInv(fees);
      RunKeepsInv(Initial(fees), before);
      InvBooks(e);
      CommandTotals(e, last, k, cur);
      LedgerRowsConcat(Emitted(Initial(fees), before), Dispatch(e, last).events);
      TotalsConcat(LedgerRowsOfAll(Emitted(Initial(fees), before)), LedgerRowsOfAll(Dispatch(e, last).events), k, cur);
    }
  }

  /**
   * The ledger table agrees with the engine: in every reset-free run the non-clearing rows of each user and
   * currency sum to that user's available plus locked. All rows of a base asset sum to zero, and all rows of
   * USD to what over-sized seller fees created, which is nothing when fee rates are at most 100%.
   */
  lemma LedgerAgrees(fees: FeeSchedule, log: seq<Command>, k: Account, cur: Currency)
    requires ResetFree(log)
    ensures var t := ProjectAll(EMPTY_TABLES, Emitted(Initial(fees), log));
            && Holding(Run(Initial(fees), log).accounts, k) == AccountTotal(t.ledger, k)
            && (cur != Usd ==> CurrencyTotal(t.ledger, cur) == 0)
            && CurrencyTotal(t.ledger, Usd) == CreatedOver(Initial(fees), log)
            && (fees.Bounded() ==> CurrencyTotal(t.ledger, cur) == 0)
  {
    hide ProjectAll, LedgerRowsOfAll, AccountTotal, CurrencyTotal, Run, Emitted, CreatedOver, FeeSchedule.Bounded;
    LedgerIsItsEvents(Emitted(Initial(fees), log));
    LedgerIsAccountedFor(fees, log, k, cur);
    LedgerIsAccountedFor(fees, log, k, Usd);
    if fees.Bounded() {
      BoundedFeesCreateNothingOver(fees, log);
    }
  }
}
