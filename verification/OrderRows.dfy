/** Why the orders table agrees with the books of the engine. */
module OrderRows {
  import opened Types
  import opened Fees
  import opened Matching
  import opened Queues
  import opened Books
  import opened Engine
  import opened Claims
  import opened Solvency
  import opened Runs
  import opened Projection

  // ----- The agreement -----

  /** The row describes this resting order. */
  predicate Describes(row: OrderRow, market: Asset, o: Order) {
    && row.user == o.user && row.market == market && row.side == o.side && row.price == o.price
    && row.remainingQty == o.remaining <= row.originalQty
    && (row.status == Open || row.status == PartiallyFilled)
  }

  predicate IsClosed(row: OrderRow) {
    (row.status == Filled && row.remainingQty == 0) || row.status == Cancelled
  }

  ghost predicate RestsNowhere(e: Engine, id: OrderId) {
    forall a: Asset :: !e.BookOf(a).Has(id)
  }

  /** One id: a resting order has its row, any other row is closed, and unissued ids have no row. */
  ghost predicate IdAgrees(rows: OrderTable, e: Engine, id: OrderId) {
    && (forall a: Asset :: e.BookOf(a).Has(id) ==> id in rows && Describes(rows[id], a, e.BookOf(a).Lookup(id).value))
    && (id in rows && RestsNowhere(e, id) ==> IsClosed(rows[id]))
    && (id in rows ==> id < e.nextId)
  }

  ghost predicate RowsAgree(rows: OrderTable, e: Engine) {
    forall id: OrderId :: IdAgrees(rows, e, id)
  }

  function ProjectOrders(rows: OrderTable, events: seq<Event>): OrderTable {
    if events == [] then rows else ProjectOrder(ProjectOrders(rows, events[..|events| - 1]), events[|events| - 1])
  }

  lemma {:induction false} OrdersAreProjected(t: Tables, events: seq<Event>)
    ensures ProjectAll(t, events).orders == ProjectOrders(t.orders, events)
    decreases |events|
  {
    hide ProjectOrder, TradeRowsOf, LedgerRowsOf;
    if events != [] {
      OrdersAreProjected(t, events[..|events| - 1]);
    }
  }

  lemma {:induction false} ProjectOrdersConcat(rows: OrderTable, xs: seq<Event>, ys: seq<Event>)
    ensures ProjectOrders(rows, xs + ys) == ProjectOrders(ProjectOrders(rows, xs), ys)
    decreases |ys|
  {
    hide ProjectOrder;
    if ys == [] {
      assert xs + ys == xs;
    } else {
      var last := |ys| - 1;
      ProjectOrdersConcat(rows, xs, ys[..last]);
      assert (xs + ys)[..|xs + ys| - 1] == xs + ys[..last];
    }
  }

  lemma ProjectOne(rows: OrderTable, event: Event)
    ensures ProjectOrders(rows, [event]) == ProjectOrder(rows, event)
  {
    hide ProjectOrder;
    assert [event][..0] == [];
  }

  // ----- The trades of one taker -----

  predicate MakesIn(trades: seq<Trade>, id: OrderId) {
    exists i :: 0 <= i < |trades| && trades[i].makerId == id
  }

  lemma {:induction false} MakersOfTrades(takerId: OrderId, user: UserId, side: Side, fills: seq<Fill>, id: OrderId)
    ensures MakesIn(Trades(takerId, user, side, fills), id) <==> MakerIn(fills, id)
  {
    if fills != [] {
      var trades := Trades(takerId, user, side, fills);
      MakersOfTrades(takerId, user, side, fills[1..], id);
      assert trades[0].makerId == fills[0].maker.id;
      assert trades[1..] == Trades(takerId, user, side, fills[1..]);
      MakesInSplit(trades, id);
      MakerInSplit(fills, id);
    }
  }

  lemma MakesInSplit(trades: seq<Trade>, id: OrderId)
    requires trades != []
    ensures MakesIn(trades, id) <==> trades[0].makerId == id || MakesIn(trades[1..], id)
  {
    if MakesIn(trades[1..], id) {
      var i :| 0 <= i < |trades[1..]| && trades[1..][i].makerId == id;
      assert trades[i + 1].makerId == id;
    }
    if MakesIn(trades, id) && trades[0].makerId != id {
      var i :| 0 <= i < |trades| && trades[i].makerId == id;
      assert trades[1..][i - 1].makerId == id;
    }
  }

  /** What the trades of one taker make of a row: the maker's final quantity, read after the whole match. */
  function AfterTrades(row: OrderRow, after: Book, trades: seq<Trade>, id: OrderId): OrderRow {
    if MakesIn(trades, id) then
      row.(remainingQty := after.RemainingOf(id),
           status := if after.RemainingOf(id) == 0 then Filled else PartiallyFilled)
    else
      row
  }

  lemma TradesProject(rows: OrderTable, fees: FeeSchedule, asset: Asset, after: Book, trades: seq<Trade>, id: OrderId)
    ensures var rows' := ProjectOrders(rows, TradeEvents(fees, asset, after, trades));
            && (id in rows' <==> id in rows)
            && (id in rows ==> rows'[id] == AfterTrades(rows[id], after, trades, id))
    decreases trades
  {
    hide Book.RemainingOf, MakesIn;
    if trades == [] {
      assert !MakesIn(trades, id) by { NoTradesNoMakers(id); }
    } else {
      var first, rest := TradeEvent(fees, asset, after, trades[0]), TradeEvents(fees, asset, after, trades[1..]);
      ProjectOrdersConcat(rows, [first], rest);
      ProjectOne(rows, first);
      TradesProject(ProjectOrder(rows, first), fees, asset, after, trades[1..], id);
      MakesInSplit(trades, id);
    }
  }

  lemma NoTradesNoMakers(id: OrderId)
    ensures !MakesIn([], id)
  {
  }

  // ----- One command -----

  lemma SettlementRows(rows: OrderTable, e: Engine, s: Settlement, id: OrderId)
    ensures var trades := TradeEvents(e.fees, s.asset, s.x.book, s.x.trades);
            var traded := ProjectOrders(rows, trades);
            ProjectOrders(rows, trades + CreatedEvents(s) + [DepthEvent(s.asset, s.x.book)]) ==
            match s.x.resting
            case None => traded
            case Some(o) =>
              Upsert(traded, o.id, OrderRow(o.user, s.asset, o.side, o.price, s.original, o.remaining, Open))
  {
    hide TradeEvents, DepthEvent, ProjectOrders, Upsert;
    var trades, created, depth := TradeEvents(e.fees, s.asset, s.x.book, s.x.trades), CreatedEvents(s),
                                  DepthEvent(s.asset, s.x.book);
    ProjectOrdersConcat(rows, trades + created, [depth]);
    ProjectOrdersConcat(rows, trades, created);
    ProjectOne(ProjectOrders(rows, trades + created), depth);
    assert depth.DepthUpdated? by { DepthIsDepth(s); }
    match s.x.resting {
      case None => assert trades + created == trades;
      case Some(o) => ProjectOne(ProjectOrders(rows, trades), created[0]);
    }
  }

  lemma DepthIsDepth(s: Settlement)
    ensures DepthEvent(s.asset, s.x.book).DepthUpdated?
  {
  }

  /** The quantity that comes to rest is part of what was asked for. */
  ghost predicate RestsWithinOriginal(s: Settlement) {
    s.x.resting.Some? ==> s.x.resting.value.remaining <= s.original
  }

  lemma SettlementRestsWithinOriginal(e: Engine, m: OrderMsg)
    requires BooksSound(e)
    ensures SettlementOf(e, m).Some? ==> RestsWithinOriginal(SettlementOf(e, m).value)
  {
    if m.kind.Limit? && SettlementOf(e, m).Some? {
      var asset, side := m.asset.value, m.side.value;
      LimitIsExecution(e.BookOf(asset), e.nextId, m.user, side, m.price, m.qty, m.tif);
      FilledPlusLeft(e.BookOf(asset).SideOf(side.Opposite()), Some(m.price), m.qty);
    }
  }

  lemma UnissuedRestsNowhere(e: Engine)
    requires BooksSound(e)
    ensures RestsNowhere(e, e.nextId)
  {
    forall a: Asset ensures !e.BookOf(a).Has(e.nextId) {
      assert WellFormed(e.BookOf(a)) && e.BookOf(a).nextId <= e.nextId;
      LookupIsSound(e.BookOf(a), e.nextId);
    }
  }

  lemma MakersRestInTheMarket(e: Engine, s: Settlement, id: OrderId)
    requires BooksSound(e) && IdsApart(e) && Balanced(e, s) && MakesIn(s.x.trades, id)
    ensures id != e.nextId && e.BookOf(s.asset).Has(id)
    ensures forall a: Asset :: a != s.asset ==> !e.BookOf(a).Has(id)
  {
    MakersOfTrades(e.nextId, s.user, s.side, s.Fills(e), id);
    SettlementLookup(e, s, id);
  }

  lemma OthersKeepTheirLookup(e: Engine, s: Settlement, id: OrderId)
    requires BooksSound(e) && Balanced(e, s) && !MakesIn(s.x.trades, id) && id != e.nextId
    ensures s.x.book.Lookup(id) == e.BookOf(s.asset).Lookup(id)
  {
    MakersOfTrades(e.nextId, s.user, s.side, s.Fills(e), id);
    SettlementLookup(e, s, id);
  }

  lemma NewIdAgrees(rows: OrderTable, e: Engine, s: Settlement)
    requires BooksSound(e) && IdsApart(e) && Balanced(e, s) && RestsWithinOriginal(s)
    requires IdAgrees(rows, e, e.nextId)
    ensures IdAgrees(ProjectOrders(rows, SettlementEvents(e, s)), s.Apply(e), e.nextId)
  {
    hide Settle, TradeEvents, DepthEvent, ProjectOrders, MakesIn, Book.Lookup, WellFormed;
    var id := e.nextId;
    UnissuedRestsNowhere(e);
    if MakesIn(s.x.trades, id) {
      MakersRestInTheMarket(e, s, id);
    }
    SettleAccounts(e, s);
    SettlementLookup(e, s, id);
    SettlementRows(rows, e, s, id);
    TradesProject(rows, e.fees, s.asset, s.x.book, s.x.trades, id);
    assert id !in rows;
    assert forall a: Asset :: s.Apply(e).BookOf(a).Has(id) ==> a == s.asset;
  }

  /** Where a maker stands after the match: with its row's data and less quantity, or gone. */
  lemma MakerLookup(e: Engine, s: Settlement, id: OrderId)
    requires BooksSound(e) && IdsApart(e) && Balanced(e, s) && MakesIn(s.x.trades, id)
    ensures var before, after := e.BookOf(s.asset).Lookup(id), s.x.book.Lookup(id);
            && id != e.nextId && before.Some?
            && s.x.book.RemainingOf(id) == (if after.Some? then after.value.remaining else 0)
            && (after.Some? ==>
                  0 < after.value.remaining <= before.value.remaining &&
                  after.value == before.value.(remaining := after.value.remaining))
    ensures forall a: Asset :: a != s.asset ==> !e.BookOf(a).Has(id)
  {
    hide BooksSound, IdsApart, Balanced, Book.Lookup, MakesIn;
    MakersRestInTheMarket(e, s, id);
    SettlementLookup(e, s, id);
  }

  lemma MakerIdAgrees(rows: OrderTable, e: Engine, s: Settlement, id: OrderId)
    requires BooksSound(e) && IdsApart(e) && Balanced(e, s)
    ensures MakesIn(s.x.trades, id) && IdAgrees(rows, e, id) ==>
              IdAgrees(ProjectOrders(rows, SettlementEvents(e, s)), s.Apply(e), id)
  {
    hide Settle, TradeEvents, DepthEvent, ProjectOrders, MakesIn, BooksSound, IdsApart, Balanced, Book.Lookup,
      Book.RemainingOf;
    if MakesIn(s.x.trades, id) && IdAgrees(rows, e, id) {
      MakerLookup(e, s, id);
      SettleAccounts(e, s);
      SettlementRows(rows, e, s, id);
      TradesProject(rows, e.fees, s.asset, s.x.book, s.x.trades, id);
      RestingHasTheNewId(e, s);
      assert e.BookOf(s.asset).Has(id);
      assert id in rows && Describes(rows[id], s.asset, e.BookOf(s.asset).Lookup(id).value);
      assert forall a: Asset :: s.Apply(e).BookOf(a).Has(id) ==> a == s.asset;
      assert s.Apply(e).BookOf(s.asset) == s.x.book;
    }
  }

  lemma RestingHasTheNewId(e: Engine, s: Settlement)
    requires Balanced(e, s)
    ensures s.x.resting.Some? ==> s.x.resting.value.id == e.nextId
  {
  }

  lemma OtherIdAgrees(rows: OrderTable, e: Engine, s: Settlement, id: OrderId)
    requires BooksSound(e) && Balanced(e, s) && !MakesIn(s.x.trades, id) && id != e.nextId
    requires IdAgrees(rows, e, id)
    ensures IdAgrees(ProjectOrders(rows, SettlementEvents(e, s)), s.Apply(e), id)
  {
    hide Settle, TradeEvents, DepthEvent, ProjectOrders, MakesIn, Book.Lookup, WellFormed, BooksSound;
    OthersKeepTheirLookup(e, s, id);
    SettleAccounts(e, s);
    SettlementRows(rows, e, s, id);
    TradesProject(rows, e.fees, s.asset, s.x.book, s.x.trades, id);
    assert forall a: Asset :: s.Apply(e).BookOf(a).Lookup(id) == e.BookOf(a).Lookup(id);
  }

  function SettlementEvents(e: Engine, s: Settlement): seq<Event> {
    TradeEvents(e.fees, s.asset, s.x.book, s.x.trades) + CreatedEvents(s) + [DepthEvent(s.asset, s.x.book)]
  }

  lemma SettlementKeepsRows(rows: OrderTable, e: Engine, s: Settlement)
    requires BooksSound(e) && IdsApart(e) && Balanced(e, s) && RestsWithinOriginal(s)
    requires RowsAgree(rows, e)
    ensures RowsAgree(ProjectOrders(rows, SettlementEvents(e, s)), s.Apply(e))
  {
    hide IdAgrees, Balanced, BooksSound, IdsApart, MakesIn, ProjectOrders, SettlementEvents, Settlement.Apply;
    forall id: OrderId ensures IdAgrees(ProjectOrders(rows, SettlementEvents(e, s)), s.Apply(e), id) {
      assert IdAgrees(rows, e, id);
      if id == e.nextId {
        NewIdAgrees(rows, e, s);
      } else if MakesIn(s.x.trades, id) {
        MakerIdAgrees(rows, e, s, id);
      } else {
        OtherIdAgrees(rows, e, s, id);
      }
    }
  }

  lemma CancelKeepsRows(rows: OrderTable, e: Engine, a: Asset, id: OrderId, user: UserId)
    requires BooksSound(e) && IdsApart(e) && Cancel(e.BookOf(a), id, user).Ok?
    requires RowsAgree(rows, e)
    ensures var step := CancelIn(e, a, Cancel(e.BookOf(a), id, user).value);
            RowsAgree(ProjectOrders(rows, step.events), step.state)
  {
    var step := CancelIn(e, a, Cancel(e.BookOf(a), id, user).value);
    forall x: OrderId ensures IdAgrees(ProjectOrders(rows, step.events), step.state, x) {
      assert IdAgrees(rows, e, x);
      CancelKeepsId(rows, e, a, id, user, x);
    }
  }

  lemma CancelKeepsId(rows: OrderTable, e: Engine, a: Asset, id: OrderId, user: UserId, x: OrderId)
    requires BooksSound(e) && IdsApart(e) && Cancel(e.BookOf(a), id, user).Ok?
    requires IdAgrees(rows, e, x)
    ensures var step := CancelIn(e, a, Cancel(e.BookOf(a), id, user).value);
            IdAgrees(ProjectOrders(rows, step.events), step.state, x)
  {
    hide ProjectOrders, DepthEvent, WellFormed, Queues.Remove, Queues.Find;
    var removal := Cancel(e.BookOf(a), id, user).value;
    var step := CancelIn(e, a, removal);
    var o := removal.order;
    assert o.id == id by { LookupOfCancelled(e, a, id, user); }
    CancelShape(e, a, removal);
    CancelLookupIn(e, a, id, user, x);
    CancelRows(rows, e, a, removal);
    assert forall m: Asset :: m != a ==> step.state.BookOf(m).Lookup(x) == e.BookOf(m).Lookup(x);
    if x == id {
      assert e.BookOf(a).Has(id);
      assert forall m: Asset :: m != a ==> !e.BookOf(m).Has(id);
      assert RestsNowhere(step.state, id);
    } else {
      assert forall m: Asset :: step.state.BookOf(m).Lookup(x) == e.BookOf(m).Lookup(x);
    }
  }

  lemma LookupOfCancelled(e: Engine, a: Asset, id: OrderId, user: UserId)
    requires BooksSound(e) && Cancel(e.BookOf(a), id, user).Ok?
    ensures Cancel(e.BookOf(a), id, user).value.order.id == id
  {
    assert WellFormed(e.BookOf(a));
    LookupIsSound(e.BookOf(a), id);
  }

  lemma CancelLookupIn(e: Engine, a: Asset, id: OrderId, user: UserId, x: OrderId)
    requires BooksSound(e) && Cancel(e.BookOf(a), id, user).Ok?
    ensures Cancel(e.BookOf(a), id, user).value.book.Lookup(x) == if x == id then None else e.BookOf(a).Lookup(x)
  {
    assert WellFormed(e.BookOf(a));
    CancelLookup(e.BookOf(a), id, user, x);
  }

  lemma CancelRows(rows: OrderTable, e: Engine, a: Asset, removal: Removal)
    ensures var o := removal.order;
            ProjectOrders(rows, CancelIn(e, a, removal).events) == SetRemaining(rows, o.id, o.remaining, Cancelled)
  {
    var o := removal.order;
    var cancelled, depth := OrderCancelled(o.id, o.user, o.remaining), DepthEvent(a, removal.book);
    assert CancelIn(e, a, removal).events == [cancelled] + [depth];
    ProjectOrdersConcat(rows, [cancelled], [depth]);
    ProjectOne(rows, cancelled);
    ProjectOne(ProjectOrders(rows, [cancelled]), depth);
  }

  // ----- Every command, every run -----

  lemma SameBooksAgree(rows: OrderTable, e: Engine, after: Engine)
    requires RowsAgree(rows, e) && after == e.(accounts := after.accounts)
    ensures RowsAgree(rows, after)
  {
    hide Book.Lookup;
    assert forall a: Asset :: after.BookOf(a) == e.BookOf(a);
    forall id: OrderId ensures IdAgrees(rows, after, id) {
      assert IdAgrees(rows, e, id);
      assert RestsNowhere(after, id) ==> RestsNowhere(e, id) by {
        if RestsNowhere(after, id) {
          assert forall a: Asset :: after.BookOf(a) == e.BookOf(a) && !after.BookOf(a).Has(id);
        }
      }
    }
  }

  lemma QuietCommands(rows: OrderTable, e: Engine, c: Command)
    requires BooksSound(e) && !c.Reset? && SettlementIn(e, c).None? && CancelledIn(e, c).None?
    ensures ProjectOrders(rows, Dispatch(e, c).events) == rows
  {
    hide HandleOrder, HandleCancel, SettlementOf, CancelMarket;
    match c
    case PlaceOrder(m) => OrderIsSettlement(e, m);
    case CancelOrder(user, id) => CancelTakesEffect(e, user, id);
    case Onramp(user, qty) => ProjectOne(rows, FundingExecuted(user, Usd, qty));
    case Deposit(user, asset, qty) => ProjectOne(rows, FundingExecuted(user, Base(asset), qty));
    case _ =>
  }

  lemma CommandKeepsRows(rows: OrderTable, e: Engine, c: Command)
    requires BooksSound(e) && IdsApart(e) && !c.Reset?
    requires RowsAgree(rows, e)
    ensures RowsAgree(ProjectOrders(rows, Dispatch(e, c).events), Dispatch(e, c).state)
  {
    hide RowsAgree, BooksSound, IdsApart, Balanced, Dispatch, ProjectOrders, Settlement.Apply, SettlementOf,
      CancelMarket;
    CommandEffect(e, c);
    if SettlementIn(e, c).Some? {
      var s := SettlementIn(e, c).value;
      SettlementRestsWithinOriginal(e, c.msg);
      SettlementKeepsRows(rows, e, s);
    } else if CancelledIn(e, c).Some? {
      CancelKeepsRows(rows, e, CancelledIn(e, c).value, c.orderId, c.user);
    } else {
      QuietCommands(rows, e, c);
      SameBooksAgree(rows, e, Dispatch(e, c).state);
    }
  }

  /**
   * The orders table agrees with the books: after folding every event of a reset-free run, each resting order
   * of each market has its row with its user, side, price, market and remaining quantity, open or partially
   * filled, and every other row is filled with nothing left or cancelled.
   */
  lemma {:induction false} OrdersAgree(fees: FeeSchedule, log: seq<Command>)
    requires ResetFree(log)
    ensures RowsAgree(ProjectAll(EMPTY_TABLES, Emitted(Initial(fees), log)).orders, Run(Initial(fees), log))
    decreases |log|
  {
    hide Dispatch, Inv, Projection.Project, ProjectAll, ProjectOrders;
    if log == [] {
      NothingProjected(fees);
    } else {
      var before, last := log[..|log| - 1], log[|log| - 1];
      var e := Run(Initial(fees), before);
      var t := ProjectAll(EMPTY_TABLES, Emitted(Initial(fees), before));
      OrdersAgree(fees, before);
      InitialInv(fees);
      RunKeepsInv(Initial(fees), before);
      InvBooks(e);
      ProjectConcat(EMPTY_TABLES, Emitted(Initial(fees), before), Dispatch(e, last).events);
      OrdersAreProjected(t, Dispatch(e, last).events);
      CommandKeepsRows(t.orders, e, last);
    }
  }

  lemma NothingProjected(fees: FeeSchedule)
    ensures RowsAgree(ProjectAll(EMPTY_TABLES, []).orders, Initial(fees))
  {
  }
}
