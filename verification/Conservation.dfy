/**
 * Conservation over runs holds for exactly the fee schedules whose rates are at most 100%: otherwise two users
 * who are funded for one trade make the exchange create money by making it.
 */
module Conservation {
  import opened Types
  import opened Fees
  import opened Matching
  import opened Books
  import opened Ledger
  import opened Projection
  import opened Engine
  import opened Runs

  /** The price at which a rate above 100% exceeds the value of one unit. */
  const PRICE: Price := BPS_SCALE

  function GtcOrder(user: UserId, side: Side, price: Price, qty: Quantity): Command {
    PlaceOrder(OrderMsg(user, Some(Sol), Some(side), OrderType.Limit, price, qty, None, Gtc))
  }

  function OneUnit(user: UserId, side: Side): Command {
    GtcOrder(user, side, PRICE, 1)
  }

  /** The second user holds the units, the first the USD that a bid for them locks. */
  function FundingLog(fees: FeeSchedule, price: Price, qty: Quantity): seq<Command> {
    [Deposit(2, Sol, qty)] + [Onramp(1, LimitLock(fees, Bid, price, qty))]
  }

  /** The user on each side. */
  function Trader(side: Side): UserId {
    if side.Bid? then 1 else 2
  }

  /** The maker's order rests, then the taker's meets it. */
  function OneTradeLog(fees: FeeSchedule, maker: Side): seq<Command> {
    FundingLog(fees, PRICE, 1) + [OneUnit(Trader(maker), maker)] + [OneUnit(Trader(maker.Opposite()), maker.Opposite())]
  }

  lemma OneCommandFurther(e: Engine, log: seq<Command>, c: Command)
    ensures Run(e, log + [c]) == Dispatch(Run(e, log), c).state
    ensures CreatedOver(e, log + [c]) == CreatedOver(e, log) + CreatedIn(Run(e, log), c)
  {
    hide Dispatch, CreatedIn;
    assert (log + [c])[..|log + [c]| - 1] == log;
  }

  function FundedState(fees: FeeSchedule, price: Price, qty: Quantity): Engine {
    Initial(fees).(accounts := map[
      Account(2, Base(Sol)) := Balance(qty, 0),
      Account(1, Usd) := Balance(LimitLock(fees, Bid, price, qty), 0)])
  }

  lemma AfterFunding(fees: FeeSchedule, price: Price, qty: Quantity)
    ensures Run(Initial(fees), FundingLog(fees, price, qty)) == FundedState(fees, price, qty)
  {
    hide LimitLock;
    var usd := LimitLock(fees, Bid, price, qty);
    OneCommandFurther(Initial(fees), [], Deposit(2, Sol, qty));
    OneCommandFurther(Initial(fees), [Deposit(2, Sol, qty)], Onramp(1, usd));
    assert [] + [Deposit(2, Sol, qty)] == [Deposit(2, Sol, qty)];
    assert Run(Initial(fees), []) == Initial(fees);
  }

  function MakerOrder(maker: Side): Order {
    Order(1, Trader(maker), maker, PRICE, 1)
  }

  /** Once the maker's order rests, the taker still has what the matching order locks. */
  ghost predicate MakerRests(fees: FeeSchedule, maker: Side, e: Engine) {
    var taker := maker.Opposite();
    && e.fees == fees && e.sol.SideOf(maker) == [MakerOrder(maker)]
    && LimitLock(fees, taker, PRICE, 1) <= Get(e.accounts, Funding(Trader(taker), taker, Sol)).available
  }

  lemma EmptyBookExecution(b: Book, id: OrderId, user: UserId, side: Side)
    requires b.SideOf(Bid) == [] && b.SideOf(Ask) == []
    ensures var x := PlaceLimit(b, id, user, side, PRICE, 1, Gtc);
            x.trades == [] && x.resting == Some(Order(id, user, side, PRICE, 1)) &&
            x.book.SideOf(side) == [Order(id, user, side, PRICE, 1)]
  {
  }

  lemma AfterMaker(fees: FeeSchedule, maker: Side)
    ensures MakerRests(fees, maker, Dispatch(FundedState(fees, PRICE, 1), OneUnit(Trader(maker), maker)).state)
  {
    hide LimitLock, PlaceLimit, LimitRefund;
    var e := FundedState(fees, PRICE, 1);
    var user := Trader(maker);
    var k := Funding(user, maker, Sol);
    var x := PlaceLimit(e.sol, 1, user, maker, PRICE, 1, Gtc);
    var lock := LimitLock(fees, maker, PRICE, 1);
    EmptyBookExecution(e.sol, 1, user, maker);
    AskLocksTheUnit(fees);
    var refund := LimitRefund(fees, maker, lock, 1, Gtc, x);
    var after := Settle(e, Sol, k, lock, x, refund);
    assert Dispatch(e, OneUnit(user, maker)).state == after;
  }

  lemma AskLocksTheUnit(fees: FeeSchedule)
    ensures LimitLock(fees, Ask, PRICE, 1) == 1
  {
  }

  function OneTrade(maker: Side): Trade {
    Trade(1, 2, PRICE, 1, 2, 1, maker.Opposite())
  }

  lemma TakerTrades(fees: FeeSchedule, maker: Side, e: Engine)
    requires MakerRests(fees, maker, e) && e.nextId == 2
    ensures CreatedIn(e, OneUnit(Trader(maker.Opposite()), maker.Opposite())) == Created(fees, OneTrade(maker))
  {
    hide LimitLock, LimitRefund, Created;
    var taker := maker.Opposite();
    var q := e.sol.SideOf(maker);
    var fills := [Fill(MakerOrder(maker), 1)];
    assert q[1..] == [] && Consume(q, Some(PRICE), 1) == Outcome(fills, [], 0) by {
      assert Consume(q[1..], Some(PRICE), 0) == Outcome([], [], 0);
    }
    var trades := Trades(2, Trader(taker), taker, fills);
    assert fills[1..] == [] && Trades(2, Trader(taker), taker, []) == [];
    assert TradeOf(2, Trader(taker), taker, fills[0]) == OneTrade(maker);
    assert trades == [OneTrade(maker)];
    assert CreatedBy(fees, trades) == Created(fees, OneTrade(maker)) by {
      assert trades[1..] == [];
    }
  }

  lemma RateAboveAllCreates(fees: FeeSchedule, maker: Side)
    requires if maker.Ask? then fees.makerBps > BPS_SCALE else fees.takerBps > BPS_SCALE
    ensures Created(fees, OneTrade(maker)) > 0
  {
    var t := OneTrade(maker);
    assert t.Value() == BPS_SCALE;
    assert Fee(fees.makerBps, BPS_SCALE) == fees.makerBps && Fee(fees.takerBps, BPS_SCALE) == fees.takerBps;
  }

  /** The trade that each log ends with is settled between fully locked funds, and creates money. */
  lemma OneTradeCreatesMoney(fees: FeeSchedule, maker: Side)
    requires if maker.Ask? then fees.makerBps > BPS_SCALE else fees.takerBps > BPS_SCALE
    ensures ResetFree(OneTradeLog(fees, maker))
    ensures CreatedOver(Initial(fees), OneTradeLog(fees, maker)) > 0
  {
    hide Dispatch, CreatedIn, CreatedOver, Run, MakerRests, LimitLock;
    var funded := FundingLog(fees, PRICE, 1);
    var first, second := OneUnit(Trader(maker), maker), OneUnit(Trader(maker.Opposite()), maker.Opposite());
    OneCommandFurther(Initial(fees), funded, first);
    OneCommandFurther(Initial(fees), funded + [first], second);
    AfterFunding(fees, PRICE, 1);
    AfterMaker(fees, maker);
    var e := Dispatch(FundedState(fees, PRICE, 1), first).state;
    MakerTookOneId(fees, maker);
    TakerTrades(fees, maker, e);
    RateAboveAllCreates(fees, maker);
  }

  lemma MakerTookOneId(fees: FeeSchedule, maker: Side)
    ensures Dispatch(FundedState(fees, PRICE, 1), OneUnit(Trader(maker), maker)).state.nextId == 2
  {
    hide LimitLock, PlaceLimit, LimitRefund, ApplyTrades;
    AskLocksTheUnit(fees);
  }

  ghost predicate ConservesUsd(fees: FeeSchedule, log: seq<Command>) {
    ResetFree(log) ==> Supply(Run(Initial(fees), log).accounts, Usd) == FundedOver(log, Usd)
  }

  /** USD is conserved over every run exactly when no fee rate is above 100%. */
  lemma RunsConserveExactlyWhen(fees: FeeSchedule)
    ensures (forall log :: ConservesUsd(fees, log)) <==> fees.Bounded()
  {
    if fees.Bounded() {
      forall log ensures ConservesUsd(fees, log) {
        if ResetFree(log) {
          SupplyIsConserved(fees, log, Usd);
        }
      }
    } else {
      var maker := if fees.makerBps > BPS_SCALE then Ask else Bid;
      OneTradeCreatesMoney(fees, maker);
      SupplyIsAccountedFor(fees, OneTradeLog(fees, maker), Usd);
      assert !ConservesUsd(fees, OneTradeLog(fees, maker));
    }
  }

  ghost predicate UsdRowsBalance(fees: FeeSchedule, log: seq<Command>) {
    ResetFree(log) ==> CurrencyTotal(ProjectAll(EMPTY_TABLES, Emitted(Initial(fees), log)).ledger, Usd) == 0
  }

  /** The USD rows of the ledger table sum to zero over every run exactly when no fee rate is above 100%. */
  lemma LedgerBalancesExactlyWhen(fees: FeeSchedule)
    ensures (forall log :: UsdRowsBalance(fees, log)) <==> fees.Bounded()
  {
    hide ProjectAll, CurrencyTotal, Emitted, Run, CreatedOver;
    if fees.Bounded() {
      forall log ensures UsdRowsBalance(fees, log) {
        if ResetFree(log) {
          LedgerAgrees(fees, log, Account(TREASURY, Usd), Usd);
        }
      }
    } else {
      var maker := if fees.makerBps > BPS_SCALE then Ask else Bid;
      OneTradeCreatesMoney(fees, maker);
      LedgerAgrees(fees, OneTradeLog(fees, maker), Account(TREASURY, Usd), Usd);
      assert !UsdRowsBalance(fees, OneTradeLog(fees, maker));
    }
  }
}
