/**
 * The bound on market-buy quotes cannot be dropped: for every fee schedule there is a run in which each limit order
 * and all that was funded fit, and yet the quote of a market buy does not.
 */
module Quotes {
  import opened Types
  import opened Fees
  import opened Matching
  import opened Queues
  import opened Books
  import opened Ledger
  import opened Engine
  import opened Claims
  import opened Solvency
  import opened Runs
  import opened Conservation
  import opened Overflow
  import opened Arithmetic

  /** The highest price at which one unit is admissible, and one more unit than 64 bits hold at that price. */
  const TOP_PRICE: Price := U64_MAX / BPS_SCALE
  const UNITS: nat := BPS_SCALE + 1

  /** One user offers units at the highest price, one order each. */
  function OfferLog(n: nat): seq<Command> {
    if n == 0 then [Deposit(2, Sol, UNITS)] else OfferLog(n - 1) + [GtcOrder(2, Ask, TOP_PRICE, 1)]
  }

  function BuyAll(): Command {
    PlaceOrder(OrderMsg(1, Some(Sol), Some(Bid), Market, TOP_PRICE, UNITS, None, Ioc))
  }

  predicate Offered(q: seq<Order>) {
    forall i :: 0 <= i < |q| ==> q[i].price == TOP_PRICE && q[i].remaining == 1
  }

  /** n units are on offer, nobody bids, and the user still has the others. */
  ghost predicate OffersRest(e: Engine, n: nat) {
    && Inv(e) && e.sol.bids == [] && |e.sol.asks| == n && Offered(e.sol.asks)
    && Get(e.accounts, Account(2, Base(Sol))).available >= UNITS - n
  }

  lemma AfterDeposit(fees: FeeSchedule)
    ensures OffersRest(Run(Initial(fees), OfferLog(0)), 0)
  {
    InitialInv(fees);
    assert OfferLog(0)[..0] == [];
    assert Run(Initial(fees), []) == Initial(fees);
    RunKeepsInv(Initial(fees), OfferLog(0));
  }

  lemma OfferExecution(b: Book, id: OrderId)
    requires b.bids == [] && Offered(b.asks)
    ensures var x := PlaceLimit(b, id, 2, Ask, TOP_PRICE, 1, Gtc);
            && x.book.bids == [] && |x.book.asks| == |b.asks| + 1 && Offered(x.book.asks) && x.trades == []
    ensures FillsOf(b, Ask, Some(TOP_PRICE), 1) == []
  {
    var o := Order(id, 2, Ask, TOP_PRICE, 1);
    var k := InsertPosition(b.asks, o);
  }

  lemma AfterOffer(e: Engine, n: nat)
    requires OffersRest(e, n) && n < UNITS
    ensures OffersRest(Dispatch(e, GtcOrder(2, Ask, TOP_PRICE, 1)).state, n + 1)
  {
    hide Inv, LimitRefund, PlaceLimit, Settle, HandleOrder, TakerDebits, BooksSound, WellFormed, Offered;
    var c := GtcOrder(2, Ask, TOP_PRICE, 1);
    OfferExecution(e.sol, e.nextId);
    var s := LimitSettlement(e, 2, Sol, Ask, TOP_PRICE, 1, Gtc);
    assert SettlementOf(e, c.msg) == Some(s);
    SettledState(e, c);
    SettleAccounts(e, s);
    assert s.Apply(e).BookOf(Sol) == s.x.book;
    ApplyMoves(e, s, Account(2, Base(Sol)));
  }

  lemma OneOfferMore(n: nat)
    requires n > 0
    ensures OfferLog(n) == OfferLog(n - 1) + [GtcOrder(2, Ask, TOP_PRICE, 1)]
  {
  }

  lemma {:induction false} AfterOffers(fees: FeeSchedule, n: nat)
    requires n <= UNITS
    ensures OffersRest(Run(Initial(fees), OfferLog(n)), n)
  {
    hide Run, Dispatch, OffersRest, OfferLog;
    if n == 0 {
      AfterDeposit(fees);
    } else {
      OneOfferMore(n);
      AfterOffers(fees, n - 1);
      OneCommandFurther(Initial(fees), OfferLog(n - 1), GtcOrder(2, Ask, TOP_PRICE, 1));
      AfterOffer(Run(Initial(fees), OfferLog(n - 1)), n - 1);
    }
  }

  lemma {:induction false} OffersAreQuoted(q: seq<Order>)
    requires Offered(q)
    ensures FilledCost(Consume(q, Some(TOP_PRICE), |q|).fills) == |q| * TOP_PRICE
  {
    if q != [] {
      var r := Consume(q, Some(TOP_PRICE), |q|);
      assert r.fills[1..] == Consume(q[1..], Some(TOP_PRICE), |q| - 1).fills;
      assert forall i :: 0 <= i < |q| - 1 ==> q[1..][i] == q[i + 1];
      OffersAreQuoted(q[1..]);
      assert Cost(TOP_PRICE, 1) == TOP_PRICE;
    }
  }

  lemma {:induction false} OffersFit(n: nat)
    requires n <= UNITS
    ensures |OfferLog(n)| == n + 1
    ensures forall i :: 0 <= i < |OfferLog(n)| ==> CommandFits(OfferLog(n)[i])
    ensures forall cur: Currency :: FundedOver(OfferLog(n), cur) == if cur == Base(Sol) then UNITS else 0
  {
    if n == 0 {
      assert OfferLog(0)[..0] == [];
      assert FundedOver([], Usd) == 0;
    } else {
      OffersFit(n - 1);
      assert OfferLog(n)[..n] == OfferLog(n - 1);
    }
  }

  lemma UnfundedCommandFits(log: seq<Command>, c: Command)
    requires LogFits(log) && |log| + 1 < U64_MAX && CommandFits(c)
    requires forall cur: Currency :: Funded(c, cur) == 0
    ensures LogFits(log + [c])
  {
    assert (log + [c])[..|log|] == log;
    forall cur: Currency ensures Fits(FundedOver(log + [c], cur)) {
      assert Funded(c, cur) == 0 && Fits(FundedOver(log, cur));
    }
  }

  /** Every limit order and all funding fit, for whatever fees, but the quote for all that is on offer does not. */
  lemma QuotesCanOverflow(fees: FeeSchedule)
    ensures var log := OfferLog(UNITS);
            && LogFits(log + [BuyAll()])
            && !QuoteFits(Run(Initial(fees), log), BuyAll())
            && (fees.Bounded() ==> !CommandComputed(Run(Initial(fees), log), BuyAll()))
  {
    hide Run, Dispatch, OfferLog, FundedOver, CommandComputed, StateFits;
    var log := OfferLog(UNITS);
    OffersFit(UNITS);
    UnfundedCommandFits(log, BuyAll());
    AfterOffers(fees, UNITS);
    OffersAreQuoted(Run(Initial(fees), log).sol.asks);
    if fees.Bounded() {
      assert (log + [BuyAll()])[..|log|] == log;
      NothingOverflows(fees, log + [BuyAll()], |log|);
    }
  }
}
