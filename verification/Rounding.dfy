/**
 * Locked USD is exactly what the resting bids need over every run for exactly the maker fees that never round;
 * otherwise a bid filled in two parts leaves a unit locked that no order claims.
 */
module Rounding {
  import opened Types
  import opened Fees
  import opened Matching
  import opened Books
  import opened Ledger
  import opened Engine
  import opened Claims
  import opened Solvency
  import opened Runs
  import opened Conservation

  // ----- A quantity that rounds -----

  /** The least amount of which the rate's part below 100% makes a whole unit. */
  function Threshold(bps: nat): nat
    requires bps % BPS_SCALE != 0
  {
    (BPS_SCALE + bps % BPS_SCALE - 1) / (bps % BPS_SCALE)
  }

  lemma ThresholdIsLeast(part: nat)
    requires 0 < part < BPS_SCALE
    ensures var m := (BPS_SCALE + part - 1) / part;
            m >= 2 && (m - 1) * part < BPS_SCALE <= m * part < 2 * BPS_SCALE
  {
    var sum := BPS_SCALE + part - 1;
    var m := sum / part;
    assert sum == m * part + sum % part;
    assert (m - 1) * part == m * part - part;
    assert m <= 1 ==> m * part <= part;
  }

  lemma FeeAboveWholeRate(bps: nat, amount: nat)
    ensures Fee(bps, amount) == amount * (bps / BPS_SCALE) + amount * (bps % BPS_SCALE) / BPS_SCALE
  {
    var rate, part := bps / BPS_SCALE, bps % BPS_SCALE;
    assert bps == rate * BPS_SCALE + part;
    assert amount * bps == (amount * rate) * BPS_SCALE + amount * part;
    AddWholeUnits(amount * rate, amount * part);
  }

  lemma AddWholeUnits(n: nat, rest: nat)
    ensures (n * BPS_SCALE + rest) / BPS_SCALE == n + rest / BPS_SCALE
  {
  }

  /** Filled in one unit and the rest, the threshold pays one unit less in fees than it reserves. */
  lemma ThresholdRounds(bps: nat)
    requires bps % BPS_SCALE != 0
    ensures var m := Threshold(bps);
            m >= 2 && Fee(bps, m) == Fee(bps, m - 1) + Fee(bps, 1) + 1
  {
    var m, rate, part := Threshold(bps), bps / BPS_SCALE, bps % BPS_SCALE;
    ThresholdIsLeast(part);
    FeeAboveWholeRate(bps, m);
    FeeAboveWholeRate(bps, m - 1);
    FeeAboveWholeRate(bps, 1);
    assert m * rate == (m - 1) * rate + rate;
  }

  // ----- The run -----

  /** The second user sells the first user's bid empty, in two parts. */
  function StrandingLog(fees: FeeSchedule, m: Quantity): seq<Command>
    requires m > 0
  {
    FundingLog(fees, 1, m) + [GtcOrder(1, Bid, 1, m)] + [GtcOrder(2, Ask, 1, m - 1)] + [GtcOrder(2, Ask, 1, 1)]
  }

  function FirstBid(remaining: Quantity): Order {
    Order(1, 1, Bid, 1, remaining)
  }

  /** One bid with this much left is all that rests, and the second user still has as much to sell. */
  ghost predicate OneBidRests(fees: FeeSchedule, e: Engine, remaining: Quantity, locked: int) {
    && Inv(e) && e.fees == fees && e.nextId >= 2
    && e.sol.bids == (if remaining > 0 then [FirstBid(remaining)] else []) && e.sol.asks == []
    && e.btc.bids == [] && e.btc.asks == [] && e.eth.bids == [] && e.eth.asks == []
    && Get(e.accounts, Account(1, Usd)).locked == locked
    && Get(e.accounts, Account(2, Base(Sol))).available >= remaining
  }

  lemma FundedIsSound(fees: FeeSchedule, m: Quantity)
    ensures Inv(FundedState(fees, 1, m))
  {
    AfterFunding(fees, 1, m);
    InitialInv(fees);
    RunKeepsInv(Initial(fees), FundingLog(fees, 1, m));
  }

  lemma BidExecution(b: Book, m: Quantity)
    requires b.bids == [] && b.asks == [] && m > 0
    ensures var x := PlaceLimit(b, 1, 1, Bid, 1, m, Gtc);
            x.trades == [] && x.resting == Some(FirstBid(m)) && x.book.bids == [FirstBid(m)] && x.book.asks == []
    ensures FillsOf(b, Bid, Some(1), m) == []
  {
  }

  lemma AfterBid(fees: FeeSchedule, m: Quantity)
    requires m > 0
    ensures OneBidRests(fees, Dispatch(FundedState(fees, 1, m), GtcOrder(1, Bid, 1, m)).state, m,
                        CancelRefund(fees, FirstBid(m)))
  {
    hide Inv, LimitLock, LimitRefund, PlaceLimit, CancelRefund, Settle, HandleOrder, TakerDebits, BooksSound,
      WellFormed;
    var e := FundedState(fees, 1, m);
    FundedIsSound(fees, m);
    SoundBooks(e);
    BidExecution(e.sol, m);
    var s := LimitSettlement(e, 1, Sol, Bid, 1, m, Gtc);
    assert SettlementOf(e, GtcOrder(1, Bid, 1, m).msg) == Some(s);
    SettledState(e, GtcOrder(1, Bid, 1, m));
    SettleAccounts(e, s);
    SettlementBalances(e, s, Account(1, Usd));
    SettlementBalances(e, s, Account(2, Base(Sol)));
    assert s.Apply(e).BookOf(Sol) == s.x.book;
    assert s.Apply(e).BookOf(Btc) == e.BookOf(Btc) && s.Apply(e).BookOf(Eth) == e.BookOf(Eth);
  }

  lemma AskExecution(b: Book, id: OrderId, remaining: Quantity, qty: Quantity)
    requires b.bids == [FirstBid(remaining)] && b.asks == [] && 0 < qty <= remaining
    ensures var x := PlaceLimit(b, id, 2, Ask, 1, qty, Gtc);
            && x.resting == None && x.book.asks == []
            && x.book.bids == (if qty < remaining then [FirstBid(remaining - qty)] else [])
            && x.trades == [Trade(1, 2, 1, qty, id, 1, Ask)]
    ensures FillsOf(b, Ask, Some(1), qty) == [Fill(FirstBid(remaining), qty)]
  {
    var q := b.bids;
    assert q[1..] == [];
    assert Consume([], Some(1), qty - remaining + remaining - qty) == Outcome([], [], 0);
    var fills := [Fill(FirstBid(remaining), qty)];
    assert Consume(q, Some(1), qty).fills == fills;
    assert fills[1..] == [] && Trades(id, 2, Ask, []) == [];
  }

  lemma OneMakerPays(fees: FeeSchedule, remaining: Quantity, qty: Quantity)
    ensures MakerDebits(fees, Sol, [Fill(FirstBid(remaining), qty)], Account(1, Usd)) == qty + fees.MakerFee(qty)
    ensures MakerDebits(fees, Sol, [Fill(FirstBid(remaining), qty)], Account(2, Base(Sol))) == 0
  {
    var fills := [Fill(FirstBid(remaining), qty)];
    assert fills[1..] == [] && Cost(1, qty) == qty;
  }

  lemma NoCreditToSeller(fees: FeeSchedule, id: OrderId, qty: Quantity)
    ensures Credits(fees, Sol, [Trade(1, 2, 1, qty, id, 1, Ask)], Account(2, Base(Sol))) == 0
  {
    var trades := [Trade(1, 2, 1, qty, id, 1, Ask)];
    assert trades[1..] == [];
  }

  lemma AfterAsk(fees: FeeSchedule, e: Engine, remaining: Quantity, locked: int, qty: Quantity)
    requires OneBidRests(fees, e, remaining, locked) && 0 < qty <= remaining
    ensures OneBidRests(fees, Dispatch(e, GtcOrder(2, Ask, 1, qty)).state, remaining - qty,
                        locked - qty - fees.MakerFee(qty))
  {
    hide Inv, LimitRefund, PlaceLimit, Settle, HandleOrder, TakerDebits, MakerDebits, Credits, BooksSound, WellFormed,
      FeeSchedule.MakerFee;
    SoundBooks(e);
    AskExecution(e.sol, e.nextId, remaining, qty);
    var s := LimitSettlement(e, 2, Sol, Ask, 1, qty, Gtc);
    AskRefundsNothing(e, qty);
    assert SettlementOf(e, GtcOrder(2, Ask, 1, qty).msg) == Some(s);
    SettledState(e, GtcOrder(2, Ask, 1, qty));
    SettleAccounts(e, s);
    OneMakerPays(fees, remaining, qty);
    NoCreditToSeller(fees, e.nextId, qty);
    SettlementBalances(e, s, Account(1, Usd));
    SettlementBalances(e, s, Account(2, Base(Sol)));
    assert s.Apply(e).BookOf(Sol) == s.x.book;
    assert s.Apply(e).BookOf(Btc) == e.BookOf(Btc) && s.Apply(e).BookOf(Eth) == e.BookOf(Eth);
  }

  lemma AskRefundsNothing(e: Engine, qty: Quantity)
    ensures var s := LimitSettlement(e, 2, Sol, Ask, 1, qty, Gtc); s.lock == qty && s.refund == 0
  {
    hide PlaceLimit;
  }

  lemma EmptyBooksClaimNothing(fees: FeeSchedule, e: Engine, locked: int)
    requires OneBidRests(fees, e, 0, locked)
    ensures TotalClaims(e, Account(1, Usd)) == 0
  {
    hide Inv;
  }

  /** No order rests any more, but one unit of the first user's USD is still locked. */
  lemma RoundingStrandsAUnit(fees: FeeSchedule)
    requires fees.MakerFeesRound()
    ensures var log := StrandingLog(fees, Threshold(fees.makerBps));
            var e := Run(Initial(fees), log);
            && ResetFree(log)
            && (forall a: Asset :: e.BookOf(a).bids == [])
            && TotalClaims(e, Account(1, Usd)) == 0
            && Get(e.accounts, Account(1, Usd)).locked == 1
  {
    hide Dispatch, Run, Inv, TotalClaims, CreatedOver, CreatedIn, Fee;
    var m := Threshold(fees.makerBps);
    ThresholdRounds(fees.makerBps);
    var funded := FundingLog(fees, 1, m);
    var bid, first, second := GtcOrder(1, Bid, 1, m), GtcOrder(2, Ask, 1, m - 1), GtcOrder(2, Ask, 1, 1);
    AfterFunding(fees, 1, m);
    OneCommandFurther(Initial(fees), funded, bid);
    OneCommandFurther(Initial(fees), funded + [bid], first);
    OneCommandFurther(Initial(fees), funded + [bid] + [first], second);
    var locked := CancelRefund(fees, FirstBid(m));
    assert locked == m + Fee(fees.makerBps, m) by { assert Cost(1, m) == m; }
    AfterBid(fees, m);
    AfterAsk(fees, Run(Initial(fees), funded + [bid]), m, locked, m - 1);
    AfterAsk(fees, Run(Initial(fees), funded + [bid] + [first]), 1, locked - (m - 1) - fees.MakerFee(m - 1), 1);
    EmptyBooksClaimNothing(fees, Run(Initial(fees), StrandingLog(fees, m)), 1);
  }

  ghost predicate LocksExactly(fees: FeeSchedule, log: seq<Command>, user: UserId) {
    ResetFree(log) ==>
      Get(Run(Initial(fees), log).accounts, Account(user, Usd)).locked ==
      TotalClaims(Run(Initial(fees), log), Account(user, Usd))
  }

  /** Locked USD is what the resting bids need, over every run, exactly when the maker fee never rounds. */
  lemma LocksAreExactExactlyWhen(fees: FeeSchedule)
    ensures (forall log, user :: LocksExactly(fees, log, user)) <==> !fees.MakerFeesRound()
  {
    hide Run, TotalClaims;
    if fees.MakerFeesRound() {
      RoundingStrandsAUnit(fees);
      assert !LocksExactly(fees, StrandingLog(fees, Threshold(fees.makerBps)), 1);
    } else {
      forall log, user ensures LocksExactly(fees, log, user) {
        if ResetFree(log) {
          LockedUsdIsTight(fees, log, user);
        }
      }
    }
  }
}
