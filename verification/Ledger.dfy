/**
 * The balance ledger. Every balance is an available and a locked amount of one currency held by one user;
 * the engine's two balance maps are one map keyed by user and currency. Amounts are integers here: that no
 * subtraction ever takes one below zero is a theorem about reachable states, not a property of the type.
 */
module Ledger {
  import opened Types
  import opened Fees

  datatype Account = Account(user: UserId, currency: Currency)

  datatype Balance = Balance(available: int, locked: int)

  type Accounts = map<Account, Balance>

  const TREASURY: UserId := 0

  function Get(a: Accounts, k: Account): Balance {
    if k in a then a[k] else Balance(0, 0)
  }

  /** Everything an account holds, available or locked. */
  function Holding(a: Accounts, k: Account): int {
    Get(a, k).available + Get(a, k).locked
  }

  /** Create the account if it is missing, then add to both of its parts. */
  function Adjust(a: Accounts, k: Account, available: int, locked: int): Accounts {
    a[k := Balance(Get(a, k).available + available, Get(a, k).locked + locked)]
  }

  // ----- Settling one trade -----

  datatype FillFees = FillFees(buyer: nat, seller: nat)

  function FeesOf(fees: FeeSchedule, t: Trade): FillFees {
    if t.takerSide.Bid? then
      FillFees(fees.TakerFee(t.Value()), fees.MakerFee(t.Value()))
    else
      FillFees(fees.MakerFee(t.Value()), fees.TakerFee(t.Value()))
  }

  function BuyerPays(fees: FeeSchedule, t: Trade): nat {
    t.Value() + FeesOf(fees, t).buyer
  }

  function SellerGets(fees: FeeSchedule, t: Trade): nat {
    SaturatingSub(t.Value(), FeesOf(fees, t).seller)
  }

  function TotalFee(fees: FeeSchedule, t: Trade): nat {
    FeesOf(fees, t).buyer + FeesOf(fees, t).seller
  }

  function ApplyFill(a: Accounts, fees: FeeSchedule, asset: Asset, t: Trade): Accounts {
    var paid := Adjust(a, Account(t.buyer, Usd), 0, 0 - BuyerPays(fees, t));
    var received := Adjust(paid, Account(t.buyer, Base(asset)), t.qty, 0);
    var delivered := Adjust(received, Account(t.seller, Base(asset)), 0, 0 - t.qty);
    var credited := Adjust(delivered, Account(t.seller, Usd), SellerGets(fees, t), 0);
    if TotalFee(fees, t) > 0 then Adjust(credited, Account(TREASURY, Usd), TotalFee(fees, t), 0) else credited
  }

  function ApplyTrades(a: Accounts, fees: FeeSchedule, asset: Asset, trades: seq<Trade>): Accounts
    decreases trades
  {
    if trades == [] then a else ApplyTrades(ApplyFill(a, fees, asset, trades[0]), fees, asset, trades[1..])
  }

  /** What a trade takes out of the locked part of an account. */
  function Debit(fees: FeeSchedule, asset: Asset, t: Trade, k: Account): nat {
    (if k == Account(t.buyer, Usd) then BuyerPays(fees, t) else 0) +
    (if k == Account(t.seller, Base(asset)) then t.qty else 0)
  }

  /** What a trade adds to the available part of an account. */
  function Credit(fees: FeeSchedule, asset: Asset, t: Trade, k: Account): nat {
    (if k == Account(t.buyer, Base(asset)) then t.qty else 0) +
    (if k == Account(t.seller, Usd) then SellerGets(fees, t) else 0) +
    (if k == Account(TREASURY, Usd) then TotalFee(fees, t) else 0)
  }

  function Debits(fees: FeeSchedule, asset: Asset, trades: seq<Trade>, k: Account): nat {
    if trades == [] then 0 else Debit(fees, asset, trades[0], k) + Debits(fees, asset, trades[1..], k)
  }

  function Credits(fees: FeeSchedule, asset: Asset, trades: seq<Trade>, k: Account): nat {
    if trades == [] then 0 else Credit(fees, asset, trades[0], k) + Credits(fees, asset, trades[1..], k)
  }

  /** Settling a trade moves exactly the debit and the credit of each account, self-trades included. */
  lemma FillEffect(a: Accounts, fees: FeeSchedule, asset: Asset, t: Trade, k: Account)
    ensures Get(ApplyFill(a, fees, asset, t), k).locked == Get(a, k).locked - Debit(fees, asset, t, k)
    ensures Get(ApplyFill(a, fees, asset, t), k).available == Get(a, k).available + Credit(fees, asset, t, k)
  {
    hide BuyerPays, SellerGets, TotalFee;
  }

  lemma {:induction false} TradesEffect(a: Accounts, fees: FeeSchedule, asset: Asset, trades: seq<Trade>, k: Account)
    ensures var after := ApplyTrades(a, fees, asset, trades);
            && Get(after, k).locked == Get(a, k).locked - Debits(fees, asset, trades, k)
            && Get(after, k).available == Get(a, k).available + Credits(fees, asset, trades, k)
    decreases trades
  {
    hide ApplyFill, Debit, Credit;
    if trades != [] {
      FillEffect(a, fees, asset, trades[0], k);
      TradesEffect(ApplyFill(a, fees, asset, trades[0]), fees, asset, trades[1..], k);
    }
  }

  // ----- Supply -----

  function WorthIn(a: Accounts, k: Account, c: Currency): int {
    if k.currency == c then Holding(a, k) else 0
  }

  ghost function WorthOf(a: Accounts, keys: set<Account>, c: Currency): int {
    if keys == {} then 0 else
      var k :| k in keys;
      WorthIn(a, k, c) + WorthOf(a, keys - {k}, c)
  }

  /** Everything held of a currency, available or locked, by all users including the treasury. */
  ghost function Supply(a: Accounts, c: Currency): int {
    WorthOf(a, a.Keys, c)
  }

  lemma {:induction false} WorthWithout(a: Accounts, keys: set<Account>, k: Account, c: Currency)
    requires k in keys
    ensures WorthOf(a, keys, c) == WorthIn(a, k, c) + WorthOf(a, keys - {k}, c)
    decreases |keys|
  {
    var first :| first in keys && WorthOf(a, keys, c) == WorthIn(a, first, c) + WorthOf(a, keys - {first}, c);
    if first != k {
      WorthWithout(a, keys - {first}, k, c);
      WorthWithout(a, keys - {k}, first, c);
      assert keys - {first} - {k} == keys - {k} - {first};
    }
  }

  lemma {:induction false} WorthDependsOnKeys(a: Accounts, b: Accounts, keys: set<Account>, c: Currency)
    requires forall k :: k in keys ==> Get(a, k) == Get(b, k)
    ensures WorthOf(a, keys, c) == WorthOf(b, keys, c)
    decreases |keys|
  {
    if keys != {} {
      var k :| k in keys;
      WorthWithout(a, keys, k, c);
      WorthWithout(b, keys, k, c);
      WorthDependsOnKeys(a, b, keys - {k}, c);
    }
  }

  lemma AdjustSupply(a: Accounts, k: Account, available: int, locked: int, c: Currency)
    ensures Supply(Adjust(a, k, available, locked), c) ==
            Supply(a, c) + if k.currency == c then available + locked else 0
  {
    var b := Adjust(a, k, available, locked);
    var others := a.Keys - {k};
    assert b.Keys - {k} == others;
    WorthWithout(b, b.Keys, k, c);
    WorthDependsOnKeys(a, b, others, c);
    if k in a {
      WorthWithout(a, a.Keys, k, c);
    } else {
      assert others == a.Keys;
    }
  }

  /** How much a settlement creates: nothing, unless the seller's fee exceeds the value it is taken from. */
  function Created(fees: FeeSchedule, t: Trade): nat {
    SellerGets(fees, t) + FeesOf(fees, t).seller - t.Value()
  }

  function CreatedBy(fees: FeeSchedule, trades: seq<Trade>): nat {
    if trades == [] then 0 else Created(fees, trades[0]) + CreatedBy(fees, trades[1..])
  }

  /** Settling trades creates nothing exactly when no seller's fee exceeds the value it is taken from. */
  lemma {:induction false} NothingCreatedExactlyWhen(fees: FeeSchedule, trades: seq<Trade>)
    ensures CreatedBy(fees, trades) == 0 <==> forall t :: t in trades ==> FeesOf(fees, t).seller <= t.Value()
  {
    if trades != [] {
      NothingCreatedExactlyWhen(fees, trades[1..]);
      assert forall t :: t in trades <==> t == trades[0] || t in trades[1..];
    }
  }

  lemma FillSupply(a: Accounts, fees: FeeSchedule, asset: Asset, t: Trade, c: Currency)
    ensures Supply(ApplyFill(a, fees, asset, t), c) == Supply(a, c) + if c == Usd then Created(fees, t) else 0
  {
    var paid := Adjust(a, Account(t.buyer, Usd), 0, 0 - BuyerPays(fees, t));
    var received := Adjust(paid, Account(t.buyer, Base(asset)), t.qty, 0);
    var delivered := Adjust(received, Account(t.seller, Base(asset)), 0, 0 - t.qty);
    var credited := Adjust(delivered, Account(t.seller, Usd), SellerGets(fees, t), 0);
    AdjustSupply(a, Account(t.buyer, Usd), 0, 0 - BuyerPays(fees, t), c);
    AdjustSupply(paid, Account(t.buyer, Base(asset)), t.qty, 0, c);
    AdjustSupply(received, Account(t.seller, Base(asset)), 0, 0 - t.qty, c);
    AdjustSupply(delivered, Account(t.seller, Usd), SellerGets(fees, t), 0, c);
    AdjustSupply(credited, Account(TREASURY, Usd), TotalFee(fees, t), 0, c);
  }

  lemma BoundedFeesCreateNothing(fees: FeeSchedule, t: Trade)
    requires fees.Bounded()
    ensures Created(fees, t) == 0
    ensures FeesOf(fees, t).seller <= t.Value()
  {
    FeeBelowAmount(fees.makerBps, t.Value());
    FeeBelowAmount(fees.takerBps, t.Value());
  }

  lemma {:induction false} TradesSupply(a: Accounts, fees: FeeSchedule, asset: Asset, trades: seq<Trade>, c: Currency)
    ensures Supply(ApplyTrades(a, fees, asset, trades), c) ==
            Supply(a, c) + if c == Usd then CreatedBy(fees, trades) else 0
    decreases trades
  {
    hide Supply, Created, ApplyFill;
    if trades != [] {
      FillSupply(a, fees, asset, trades[0], c);
      TradesSupply(ApplyFill(a, fees, asset, trades[0]), fees, asset, trades[1..], c);
    }
  }

  lemma {:induction false} BoundedTradesCreateNothing(fees: FeeSchedule, trades: seq<Trade>)
    requires fees.Bounded()
    ensures CreatedBy(fees, trades) == 0
  {
    if trades != [] {
      BoundedFeesCreateNothing(fees, trades[0]);
      BoundedTradesCreateNothing(fees, trades[1..]);
    }
  }

  /** Both sides of the trade are locked, as they are whenever the engine settles one. */
  predicate IsFunded(a: Accounts, fees: FeeSchedule, asset: Asset, t: Trade) {
    && BuyerPays(fees, t) <= Get(a, Account(t.buyer, Usd)).locked
    && t.qty <= Get(a, Account(t.seller, Base(asset))).locked
  }

  ghost predicate KeepsUsd(a: Accounts, fees: FeeSchedule, asset: Asset, t: Trade) {
    Supply(ApplyFill(a, fees, asset, t), Usd) == Supply(a, Usd)
  }

  /** Settling a funded trade conserves USD exactly when the seller's fee is within the trade's value. */
  lemma FillConservesExactlyWhen(a: Accounts, fees: FeeSchedule, asset: Asset, t: Trade)
    ensures KeepsUsd(a, fees, asset, t) <==> FeesOf(fees, t).seller <= t.Value()
  {
    FillSupply(a, fees, asset, t, Usd);
  }

  /** Every funded trade conserves USD exactly when no fee rate is above 100%. */
  lemma {:induction false} SettlementConservesExactlyWhen(fees: FeeSchedule, asset: Asset)
    ensures (forall a: Accounts, t: Trade :: IsFunded(a, fees, asset, t) ==> KeepsUsd(a, fees, asset, t))
            <==> fees.Bounded()
  {
    if fees.Bounded() {
      forall a: Accounts, t: Trade | IsFunded(a, fees, asset, t) ensures KeepsUsd(a, fees, asset, t) {
        BoundedFeesCreateNothing(fees, t);
        FillConservesExactlyWhen(a, fees, asset, t);
      }
    } else {
      // Buying one unit at BPS_SCALE from the side whose rate is too high.
      var side := if fees.makerBps > BPS_SCALE then Bid else Ask;
      var t := Trade(1, 2, BPS_SCALE, 1, 1, 2, side);
      var a := map[Account(1, Usd) := Balance(0, BuyerPays(fees, t)), Account(2, Base(asset)) := Balance(0, 1)];
      assert t.Value() == BPS_SCALE;
      assert FeesOf(fees, t).seller == if side.Bid? then fees.makerBps else fees.takerBps;
      assert IsFunded(a, fees, asset, t);
      FillConservesExactlyWhen(a, fees, asset, t);
    }
  }
}
