/**
 * The engine's state and its command handlers as functions: lock the funds, match, settle the trades one
 * by one, release what was locked in excess. The class EngineState refines these functions.
 */
module Engine {
  import opened Types
  import opened Fees
  import opened Matching
  import opened Books
  import opened Ledger
  import opened Depths

  datatype Engine = Engine(
    accounts: Accounts,
    sol: Book,
    btc: Book,
    eth: Book,
    nextId: OrderId,
    fees: FeeSchedule)
  {
    function BookOf(asset: Asset): Book {
      match asset
      case Sol => sol
      case Btc => btc
      case Eth => eth
    }

    function WithBook(asset: Asset, b: Book): Engine {
      match asset
      case Sol => this.(sol := b)
      case Btc => this.(btc := b)
      case Eth => this.(eth := b)
    }
  }

  function Initial(fees: FeeSchedule): Engine {
    Engine(map[], EMPTY_BOOK, EMPTY_BOOK, EMPTY_BOOK, 1, fees)
  }

  /** A handler's new state, what it emits to the execution stream, and its reply. */
  datatype Step = Step(state: Engine, events: seq<Event>, reply: Reply)

  // ----- Events -----

  function DepthEvent(asset: Asset, b: Book): Event {
    DepthUpdated(asset, TopLevels(Depth(b.bids)), TopLevels(Depth(b.asks)))
  }

  /** The maker's remaining quantity is read from the book after the whole match. */
  function TradeEvent(fees: FeeSchedule, asset: Asset, after: Book, t: Trade): Event {
    TradeExecuted(t.makerId, t.takerId, t.buyer, t.seller, asset, t.price, t.qty, t.Value(),
                  after.RemainingOf(t.makerId), FeesOf(fees, t).buyer, FeesOf(fees, t).seller)
  }

  function TradeEvents(fees: FeeSchedule, asset: Asset, after: Book, trades: seq<Trade>): seq<Event> {
    if trades == [] then [] else
      [TradeEvent(fees, asset, after, trades[0])] + TradeEvents(fees, asset, after, trades[1..])
  }

  // ----- Orders -----

  /** The account an order is paid from. */
  function Funding(user: UserId, side: Side, asset: Asset): Account {
    Account(user, if side.Bid? then Usd else Base(asset))
  }

  /** What a limit order locks before it is matched. */
  function LimitLock(fees: FeeSchedule, side: Side, price: Price, qty: Quantity): nat {
    if side.Bid? then Cost(price, qty) + Fee(fees.ReserveBps(), Cost(price, qty)) else qty
  }

  function BuyerSpent(fees: FeeSchedule, trades: seq<Trade>): nat {
    if trades == [] then 0 else BuyerPays(fees, trades[0]) + BuyerSpent(fees, trades[1..])
  }

  /** What a resting bid needs to stay locked. */
  function BidReserve(fees: FeeSchedule, o: Order): nat {
    Cost(o.price, o.remaining) + fees.MakerFee(Cost(o.price, o.remaining))
  }

  function LimitRefund(fees: FeeSchedule, side: Side, lock: nat, qty: Quantity, tif: TimeInForce, x: Execution): int {
    if side.Bid? then
      SaturatingSub(SaturatingSub(lock, BuyerSpent(fees, x.trades)),
                    if x.resting.Some? then BidReserve(fees, x.resting.value) else 0)
    else if tif.Gtc? then 0
    else qty - TradedQty(x.trades)
  }

  /** Lock, settle every trade in order, release the excess; the book has already changed completely. */
  function Settle(e: Engine, asset: Asset, k: Account, lock: int, x: Execution, refund: int): Engine {
    var locked := Adjust(e.accounts, k, -lock, lock);
    var settled := ApplyTrades(locked, e.fees, asset, x.trades);
    var released := Adjust(settled, k, refund, -refund);
    e.(accounts := released, nextId := e.nextId + 1).WithBook(asset, x.book)
  }

  function FillStatus(filled: Quantity, qty: Quantity): OrderStatus {
    if filled == qty then Filled else if filled > 0 then PartiallyFilled else Unfilled
  }

  /** A request refused for lack of funds still creates the account it looked at. */
  function RefuseFunds(e: Engine, k: Account): Step {
    Step(e.(accounts := Adjust(e.accounts, k, 0, 0)), [], Rejected(InsufficientFunds))
  }

  function LimitOrder(e: Engine, user: UserId, asset: Asset, side: Side, price: Price, qty: Quantity, tif: TimeInForce)
    : Step
  {
    var k := Funding(user, side, asset);
    var lock := LimitLock(e.fees, side, price, qty);
    if Get(e.accounts, k).available < lock then
      RefuseFunds(e, k)
    else
      var x := PlaceLimit(e.BookOf(asset), e.nextId, user, side, price, qty, tif);
      var refund := LimitRefund(e.fees, side, lock, qty, tif, x);
      var created := match x.resting {
        case None => []
        case Some(o) => [OrderCreated(o.id, user, asset, side, price, qty, o.remaining)]
      };
      var reply := match x.resting {
        case None => Placed(None, FillStatus(TradedQty(x.trades), qty))
        case Some(o) => Placed(Some(o.id), Open)
      };
      Step(Settle(e, asset, k, lock, x, refund),
           TradeEvents(e.fees, asset, x.book, x.trades) + created + [DepthEvent(asset, x.book)],
           reply)
  }

  function MarketSell(e: Engine, user: UserId, asset: Asset, qty: Quantity, worst: Option<Price>, tif: TimeInForce)
    : Step
  {
    var k := Funding(user, Ask, asset);
    if tif.Fok? && FilledQty(Consume(e.BookOf(asset).bids, worst, qty).fills) < qty then
      Step(e, [], Placed(None, Unfilled))
    else if Get(e.accounts, k).available < qty then
      RefuseFunds(e, k)
    else
      var x := ExecuteMarket(e.BookOf(asset), e.nextId, user, Ask, qty, worst);
      Step(Settle(e, asset, k, qty, x, qty - TradedQty(x.trades)),
           TradeEvents(e.fees, asset, x.book, x.trades) + [DepthEvent(asset, x.book)],
           Placed(None, FillStatus(TradedQty(x.trades), qty)))
  }

  function MarketBuyLock(fees: FeeSchedule, cost: nat): nat {
    cost + fees.TakerFee(cost)
  }

  function MarketBuy(e: Engine, user: UserId, asset: Asset, qty: Quantity, worst: Option<Price>, tif: TimeInForce)
    : Step
  {
    var k := Funding(user, Bid, asset);
    var quote := Consume(e.BookOf(asset).asks, worst, qty).fills;
    var lock := MarketBuyLock(e.fees, FilledCost(quote));
    if tif.Fok? && FilledQty(quote) < qty then
      Step(e, [], Placed(None, Unfilled))
    else if FilledQty(quote) == 0 then
      Step(e, [], Rejected(NoLiquidity))
    else if Get(e.accounts, k).available < lock then
      RefuseFunds(e, k)
    else
      var x := ExecuteMarket(e.BookOf(asset), e.nextId, user, Bid, qty, worst);
      Step(Settle(e, asset, k, lock, x, SaturatingSub(lock, BuyerSpent(e.fees, x.trades))),
           TradeEvents(e.fees, asset, x.book, x.trades) + [DepthEvent(asset, x.book)],
           Placed(None, FillStatus(TradedQty(x.trades), qty)))
  }

  const DEFAULT_SLIPPAGE: real := 5.0

  /** Rust's `as u64` on a rounded float: negative values saturate to zero. */
  function ToUnsigned(x: int): nat {
    if x < 0 then 0 else x
  }

  /** An explicit price, else the best opposite price widened by the slippage, else nothing. */
  function WorstPrice(side: Side, price: int, slippage: Option<real>, best: Option<Price>): Option<Price> {
    var percent := if slippage.Some? then slippage.value else DEFAULT_SLIPPAGE;
    if price > 0 then
      Some(price)
    else if best.None? then
      None
    else if side.Ask? then
      var floor := ToUnsigned((best.value as real * (1.0 - percent / 100.0)).Floor);
      Some(if floor < 1 then 1 else floor)
    else
      Some(ToUnsigned(-(0.0 - best.value as real * (1.0 + percent / 100.0)).Floor))
  }

  function HandleOrder(e: Engine, m: OrderMsg): Step {
    if m.asset.None? then
      Step(e, [], Rejected(UnsupportedAsset))
    else if m.side.None? then
      Step(e, [], Rejected(UnknownSide))
    else if m.qty <= 0 then
      Step(e, [], Rejected(InvalidQuantity))
    else
      var asset, side := m.asset.value, m.side.value;
      match m.kind
      case Limit =>
        if m.price <= 0 then
          Step(e, [], Rejected(InvalidPrice))
        else
          LimitOrder(e, m.user, asset, side, m.price, m.qty, m.tif)
      case Market =>
        var worst := WorstPrice(side, m.price, m.slippage, e.BookOf(asset).Best(side.Opposite()));
        if side.Ask? then
          MarketSell(e, m.user, asset, m.qty, worst, m.tif)
        else
          MarketBuy(e, m.user, asset, m.qty, worst, m.tif)
  }

  // ----- Cancelling -----

  /** What cancelling an order gives back to its owner. */
  function CancelRefund(fees: FeeSchedule, o: Order): nat {
    if o.side.Bid? then BidReserve(fees, o) else o.remaining
  }

  function CancelIn(e: Engine, asset: Asset, removal: Removal): Step {
    var o := removal.order;
    var k := Funding(o.user, o.side, asset);
    var refund := CancelRefund(e.fees, o);
    Step(e.(accounts := Adjust(e.accounts, k, refund, 0 - refund)).WithBook(asset, removal.book),
         [OrderCancelled(o.id, o.user, o.remaining), DepthEvent(asset, removal.book)],
         CancelDone(o.id, o.remaining))
  }

  /** The markets are tried in a fixed order; the first that lets the user cancel wins. */
  function HandleCancel(e: Engine, user: UserId, id: OrderId): Step {
    var sol, btc, eth := Cancel(e.sol, id, user), Cancel(e.btc, id, user), Cancel(e.eth, id, user);
    if sol.Ok? then CancelIn(e, Sol, sol.value)
    else if btc.Ok? then CancelIn(e, Btc, btc.value)
    else if eth.Ok? then CancelIn(e, Eth, eth.value)
    else if e.sol.Has(id) || e.btc.Has(id) || e.eth.Has(id) then Step(e, [], Rejected(NotOrderOwner))
    else Step(e, [], Rejected(OrderNotFound))
  }

  // ----- Dispatch -----

  function Fund(e: Engine, k: Account, qty: nat): Step {
    Step(e.(accounts := Adjust(e.accounts, k, qty, 0)), [FundingExecuted(k.user, k.currency, qty)], Balances)
  }

  function Dispatch(e: Engine, c: Command): Step {
    match c
    case Signup(user) => Step(e.(accounts := Adjust(e.accounts, Account(user, Usd), 0, 0)), [], Balances)
    case Onramp(user, qty) => Fund(e, Account(user, Usd), qty)
    case Deposit(user, asset, qty) => Fund(e, Account(user, Base(asset)), qty)
    case PlaceOrder(m) => HandleOrder(e, m)
    case CancelOrder(user, id) => HandleCancel(e, user, id)
    case Query => Step(e, [], Answer)
    case Reset => Step(Initial(e.fees), [], ResetDone)
  }

  /** The state after a log of commands, oldest first. */
  function Run(e: Engine, log: seq<Command>): Engine {
    if log == [] then e else Dispatch(Run(e, log[..|log| - 1]), log[|log| - 1]).state
  }

  /** Everything emitted on the way. */
  function Emitted(e: Engine, log: seq<Command>): seq<Event> {
    if log == [] then [] else
      Emitted(e, log[..|log| - 1]) + Dispatch(Run(e, log[..|log| - 1]), log[|log| - 1]).events
  }

  predicate ResetFree(log: seq<Command>) {
    forall i :: 0 <= i < |log| ==> !log[i].Reset?
  }
}
