/** The vocabulary shared by the engine, the read model and recovery. */
module Types {

  type UserId = nat
  type OrderId = nat
  type Price = nat
  type Quantity = nat

  /** What a quantity costs at a price, in USD. */
  function Cost(price: Price, qty: Quantity): nat {
    price * qty
  }

  datatype Option<+T> = None | Some(value: T)

  datatype Result<+T> = Ok(value: T) | Err(error: Error)

  datatype Error =
    | InvalidPrice
    | InvalidQuantity
    | OrderNotFound
    | NotOrderOwner
    | UnsupportedAsset
    | UnknownSide
    | InsufficientFunds
    | NoLiquidity

  datatype Side = Bid | Ask {
    function Opposite(): Side {
      if Bid? then Ask else Bid
    }
  }

  datatype Asset = Sol | Btc | Eth

  datatype Currency = Usd | Base(asset: Asset)

  datatype TimeInForce = Gtc | Ioc | Fok

  /** A resting order. The code's `OrderAccepted` and `OrderCancelled` carry the same fields. */
  datatype Order = Order(id: OrderId, user: UserId, side: Side, price: Price, remaining: Quantity)

  datatype Trade = Trade(
    buyer: UserId,
    seller: UserId,
    price: Price,
    qty: Quantity,
    takerId: OrderId,
    makerId: OrderId,
    takerSide: Side)
  {
    function Value(): nat {
      Cost(price, qty)
    }
  }

  datatype MatchResult = Traded(trade: Trade) | Accepted(order: Order)

  /** One aggregated price level, as published to clients. */
  datatype DepthLevel = DepthLevel(price: Price, qty: Quantity)

  datatype OrderStatus = Open | PartiallyFilled | Filled | Cancelled | Unfilled

  /** What the engine appends to the execution stream. */
  datatype Event =
    | OrderCreated(orderId: OrderId, user: UserId, market: Asset, side: Side, price: Price,
                   originalQty: Quantity, remainingQty: Quantity)
    | TradeExecuted(makerId: OrderId, takerId: OrderId, buyer: UserId, seller: UserId, market: Asset,
                    price: Price, qty: Quantity, quoteAmount: nat, makerRemaining: Quantity,
                    buyerFee: nat, sellerFee: nat)
    | OrderCancelled(orderId: OrderId, user: UserId, remainingQty: Quantity)
    | FundingExecuted(user: UserId, currency: Currency, amount: nat)
    | DepthUpdated(market: Asset, bids: seq<DepthLevel>, asks: seq<DepthLevel>)

  datatype OrderType = Limit | Market

  /** An order request; `None` stands for an asset or side string the engine does not recognise. */
  datatype OrderMsg = OrderMsg(
    user: UserId,
    asset: Option<Asset>,
    side: Option<Side>,
    kind: OrderType,
    price: int,
    qty: int,
    slippage: Option<real>,
    tif: TimeInForce)

  /** The engine's commands; `Query` is any of the four read-only channels. */
  datatype Command =
    | Signup(user: UserId)
    | Onramp(user: UserId, qty: nat)
    | Deposit(user: UserId, asset: Asset, qty: nat)
    | PlaceOrder(msg: OrderMsg)
    | CancelOrder(user: UserId, orderId: OrderId)
    | Query
    | Reset

  datatype Reply =
    | Balances
    | Placed(orderId: Option<OrderId>, status: OrderStatus)
    | CancelDone(cancelledId: OrderId, remainingQty: Quantity)
    | Rejected(error: Error)
    | ResetDone
    | Answer
}
