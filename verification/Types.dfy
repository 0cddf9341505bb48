/**
 Identifiers, order records and error values shared by the exchange, together
 with the conversions between the records an order passes through.
 */
module Types {

  datatype Option<+T> = None | Some(value: T)

  datatype Result<+T, +E> = Ok(value: T) | Err(error: E)

  type OrderId = nat
  type AssetId = nat
  type AccountId = nat

  /** Volumes are unsigned 32-bit integers: taking away more than is there is an error. */
  type Volume = v: int | 0 <= v <= 0xFFFF_FFFF

  /** Prices and balances are I33F31 fixed-point numbers; the model holds the
      underlying integer, which is the value times `ONE`. */
  type Price = int
  type Balance = int

  const ONE: int := 0x8000_0000

  datatype Side = Bid | Ask {
    function Opposite(): Side {
      if Bid? then Ask else Bid
    }
  }

  datatype OrderType = Limit | FillOrKill | Market

  datatype Status = AwaitingFill | PartialFill | Filled | Killed | Cancelled

  datatype AssetIdPair = AssetIdPair(primary: AssetId, secondary: AssetId)

  datatype InsertionError = NoSuchMarket | NoSuchAccount | OrderKilled | InadequateVolume | SelfTrade

  datatype CancellationError = CancelUnknownOrder | CancelUnauthorized | CancelAlreadyFilled
                             | CancelAlreadyCancelled | CancelNoSuchMarket

  datatype ModificationError = ModifyUnknownOrder | ModifyAlreadyFilled | ModifyUnauthorized
                             | ModifyNoSuchMarket | VolumeNotLower | OrderNotFound

  datatype MarketCreationError = MarketAlreadyExists | AssetNotTraded

  /** A request to insert an order, before it has an id. */
  datatype InsertionRequest = InsertionRequest(
    account: AccountId, orderType: OrderType, pair: AssetIdPair, side: Side, volume: Volume, price: Price)
  {
    function IntoInsertion(id: OrderId): OrderInsertion {
      OrderInsertion(id, account, orderType, pair, side, volume, price)
    }
  }

  datatype OrderInsertion = OrderInsertion(
    id: OrderId, account: AccountId, orderType: OrderType, pair: AssetIdPair, side: Side,
    volume: Volume, price: Price)

  datatype CancellationRequest = CancellationRequest(account: AccountId, orderId: OrderId) {
    function IntoCancellation(pair: AssetIdPair, side: Side, price: Price): OrderCancellation {
      OrderCancellation(pair, orderId, side, price)
    }
  }

  datatype OrderCancellation = OrderCancellation(pair: AssetIdPair, orderId: OrderId, side: Side, price: Price)

  datatype ModificationRequest = ModificationRequest(account: AccountId, orderId: OrderId, newVolume: Volume) {
    /** The book is told by how much to shrink the order, not its new volume. */
    function IntoModification(pair: AssetIdPair, side: Side, price: Price, originalVolume: Volume): OrderModification
      requires newVolume <= originalVolume
    {
      OrderModification(pair, orderId, originalVolume - newVolume, side, price)
    }
  }

  datatype OrderModification = OrderModification(
    pair: AssetIdPair, orderId: OrderId, reduction: Volume, side: Side, price: Price)

  /** The session table's record of an accepted order. */
  datatype PlacedOrder = PlacedOrder(
    id: OrderId, account: AccountId, pair: AssetIdPair, side: Side, price: Price,
    volume: Volume, remaining: Volume, status: Status)
  {
    static function FromInsertion(o: OrderInsertion): PlacedOrder {
      PlacedOrder(o.id, o.account, o.pair, o.side, o.price, o.volume, o.volume, AwaitingFill)
    }
  }

  /** A trade found by the matching loop: the maker's order rests, the taker's is incoming. */
  datatype ObTransaction = ObTransaction(
    price: Price, volume: Volume, takerSide: Side, maker: OrderId, taker: OrderId)

  function Min(a: Volume, b: Volume): (r: Volume)
    ensures r <= a && r <= b && (r == a || r == b)
  {
    if a <= b then a else b
  }
}
