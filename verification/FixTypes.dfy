/** FIX enumerations and the venue's records, as far as the gateway distinguishes them. */
module FixTypes {
  import opened DecimalText

  datatype Side = Buy | Sell | UndisclosedSide | OtherSide(code: char)

  datatype OrdType = Market | Limit | Stop | StopLimit | OtherOrdType(code: char)

  datatype OrdStatus =
    | New | PartiallyFilled | Filled | DoneForDay | Canceled | Replaced
    | PendingCancel | Stopped | Rejected | Suspended | Expired

  datatype ExecType =
    | ExecNew | ExecPartialFill | ExecFill | ExecCanceled | ExecPendingCancel
    | ExecRejected | ExecTrade | ExecOrderStatus

  datatype TimeInForce =
    | GoodTillCancel | ImmediateOrCancel | FillOrKill | GoodTillDate | OtherTimeInForce(code: char)

  const FLAG_HIDDEN: int := 64
  const FLAG_POST_ONLY: int := 4096

  /** Whether the bit with the given weight is set in a two's complement integer. */
  predicate HasFlag(flags: int, weight: int)
    requires weight > 0
  {
    (flags / weight) % 2 == 1
  }

  /** An order as the websocket or the REST API reports it. */
  datatype VenueOrder = VenueOrder(
    id: int64, cid: int64, symbol: string, amount: real, price: real, priceAuxLimit: real,
    priceTrailing: real, priceAvg: real, typ: string, mtsTif: int, flags: int, status: string)

  /** A 'tu' trade execution update. */
  datatype TradeUpdate = TradeUpdate(
    id: int64, orderID: int64, pair: string, execAmount: real, execPrice: real, orderType: string, fee: real)

  /** What the cache remembers of an order besides its identifiers and executions. */
  datatype Terms = Terms(
    px: real, stop: real, trail: real, qty: real, symbol: string, account: string, side: Side,
    ordType: OrdType, isMargin: bool, tif: TimeInForce, tifExpiration: int, flags: int)
}
