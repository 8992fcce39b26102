/** Constants and messages shared by the exchange and the trading client. */
module Types {
  const ME_MAX_TICKERS: nat := 8
  const ME_MAX_NUM_CLIENTS: nat := 256
  const ME_MAX_ORDER_IDS: nat := 1024 * 1024
  const ME_MAX_PRICE_LEVELS: nat := 256
  const ME_MAX_MARKET_UPDATES: nat := 256 * 1024

  /** The source's sentinels: the largest value of each unsigned or signed width. */
  const ORDER_ID_INVALID: nat := 0xFFFF_FFFF_FFFF_FFFF
  const TICKER_ID_INVALID: nat := 0xFFFF_FFFF
  const CLIENT_ID_INVALID: nat := 0xFFFF_FFFF
  const PRICE_INVALID: int := 0x7FFF_FFFF_FFFF_FFFF
  const QTY_INVALID: nat := 0xFFFF_FFFF
  const PRIORITY_INVALID: nat := 0xFFFF_FFFF_FFFF_FFFF
  const INT32_MAX: nat := 0x7FFF_FFFF

  type OrderId = nat
  type TickerId = nat
  type ClientId = nat

  datatype Option<+T> = None | Some(value: T)

  datatype Side = Invalid | Buy | Sell | Max {
    predicate Valid() { Buy? || Sell? }

    function Opposite(): Side { if Buy? then Sell else Buy }

    /** `sideToValue`: 1 for a buy, -1 for a sell. */
    function Value(): int
    {
      match this
      case Buy => 1
      case Sell => -1
      case Invalid => 0
      case Max => 2
    }
  }

  /** The client and its own order id: the key under which a client's order is known. */
  datatype Owner = Owner(client: ClientId, clientOrderId: OrderId)

  /** Market data does not say who owns an order. */
  const ANONYMOUS := Owner(CLIENT_ID_INVALID, ORDER_ID_INVALID)

  /** A resting order: `MEOrder` at the exchange, `MarketOrder` (no owner) at a client. */
  datatype Order = Order(owner: Owner, id: OrderId, side: Side, price: int, qty: nat, priority: nat)

  datatype EventType =
    NoEvent | Clear | Add | Modify | Cancel | Trade | SnapshotStart | SnapshotEnd | RecoveryCommit

  /** `MEMarketUpdate`. */
  datatype Event = Event(kind: EventType, orderId: OrderId, ticker: TickerId, side: Side,
                         price: int, qty: nat, priority: nat)

  datatype RequestType = NoRequest | New | CancelOrder | Query

  /** `MEClientRequest`. */
  datatype Request = Request(kind: RequestType, client: ClientId, ticker: TickerId, orderId: OrderId,
                             side: Side, price: int, qty: nat)

  datatype ResponseType = NoResponse | Accepted | Canceled | Filled | CancelRejected | Rejected | State

  datatype RejectReason =
    NoReason | InvalidId | InvalidType | InvalidSide | InvalidPrice | InvalidQty | DuplicateId |
    Capacity | Identity | Sequence | Session | Version

  /** `MEClientResponse`; the matching engine fills in the response id and the position. */
  datatype Response = Response(kind: ResponseType, client: ClientId, ticker: TickerId,
                               clientOrderId: OrderId, marketOrderId: OrderId, side: Side, price: int,
                               execQty: nat, leavesQty: nat, reason: RejectReason,
                               responseId: nat, position: int)

  function Min(a: nat, b: nat): nat { if a < b then a else b }

  function Abs(x: int): nat { if x < 0 then -x else x }

  const TWO_64: nat := 0x1_0000_0000_0000_0000

  lemma {:induction false} SubsetSize<T>(s: set<T>, t: set<T>)
    requires s <= t
    ensures |s| <= |t|
  {
    if s != {} {
      var x :| x in s;
      SubsetSize(s - {x}, t - {x});
    }
  }
}
