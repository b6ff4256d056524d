/** Message and integer types shared by every component (src/types.h). */
module Types {

  const INT32_MIN := -0x8000_0000
  const INT32_MAX := 0x7FFF_FFFF
  const TWO_32 := 0x1_0000_0000

  type Price = p: int | INT32_MIN <= p <= INT32_MAX
  type Quantity = q: int | 0 <= q < TWO_32
  type TickerId = t: int | 0 <= t < TWO_32
  type OrderId = nat
  type SeqNum = nat

  /** The marker for "no price": the smallest 32-bit value. */
  const PRICE_INVALID: Price := INT32_MIN
  const TICKER_INVALID: TickerId := TWO_32 - 1

  datatype Option<+T> = None | Some(value: T)

  datatype Side = BUY | SELL

  datatype UpdateType =
    | ADD
    | ADD_MPID
    | EXECUTE
    | CANCEL
    | DELETE
    | REPLACE
    | SNAPSHOT_START
    | SNAPSHOT_CLEAR
    | SNAPSHOT_END

  datatype MarketUpdate = MarketUpdate(
    seqNum: SeqNum,
    ticker: TickerId,
    kind: UpdateType,
    side: Side,
    price: Price,
    qty: Quantity,
    orderRef: OrderId,
    newRef: OrderId)
  {
    /** Snapshot markers go to every book; all other updates belong to one ticker. */
    predicate IsMarker() {
      kind.SNAPSHOT_START? || kind.SNAPSHOT_CLEAR? || kind.SNAPSHOT_END?
    }
  }
}
