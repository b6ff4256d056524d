/**
 The meaning of a market-data feed: what one ticker's resting orders are after a
 sequence of updates, as a plain map from order reference to order.  The recovery
 protocol, the linked order book and the decoder are all proved against this map.
 */
module FeedBook {
  import opened Types

  datatype Resting = Resting(side: Side, price: Price, qty: Quantity)

  type Orders = map<OrderId, Resting>

  /** One ticker's orders, and whether a snapshot is being loaded. */
  datatype View = View(orders: Orders, inSnapshot: bool)

  const EMPTY := View(map[], false)

  function Reduce(orders: Orders, ref: OrderId, qty: Quantity): Orders {
    if ref !in orders then orders
    else if qty >= orders[ref].qty then orders - {ref}
    else orders[ref := orders[ref].(qty := orders[ref].qty - qty)]
  }

  function ApplyOrder(orders: Orders, u: MarketUpdate): Orders {
    match u.kind
    case ADD | ADD_MPID =>
      if u.orderRef in orders then orders
      else orders[u.orderRef := Resting(u.side, u.price, u.qty)]
    case DELETE => orders - {u.orderRef}
    case CANCEL | EXECUTE => Reduce(orders, u.orderRef, u.qty)
    case REPLACE =>
      if u.orderRef !in orders || u.newRef in orders then orders
      else (orders - {u.orderRef})[u.newRef := Resting(u.side, u.price, u.qty)]
    case _ => orders
  }

  function Apply(t: TickerId, v: View, u: MarketUpdate): View {
    match u.kind
    case SNAPSHOT_START => View(map[], true)
    case SNAPSHOT_CLEAR => if u.ticker == t then v.(orders := map[]) else v
    case SNAPSHOT_END => v.(inSnapshot := false)
    case _ => if u.ticker == t then v.(orders := ApplyOrder(v.orders, u)) else v
  }

  /** The view of ticker `t` after consuming all of `us`, starting from `v`. */
  function Fold(t: TickerId, v: View, us: seq<MarketUpdate>): View {
    if us == [] then v else Apply(t, Fold(t, v, us[..|us| - 1]), us[|us| - 1])
  }

  lemma {:induction false} FoldAppend(t: TickerId, v: View, a: seq<MarketUpdate>, b: seq<MarketUpdate>)
    ensures Fold(t, v, a + b) == Fold(t, Fold(t, v, a), b)
    decreases |b|
  {
    if b == [] {
      assert a + b == a;
    } else {
      var c := b[..|b| - 1];
      assert (a + b)[..|a + b| - 1] == a + c;
      FoldAppend(t, v, a, c);
    }
  }

  /** The exchange's history: update number k is h[k - 1]. */
  type History = seq<MarketUpdate>

  /** Entry k carries its own number and is not a snapshot marker. */
  ghost predicate IsEntry(h: History, k: SeqNum) {
    1 <= k <= |h| ==> h[k - 1].seqNum == k && !h[k - 1].IsMarker()
  }

  ghost predicate IsHistory(h: History) {
    forall k :: IsEntry(h, k)
  }

  /** The true orders of ticker `t` once the exchange has published updates 1..n. */
  ghost function TrueView(t: TickerId, h: History, n: nat): View
    requires n <= |h|
  {
    Fold(t, EMPTY, h[..n])
  }

  /** Consuming history entry n+1 moves the view of entries lo..n one step forward. */
  lemma {:induction false} FoldNext(t: TickerId, h: History, lo: nat, n: nat)
    requires 1 <= lo <= n + 1 <= |h|
    ensures Fold(t, EMPTY, h[lo - 1..n + 1]) == Apply(t, Fold(t, EMPTY, h[lo - 1..n]), h[n])
  {
    assert h[lo - 1..n + 1][..n + 1 - lo] == h[lo - 1..n];
  }
}
