/**
 Reservations that outlive their order.  A live order always has its reservation; the converse
 fails, and here is exactly when a response makes it fail.
 */
module DeskLeaks {
  import opened Types
  import opened Pnl
  import opened TradingDesk
  import opened DeskOrders
  import opened DeskTheorems

  /** The id still holds a reservation, and no order under it is live. */
  predicate Leaked(d: Desk, id: OrderId) {
    id in d.pending && NotLive(d, id)
  }

  /** The fill is for more than is reserved, its ticker has no position, it has no price, or it would take a
      profit figure out of 64 bits. */
  predicate CannotBook(d: Desk, res: Reservation, r: OrderResponse)
    requires r.executedQty > 0
  {
    || r.executedQty > res.qty || res.ticker !in d.positions || r.executionPrice == PRICE_INVALID
    || TooLarge(d.positions[res.ticker], res.side, r.executionPrice, r.executedQty)
  }

  /**
   What the caller can see before handing over the response: a cancel report for less than is
   reserved (zero included), a fill that cannot be booked, or a fill that completes an order whose
   replaces had lowered its quantity below what it reserved.
   */
  predicate LeavesReservation(d: Desk, o: Order, r: OrderResponse)
    requires o.id in d.pending
  {
    match r.status
    case CANCELED => r.canceledQty < d.pending[o.id].qty
    case EXECUTED =>
      && 0 < r.executedQty && o.filled + r.executedQty <= o.qty
      && (CannotBook(d, d.pending[o.id], r)
          || (o.filled + r.executedQty == o.qty && r.executedQty < d.pending[o.id].qty))
    case _ => false
  }

  /** From a live order with a reservation, a response leaks the reservation exactly when it leaves some of it. */
  lemma {:induction false} LeaksIff(cfg: Config, w: Watched, r: OrderResponse, i: nat)
    requires Inv(cfg, w) && i < |w.d.orders| && w.d.orders[i].Live() && w.d.orders[i].id == r.id && r.id in w.d.pending
    ensures Leaked(OnResponse(w.d, r), r.id) <==> LeavesReservation(w.d, w.d.orders[i], r)
  {
    assert OrderOk(cfg, w, i);
    FindUnique(w.d.orders, r.id, i);
    NotLiveIff(w.d, r, i);
    match r.status
    case EXECUTED => FillLeaksIff(w.d, r, i);
    case CANCELED =>
    case ACCEPTED =>
    case REJECTED =>
    case CANCEL_REJECTED =>
  }

  lemma {:induction false} FillLeaksIff(d: Desk, r: OrderResponse, i: nat)
    requires i < |d.orders| && d.orders[i].Live() && i == Find(d.orders, r.id) && r.id in d.pending
    requires r.status == EXECUTED
    ensures var e := OnResponse(d, r);
      i < |e.orders| && (r.id in e.pending && !e.orders[i].Live() <==> LeavesReservation(d, d.orders[i], r))
  {
    ResponseLength(d, r);
    if r.executedQty > 0 {
      BookedIff(d, r);
    }
  }

  lemma {:induction false} BookedIff(d: Desk, r: OrderResponse)
    requires r.id in d.pending && r.status == EXECUTED && r.executedQty > 0
    ensures RiskResponse(d, r).None? <==> CannotBook(d, d.pending[r.id], r)
  {
    var res := d.pending[r.id];
    if res.ticker in d.positions {
      RefusedIff(d.positions[res.ticker], res.side, r.executionPrice, r.executedQty);
    }
  }

  /** Only order i bears the id, so whether any is live is whether it is. */
  lemma {:induction false} NotLiveIff(d: Desk, r: OrderResponse, i: nat)
    requires Distinct(d.orders) && i < |d.orders| && d.orders[i].id == r.id
    ensures i < |OnResponse(d, r).orders| && (NotLive(OnResponse(d, r), r.id) <==> !OnResponse(d, r).orders[i].Live())
  {
    var e := OnResponse(d, r);
    ResponseLength(d, r);
    forall j | 0 <= j < |d.orders| ensures e.orders[j].id == d.orders[j].id { ResponseProgress(d, r, j); }
  }
}
