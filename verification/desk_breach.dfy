/**
 How tight the position-limit guarantee is: exactly how far responses can take a position, and exactly
 when none of them can take it out of its limit.
 */
module DeskBreach {
  import opened Types
  import opened Pnl
  import opened TradingDesk
  import opened DeskLimits
  import opened Sums

  // ---------------------------------------------------------------------------
  // What can still fill

  /** How much of the reservation under `id` can fill: as much as the live order behind it has open, and
      nothing when there is none. */
  function Room(d: Desk, id: OrderId): nat
    requires id in d.pending
  {
    var i := Find(d.orders, id);
    if i == |d.orders| || !d.orders[i].Live() || d.orders[i].filled > d.orders[i].qty then 0
    else if d.pending[id].qty < d.orders[i].qty - d.orders[i].filled then d.pending[id].qty
    else d.orders[i].qty - d.orders[i].filled
  }

  /** A reservation on this side of the ticker. */
  predicate Waits(d: Desk, t: TickerId, side: Side, id: OrderId) {
    id in d.pending && d.pending[id].ticker == t && d.pending[id].side == side
  }

  function Rooms(d: Desk, t: TickerId, side: Side): map<OrderId, int> {
    map id | id in d.pending && Waits(d, t, side, id) :: Room(d, id) as int
  }

  /** How much can still fill on one side of a ticker. */
  ghost function CanFill(d: Desk, t: TickerId, side: Side): int {
    MapSum(Rooms(d, t, side))
  }

  /** Where the position would be if everything that can fill on one side did. */
  ghost function Highest(d: Desk, t: TickerId): int
    requires t in d.positions
  {
    Net(d, t) + CanFill(d, t, BUY)
  }

  ghost function Lowest(d: Desk, t: TickerId): int
    requires t in d.positions
  {
    Net(d, t) - CanFill(d, t, SELL)
  }

  /** Smaller values under fewer keys. */
  lemma {:induction false} MapSumLess(m: map<OrderId, int>, m': map<OrderId, int>)
    requires forall k :: k in m ==> m[k] >= 0
    requires forall k :: k in m' ==> k in m && m'[k] <= m[k]
    ensures MapSum(m') <= MapSum(m)
    decreases |m|
  {
    if m == map[] {
      assert m' == map[];
    } else {
      var k :| k in m;
      MapSumRemove(m, k);
      assert (m - {k}).Keys == m.Keys - {k};
      MapSumLess(m - {k}, m' - {k});
      MapSumWithout(m', k);
    }
  }

  lemma {:induction false} MapSumWithout(m: map<OrderId, int>, k: OrderId)
    ensures MapSum(m) == MapSum(m - {k}) + if k in m then m[k] else 0
  {
    if k in m {
      MapSumRemove(m, k);
    } else {
      assert m - {k} == m;
    }
  }

  /** ... and under one of them smaller by at least q. */
  lemma {:induction false} MapSumDrop(m: map<OrderId, int>, m': map<OrderId, int>, id: OrderId, q: nat)
    requires forall k :: k in m ==> m[k] >= 0
    requires forall k :: k in m' ==> k in m && m'[k] <= m[k]
    requires id in m && m[id] >= q && (id in m' ==> m'[id] <= m[id] - q)
    ensures MapSum(m') <= MapSum(m) - q
  {
    MapSumWithout(m, id);
    MapSumWithout(m', id);
    MapSumLess(m - {id}, m' - {id});
  }

  lemma {:induction false} MapSumNonNegative(m: map<OrderId, int>)
    requires forall k :: k in m ==> m[k] >= 0
    ensures MapSum(m) >= 0
  {
    MapSumLess(m, map[]);
  }

  /** The order under another id, and what can fill of it, stay as they are. */
  lemma {:induction false} FindAgain(orders: seq<Order>, i: nat, o: Order, id: OrderId)
    requires i < |orders| && o.id == orders[i].id
    ensures Find(orders[i := o], id) == Find(orders, id)
  {
    assert forall j :: 0 <= j < |orders| ==> orders[i := o][j].id == orders[j].id;
  }

  /** A response rewrites at most the order it names, under its own id. */
  lemma {:induction false} OneOrderRewritten(d: Desk, r: OrderResponse)
    ensures var i, e := Find(d.orders, r.id), OnResponse(d, r);
      e.orders == d.orders ||
      (i < |d.orders| && |e.orders| == |d.orders| && e.orders == d.orders[i := e.orders[i]] && e.orders[i].id == r.id)
  {
    match r.status
    case ACCEPTED =>
    case EXECUTED =>
    case CANCELED =>
    case REJECTED =>
    case CANCEL_REJECTED =>
  }

  lemma {:induction false} FoundAgain(d: Desk, r: OrderResponse, id: OrderId)
    ensures Find(OnResponse(d, r).orders, id) == Find(d.orders, id) && |OnResponse(d, r).orders| == |d.orders|
    ensures id != r.id && Find(d.orders, id) < |d.orders| ==>
            OnResponse(d, r).orders[Find(d.orders, id)] == d.orders[Find(d.orders, id)]
  {
    var i, e := Find(d.orders, r.id), OnResponse(d, r);
    OneOrderRewritten(d, r);
    if e.orders != d.orders {
      FindAgain(d.orders, i, e.orders[i], id);
    }
  }

  /** The response is an execution that is taken, of this much. */
  function Taken(d: Desk, r: OrderResponse): nat {
    if r.status == EXECUTED && Accepts(d, r) then r.executedQty else 0
  }

  /** What is reserved only shrinks, and the part taken is gone from it. */
  lemma {:induction false} PendingShrinks(d: Desk, r: OrderResponse, id: OrderId)
    requires id in OnResponse(d, r).pending
    ensures var p, q := d.pending, OnResponse(d, r).pending;
      && id in p && q[id].ticker == p[id].ticker && q[id].side == p[id].side && q[id].qty <= p[id].qty
      && (id != r.id ==> q[id] == p[id]) && (id == r.id ==> q[id].qty <= p[id].qty - Taken(d, r))
  {
    match r.status
    case EXECUTED => ExecutedShrinks(d, r, id);
    case CANCELED => CanceledShrinks(d, r, id);
    case ACCEPTED =>
    case REJECTED =>
    case CANCEL_REJECTED =>
  }

  lemma {:induction false} CanceledShrinks(d: Desk, r: OrderResponse, id: OrderId)
    requires r.status == CANCELED && id in OnResponse(d, r).pending
    ensures var p, q := d.pending, OnResponse(d, r).pending;
      && id in p && q[id].ticker == p[id].ticker && q[id].side == p[id].side && q[id].qty <= p[id].qty
      && (id != r.id ==> q[id] == p[id])
  {
  }

  lemma {:induction false} ExecutedShrinks(d: Desk, r: OrderResponse, id: OrderId)
    requires r.status == EXECUTED && id in OnResponse(d, r).pending
    ensures var p, q := d.pending, OnResponse(d, r).pending;
      && id in p && q[id].ticker == p[id].ticker && q[id].side == p[id].side && q[id].qty <= p[id].qty
      && (id != r.id ==> q[id] == p[id]) && (id == r.id ==> q[id].qty <= p[id].qty - Taken(d, r))
  {
    if Accepts(d, r) {
      assert OnResponse(d, r).pending == Release(d.pending, r.id, r.executedQty);
    }
  }

  /** The open quantity of the order named only shrinks, by what is taken at least. */
  lemma {:induction false} OpenShrinks(d: Desk, r: OrderResponse, i: nat)
    requires i == Find(d.orders, r.id) && i < |d.orders|
    ensures |OnResponse(d, r).orders| == |d.orders|
    ensures var o, o' := d.orders[i], OnResponse(d, r).orders[i];
      o'.Live() ==> o.Live() && o'.qty == o.qty && o'.filled == o.filled + Taken(d, r)
    ensures Taken(d, r) > 0 ==> d.orders[i].Live() && d.orders[i].filled + Taken(d, r) <= d.orders[i].qty
  {
    match r.status
    case EXECUTED => ExecutedOpens(d, r, i);
    case ACCEPTED =>
    case CANCELED =>
    case REJECTED =>
    case CANCEL_REJECTED =>
  }

  lemma {:induction false} ExecutedOpens(d: Desk, r: OrderResponse, i: nat)
    requires r.status == EXECUTED && i == Find(d.orders, r.id) && i < |d.orders|
    ensures |OnResponse(d, r).orders| == |d.orders|
    ensures var o, o' := d.orders[i], OnResponse(d, r).orders[i];
      o'.Live() ==> o.Live() && o'.qty == o.qty && o'.filled == o.filled + Taken(d, r)
    ensures Taken(d, r) > 0 ==> d.orders[i].Live() && d.orders[i].filled + Taken(d, r) <= d.orders[i].qty
  {
  }

  lemma {:induction false} RoomShrinks(d: Desk, r: OrderResponse, id: OrderId)
    requires id in OnResponse(d, r).pending
    ensures id in d.pending && Room(OnResponse(d, r), id) <= Room(d, id) - (if id == r.id then Taken(d, r) else 0)
  {
    PendingShrinks(d, r, id);
    FoundAgain(d, r, id);
    TakenHasRoom(d, r);
    if id == r.id && Find(d.orders, id) < |d.orders| {
      OpenShrinks(d, r, Find(d.orders, id));
    }
  }

  lemma {:induction false} TakenHasRoom(d: Desk, r: OrderResponse)
    ensures Taken(d, r) > 0 ==> r.id in d.pending && Taken(d, r) <= Room(d, r.id)
    ensures Taken(d, r) > 0 ==> d.pending[r.id].ticker in d.positions
  {
  }

  /** What a response takes moves the position by as much. */
  lemma {:induction false} NetMoves(d: Desk, r: OrderResponse, t: TickerId)
    requires t in d.positions
    ensures t in OnResponse(d, r).positions && OnResponse(d, r).limits == d.limits
    ensures Net(OnResponse(d, r), t) == Net(d, t) +
      (if r.id in d.pending && d.pending[r.id].ticker == t then Signed(d.pending[r.id].side, Taken(d, r)) else 0)
  {
    match r.status
    case EXECUTED => ExecutedMoves(d, r, t);
    case ACCEPTED =>
    case CANCELED =>
    case REJECTED =>
    case CANCEL_REJECTED =>
  }

  lemma {:induction false} ExecutedMoves(d: Desk, r: OrderResponse, t: TickerId)
    requires t in d.positions && r.status == EXECUTED
    ensures t in OnResponse(d, r).positions && OnResponse(d, r).limits == d.limits
    ensures Net(OnResponse(d, r), t) == Net(d, t) +
      (if r.id in d.pending && d.pending[r.id].ticker == t then Signed(d.pending[r.id].side, Taken(d, r)) else 0)
  {
    if Accepts(d, r) {
      var res := d.pending[r.id];
      FillMovesNet(d.positions[res.ticker], res.side, r.executionPrice, r.executedQty);
    }
  }

  lemma {:induction false} CanFillShrinks(d: Desk, r: OrderResponse, t: TickerId, side: Side)
    ensures CanFill(OnResponse(d, r), t, side) <=
            CanFill(d, t, side) - (if Waits(d, t, side, r.id) then Taken(d, r) else 0)
  {
    var m, m' := Rooms(d, t, side), Rooms(OnResponse(d, r), t, side);
    var q := if Waits(d, t, side, r.id) then Taken(d, r) else 0;
    forall k | k in m' ensures k in m && m'[k] <= m[k] - (if k == r.id then q else 0) {
      RoomShrinks(d, r, k);
      PendingShrinks(d, r, k);
    }
    TakenHasRoom(d, r);
    if q > 0 {
      MapSumDrop(m, m', r.id, q);
    } else {
      MapSumLess(m, m');
    }
  }

  /** No response raises the highest position that can be reached, or lowers the lowest. */
  lemma {:induction false} ReachShrinks(d: Desk, r: OrderResponse, t: TickerId)
    requires t in d.positions
    ensures var e := OnResponse(d, r);
      t in e.positions && e.limits == d.limits && Lowest(d, t) <= Lowest(e, t) && Highest(e, t) <= Highest(d, t)
  {
    NetMoves(d, r, t);
    CanFillShrinks(d, r, t, BUY);
    CanFillShrinks(d, r, t, SELL);
  }

  lemma {:induction false} RespondShrinks(d: Desk, rs: seq<OrderResponse>, t: TickerId)
    requires t in d.positions
    ensures var e := Respond(d, rs);
      t in e.positions && e.limits == d.limits && Lowest(d, t) <= Lowest(e, t) && Highest(e, t) <= Highest(d, t)
    decreases |rs|
  {
    if rs != [] {
      RespondShrinks(d, rs[..|rs| - 1], t);
      ReachShrinks(Respond(d, rs[..|rs| - 1]), rs[|rs| - 1], t);
    }
  }

  // ---------------------------------------------------------------------------
  // Filling everything on one side

  /** The average is set exactly when something is held, and both profit figures fit 64 bits. */
  predicate InOrder(p: Position) {
    && (p.net == 0 <==> p.avg == PRICE_INVALID)
    && FitsInt64(p.realized)
    && (p.net != 0 && p.mark != PRICE_INVALID ==> FitsInt64(p.net * (p.mark - p.avg)))
  }

  /** The open profit also fits after n more are bought, or sold, at the average price. */
  predicate CanGrow(p: Position, side: Side, n: int) {
    SameDirection(p, side) && p.mark != PRICE_INVALID ==> FitsInt64((p.net + Signed(side, n)) * (p.mark - p.avg))
  }

  /** A price at which a fill that does not cross zero is never refused. */
  function SafePrice(p: Position): Price {
    if p.net != 0 then p.avg else if p.mark != PRICE_INVALID then p.mark else 0
  }

  lemma {:induction false} BetweenFits(a: int, b: int, x: int, g: int)
    requires FitsInt64(a * g) && FitsInt64(b * g) && (a <= x <= b || b <= x <= a)
    ensures FitsInt64(x * g)
  {
    if g > 0 {
      MulMonotone(a, x, g);
      MulMonotone(x, b, g);
      MulMonotone(b, x, g);
      MulMonotone(x, a, g);
    } else if g < 0 {
      MulMonotone(a, x, -g);
      MulMonotone(x, b, -g);
      MulMonotone(b, x, -g);
      MulMonotone(x, a, -g);
      assert a * -g == -(a * g) && b * -g == -(b * g) && x * -g == -(x * g);
    }
  }

  lemma {:induction false} ExactMean(a: int, n: int)
    requires n > 0
    ensures TruncDiv(a * n, n) == a
  {
    TruncDivBetween(a * n, n, a, a);
  }

  /** From flat, at the mark. */
  lemma {:induction false} FillFromFlat(p: Position, side: Side, qty: Quantity)
    requires InOrder(p) && p.net == 0 && qty > 0
    ensures var next := OnExecution(p, side, SafePrice(p), qty);
      next.Some? && next.value == p.(net := Signed(side, qty), avg := SafePrice(p), unrealized := 0)
  {
    assert Signed(side, qty) * 0 == 0;
  }

  /** More of the same, at the average. */
  lemma {:induction false} FillMore(p: Position, side: Side, qty: Quantity, n: int)
    requires InOrder(p) && SameDirection(p, side) && 0 < qty <= n && CanGrow(p, side, n)
    ensures var next := OnExecution(p, side, p.avg, qty);
      next.Some? && next.value.net == p.net + Signed(side, qty) && next.value.avg == p.avg && next.value.mark == p.mark
    ensures InOrder(OnExecution(p, side, p.avg, qty).value)
  {
    MoreAtAverage(p, side, qty);
    if p.mark != PRICE_INVALID {
      BetweenFits(p.net, p.net + Signed(side, n), p.net + Signed(side, qty), p.mark - p.avg);
    }
  }

  lemma {:induction false} MoreAtAverage(p: Position, side: Side, qty: Quantity)
    requires SameDirection(p, side) && qty > 0
    ensures Fill(p, side, p.avg, qty) == Some(p.(net := p.net + Signed(side, qty)))
  {
    var held := Abs(p.net);
    assert p.avg * held + p.avg * qty == p.avg * (held + qty);
    ExactMean(p.avg, held + qty);
  }

  /** Less, down to nothing, at the average. */
  lemma {:induction false} FillLess(p: Position, side: Side, qty: Quantity)
    requires InOrder(p) && p.net != 0 && !SameDirection(p, side) && 0 < qty <= Abs(p.net)
    ensures var next := OnExecution(p, side, p.avg, qty);
      next.Some? && next.value.net == p.net + Signed(side, qty) && next.value.mark == p.mark
    ensures InOrder(OnExecution(p, side, p.avg, qty).value)
  {
    assert 0 * qty == 0;
    if p.mark != PRICE_INVALID {
      BetweenFits(p.net, 0, p.net + Signed(side, qty), p.mark - p.avg);
    }
  }

  /** How much to fill at once of `room`: no further than to a flat position. */
  function Portion(p: Position, side: Side, room: nat): nat {
    if p.net != 0 && !SameDirection(p, side) && Abs(p.net) < room then Abs(p.net) else room
  }

  lemma {:induction false} SafeFill(p: Position, side: Side, qty: Quantity, n: int)
    requires InOrder(p) && CanGrow(p, side, n) && 0 < qty <= n
    requires p.net == 0 || SameDirection(p, side) || qty <= Abs(p.net)
    ensures var next := OnExecution(p, side, SafePrice(p), qty);
      next.Some? && next.value.net == p.net + Signed(side, qty) && InOrder(next.value)
          && CanGrow(next.value, side, n - qty)
  {
    if p.net == 0 {
      FillFromFlat(p, side, qty);
      assert Signed(side, n) * 0 == 0;
    } else if SameDirection(p, side) {
      FillMore(p, side, qty, n);
    } else {
      FillLess(p, side, qty);
    }
  }

  /** The execution of q under `id`, at a price that is not refused. */
  function Execution(d: Desk, id: OrderId, q: Quantity): OrderResponse
    requires id in d.pending && d.pending[id].ticker in d.positions
  {
    OrderResponse(id, EXECUTED, q, SafePrice(d.positions[d.pending[id].ticker]), 0)
  }

  lemma {:induction false} ExecutionTaken(d: Desk, id: OrderId, q: Quantity)
    requires id in d.pending && d.pending[id].ticker in d.positions && 0 < q <= Room(d, id)
    requires OnExecution(d.positions[d.pending[id].ticker], d.pending[id].side,
                         SafePrice(d.positions[d.pending[id].ticker]), q).Some?
    ensures Taken(d, Execution(d, id, q)) == q
    ensures OnResponse(d, Execution(d, id, q)).pending == Release(d.pending, id, q)
    ensures var t := d.pending[id].ticker; OnResponse(d, Execution(d, id, q)).positions == d.positions[t :=
      OnExecution(d.positions[t], d.pending[id].side, SafePrice(d.positions[t]), q).value]
  {
  }

  lemma {:induction false} RoomAfter(d: Desk, id: OrderId, q: Quantity, other: OrderId)
    requires id in d.pending && d.pending[id].ticker in d.positions && 0 < q <= Room(d, id)
    requires Taken(d, Execution(d, id, q)) == q
    requires OnResponse(d, Execution(d, id, q)).pending == Release(d.pending, id, q)
    requires other in OnResponse(d, Execution(d, id, q)).pending
    ensures Room(OnResponse(d, Execution(d, id, q)), other) == Room(d, other) - (if other == id then q else 0)
  {
    var r := Execution(d, id, q);
    FoundAgain(d, r, other);
    if other == id {
      FilledOrder(d, r, Find(d.orders, id));
    }
  }

  lemma {:induction false} FilledOrder(d: Desk, r: OrderResponse, i: nat)
    requires i == Find(d.orders, r.id) && i < |d.orders| && r.status == EXECUTED && Taken(d, r) > 0
    ensures var o, o' := d.orders[i], OnResponse(d, r).orders[i];
      o'.qty == o.qty && o'.filled == o.filled + Taken(d, r) && (o'.Live() <==> o'.filled < o'.qty)
  {
  }

  /** The same, for any map of rooms: one id lowered by q or gone. */
  lemma {:induction false} MapSumAfter(m: map<OrderId, int>, m': map<OrderId, int>, id: OrderId, q: nat)
    requires id in m && m'.Keys - {id} == m.Keys - {id} && m[id] - q == if id in m' then m'[id] else 0
    requires forall k :: k in m' && k != id ==> k in m && m'[k] == m[k]
    ensures MapSum(m') == MapSum(m) - q
  {
    MapSumWithout(m, id);
    MapSumWithout(m', id);
    assert m' - {id} == m - {id};
  }

  lemma {:induction false} CanFillAfter(d: Desk, id: OrderId, q: Quantity, t: TickerId, side: Side)
    requires Waits(d, t, side, id) && t in d.positions && 0 < q <= Room(d, id)
    requires Taken(d, Execution(d, id, q)) == q
    requires OnResponse(d, Execution(d, id, q)).pending == Release(d.pending, id, q)
    ensures CanFill(OnResponse(d, Execution(d, id, q)), t, side) == CanFill(d, t, side) - q
  {
    var e := OnResponse(d, Execution(d, id, q));
    forall k | k in e.pending ensures Room(e, k) == Room(d, k) - (if k == id then q else 0) {
      RoomAfter(d, id, q, k);
    }
    RoomsAfter(d, e, id, q, t, side);
  }

  lemma {:induction false} OtherReserved(p: Pending, id: OrderId, q: Quantity, k: OrderId)
    requires id in p && q <= p[id].qty && k != id
    ensures k in Release(p, id, q) <==> k in p
    ensures k in p ==> Release(p, id, q)[k] == p[k]
  {
  }

  lemma {:induction false} RoomsAfter(d: Desk, e: Desk, id: OrderId, q: Quantity, t: TickerId, side: Side)
    requires Waits(d, t, side, id) && 0 < q <= Room(d, id) && e.pending == Release(d.pending, id, q)
    requires forall k :: k in e.pending ==> k in d.pending && Room(e, k) == Room(d, k) - (if k == id then q else 0)
    ensures CanFill(e, t, side) == CanFill(d, t, side) - q
  {
    var m, m' := Rooms(d, t, side), Rooms(e, t, side);
    forall k ensures k != id ==> (Waits(e, t, side, k) <==> Waits(d, t, side, k)) {
      if k != id { OtherReserved(d.pending, id, q, k); }
    }
    assert m'.Keys - {id} == m.Keys - {id};
    MapSumAfter(m, m', id, q);
  }

  /** The desk can fill all it has on one side of the ticker. */
  ghost predicate Fillable(d: Desk, t: TickerId, side: Side) {
    t in d.positions && InOrder(d.positions[t]) && CanGrow(d.positions[t], side, CanFill(d, t, side))
  }

  lemma {:induction false} RoomWithin(d: Desk, t: TickerId, side: Side, id: OrderId)
    requires Waits(d, t, side, id)
    ensures Room(d, id) <= CanFill(d, t, side)
  {
    var m := Rooms(d, t, side);
    MapSumRemove(m, id);
    MapSumNonNegative(m - {id});
  }

  lemma {:induction false} OneFill(d: Desk, t: TickerId, side: Side, id: OrderId) returns (r: OrderResponse)
    requires Fillable(d, t, side) && Waits(d, t, side, id) && Room(d, id) > 0
    ensures var e := OnResponse(d, r);
      && Fillable(e, t, side) && CanFill(e, t, side) < CanFill(d, t, side)
      && Net(e, t) + Signed(side, CanFill(e, t, side)) == Net(d, t) + Signed(side, CanFill(d, t, side))
  {
    var p := d.positions[t];
    var q: Quantity := Portion(p, side, Room(d, id));
    RoomWithin(d, t, side, id);
    SafeFill(p, side, q, CanFill(d, t, side));
    r := Execution(d, id, q);
    ExecutionTaken(d, id, q);
    CanFillAfter(d, id, q, t, side);
  }

  lemma {:induction false} NothingToFill(d: Desk, t: TickerId, side: Side)
    requires forall id :: Waits(d, t, side, id) ==> Room(d, id) == 0
    ensures CanFill(d, t, side) == 0
  {
    var m := Rooms(d, t, side);
    MapSumNonNegative(m);
    MapSumZero(m);
  }

  lemma {:induction false} MapSumZero(m: map<OrderId, int>)
    requires forall k :: k in m ==> m[k] == 0
    ensures MapSum(m) == 0
    decreases |m|
  {
    if m != map[] {
      var k :| k in m;
      MapSumRemove(m, k);
      assert (m - {k}).Keys == m.Keys - {k};
      MapSumZero(m - {k});
    }
  }

  lemma {:induction false} RespondFirst(d: Desk, r: OrderResponse, rs: seq<OrderResponse>)
    ensures Respond(d, [r] + rs) == Respond(OnResponse(d, r), rs)
    decreases |rs|
  {
    var all := [r] + rs;
    if rs == [] {
      assert all[..0] == [] && all[0] == r;
    } else {
      assert all[..|all| - 1] == [r] + rs[..|rs| - 1];
      RespondFirst(d, r, rs[..|rs| - 1]);
    }
  }

  /** Responses that fill everything that can fill on one side. */
  lemma {:induction false} FillAll(d: Desk, t: TickerId, side: Side) returns (rs: seq<OrderResponse>)
    requires Fillable(d, t, side)
    ensures t in Respond(d, rs).positions
    ensures Net(Respond(d, rs), t) == Net(d, t) + Signed(side, CanFill(d, t, side))
    decreases CanFill(d, t, side)
  {
    MapSumNonNegative(Rooms(d, t, side));
    if id :| Waits(d, t, side, id) && Room(d, id) > 0 {
      var r := OneFill(d, t, side, id);
      MapSumNonNegative(Rooms(OnResponse(d, r), t, side));
      var rest := FillAll(OnResponse(d, r), t, side);
      rs := [r] + rest;
      RespondFirst(d, r, rest);
    } else {
      rs := [];
      NothingToFill(d, t, side);
    }
  }

  // ---------------------------------------------------------------------------
  // Breaches

  /** No responses, in any order and number, take the position out of its limit. */
  ghost predicate Unbreachable(d: Desk, t: TickerId) {
    forall rs :: t in Respond(d, rs).positions && t in d.limits ==>
        Abs(Net(Respond(d, rs), t)) <= d.limits[t].maxPosition
  }

  /** On any desk, orphaned reservations and lowered orders included, safety from every sequence of
      responses is exactly that the two extreme positions are within the limit. */
  lemma {:induction false} UnbreachableIff(d: Desk, t: TickerId)
    requires Fillable(d, t, BUY) && Fillable(d, t, SELL) && t in d.limits
    ensures Unbreachable(d, t) <==>
            -d.limits[t].maxPosition <= Lowest(d, t) && Highest(d, t) <= d.limits[t].maxPosition
  {
    var max := d.limits[t].maxPosition;
    if -max <= Lowest(d, t) && Highest(d, t) <= max {
      forall rs ensures t in Respond(d, rs).positions && Abs(Net(Respond(d, rs), t)) <= max {
        RespondShrinks(d, rs, t);
        MapSumNonNegative(Rooms(Respond(d, rs), t, BUY));
        MapSumNonNegative(Rooms(Respond(d, rs), t, SELL));
      }
    } else {
      var buys := FillAll(d, t, BUY);
      var sells := FillAll(d, t, SELL);
      assert Abs(Net(Respond(d, buys), t)) > max || Abs(Net(Respond(d, sells), t)) > max;
    }
  }

  /** Every reservation of the ticker has a live order with room for all of it behind it. */
  ghost predicate AllBacked(d: Desk, t: TickerId) {
    forall id :: id in d.pending && d.pending[id].ticker == t ==> Room(d, id) == d.pending[id].qty
  }

  /** When every reservation has its order behind it, that is the bound on everything outstanding. */
  lemma {:induction false} WithinIffUnbreachable(d: Desk, t: TickerId)
    requires Fillable(d, t, BUY) && Fillable(d, t, SELL) && t in d.limits && AllBacked(d, t)
    ensures Within(d, t) <==> Unbreachable(d, t)
  {
    assert Rooms(d, t, BUY) == Contribution(d.pending, t, BUY);
    assert Rooms(d, t, SELL) == Contribution(d.pending, t, SELL);
    UnbreachableIff(d, t);
  }
}
