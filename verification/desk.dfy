/**
 One strategy slot's order table, risk reservations, positions and id counter, and every step that
 changes them (src/trading/order_manager.h, risk_manager.h, order_id_allocator.h).
 */
module TradingDesk {
  import opened Types
  import opened Pnl
  import Sums

  const TWO_48 := 0x1_0000_0000_0000
  const TWO_16 := 0x1_0000

  /** The slot number in the high 16 bits, the masked counter below it. */
  function MakeId(slot: nat, counter: nat): OrderId {
    (slot % TWO_16) * TWO_48 + counter % TWO_48
  }

  datatype RequestType = NEW | CANCEL_REQUEST | REPLACE_REQUEST

  datatype OrderRequest = OrderRequest(
    kind: RequestType, id: OrderId, newId: OrderId, ticker: TickerId, side: Side, price: Price,
    qty: Quantity, ioc: bool)

  datatype Status = ACCEPTED | EXECUTED | CANCELED | REJECTED | CANCEL_REJECTED

  datatype OrderResponse = OrderResponse(
    id: OrderId, status: Status, executedQty: Quantity, executionPrice: Price, canceledQty: Quantity)

  datatype OrderState = NOT_ACTIVE | ACTIVE | PARTIALLY_FILLED | COMPLETED | CANCELLED | DEAD

  datatype Order = Order(
    id: OrderId, ticker: TickerId, side: Side, price: Price, qty: Quantity, ioc: bool,
    state: OrderState, cancelRequested: bool, cancelRejected: bool, filled: Quantity, avgFill: Price)
  {
    predicate Live() {
      state.NOT_ACTIVE? || state.ACTIVE? || state.PARTIALLY_FILLED?
    }
  }

  datatype RiskLimits = RiskLimits(maxPosition: int, maxQty: Quantity, maxNotional: int)

  datatype Reservation = Reservation(ticker: TickerId, side: Side, qty: Quantity)

  type Pending = map<OrderId, Reservation>

  datatype RiskResult =
    | PASSED | TRADING_DISABLED | INVALID_REQUEST | UNKNOWN_TICKER | DUPLICATE_ORDER
    | PENDING_CAPACITY_EXCEEDED | ORDER_QTY_EXCEEDED | ORDER_NOTIONAL_EXCEEDED | POSITION_LIMIT_EXCEEDED

  /** Capacities and slot number, fixed at start-up. */
  datatype Config = Config(slot: nat, maxOrders: nat, maxPending: nat)

  datatype Desk = Desk(
    orders: seq<Order>,
    pending: Pending,
    limits: map<TickerId, RiskLimits>,
    positions: map<TickerId, Position>,
    counter: nat,
    trading: bool,
    outbox: seq<OrderRequest>)

  // ---------------------------------------------------------------------------
  // Risk

  function Contribution(p: Pending, t: TickerId, side: Side): map<OrderId, int> {
    map id | id in p && p[id].ticker == t && p[id].side == side :: p[id].qty as int
  }

  /** The quantity reserved on one side of a ticker. */
  ghost function Reserved(p: Pending, t: TickerId, side: Side): int {
    Sums.MapSum(Contribution(p, t, side))
  }

  /** pendingExposure: buys count up, sells count down. */
  ghost function Exposure(p: Pending, t: TickerId): int {
    Reserved(p, t, BUY) - Reserved(p, t, SELL)
  }

  ghost function CanSubmit(cfg: Config, d: Desk, r: OrderRequest, pos: Position): RiskResult {
    if !d.trading then TRADING_DISABLED
    else if !r.kind.NEW? || r.id == 0 || r.ticker == TICKER_INVALID || r.price < 0 || r.qty == 0 then INVALID_REQUEST
    else if r.ticker !in d.limits then UNKNOWN_TICKER
    else if r.id in d.pending then DUPLICATE_ORDER
    else if |d.pending| == cfg.maxPending then PENDING_CAPACITY_EXCEEDED
    else if r.qty > d.limits[r.ticker].maxQty then ORDER_QTY_EXCEEDED
    else if r.price * r.qty > d.limits[r.ticker].maxNotional then ORDER_NOTIONAL_EXCEEDED
    else
      var projected := pos.net + Exposure(d.pending, r.ticker) + Signed(r.side, r.qty);
      if -d.limits[r.ticker].maxPosition <= projected <= d.limits[r.ticker].maxPosition then PASSED
      else POSITION_LIMIT_EXCEEDED
  }

  /** A reservation made smaller, and dropped when it reaches zero. */
  function Release(p: Pending, id: OrderId, qty: Quantity): Pending
    requires id in p && qty <= p[id].qty
  {
    if qty == p[id].qty then p - {id} else p[id := p[id].(qty := p[id].qty - qty)]
  }

  /** RiskManager::onOrderResponse: None when it refuses. */
  function RiskResponse(d: Desk, r: OrderResponse): Option<Desk> {
    if r.id !in d.pending then None
    else
      var res := d.pending[r.id];
      match r.status
      case ACCEPTED | CANCEL_REJECTED => Some(d)
      case EXECUTED =>
        if r.executedQty == 0 || r.executedQty > res.qty || res.ticker !in d.positions then None
        else
          var next := OnExecution(d.positions[res.ticker], res.side, r.executionPrice, r.executedQty);
          if next.None? then None
          else Some(d.(positions := d.positions[res.ticker := next.value],
                       pending := Release(d.pending, r.id, r.executedQty)))
      case CANCELED =>
        if r.canceledQty == 0 || r.canceledQty > res.qty then None
        else Some(d.(pending := Release(d.pending, r.id, r.canceledQty)))
      case REJECTED => Some(d.(pending := d.pending - {r.id}))
  }

  // ---------------------------------------------------------------------------
  // Orders

  /** The first order with this id, or the number of orders. */
  function Find(orders: seq<Order>, id: OrderId): (i: nat)
    ensures i <= |orders| && (i < |orders| ==> orders[i].id == id)
    ensures forall j :: 0 <= j < i ==> orders[j].id != id
  {
    if orders == [] then 0
    else if orders[0].id == id then 0
    else 1 + Find(orders[1..], id)
  }

  /** The first finished order's place, or the number of orders. */
  function AllocSlot(orders: seq<Order>): (i: nat)
    ensures i <= |orders| && (i < |orders| ==> !orders[i].Live())
    ensures forall j :: 0 <= j < i ==> orders[j].Live()
  {
    if orders == [] then 0
    else if !orders[0].Live() then 0
    else 1 + AllocSlot(orders[1..])
  }

  ghost function SendNew(cfg: Config, d: Desk, r: OrderRequest, pos: Position, pushed: bool): Desk {
    var slot := AllocSlot(d.orders);
    if slot >= cfg.maxOrders then d
    else
      var request := r.(id := MakeId(cfg.slot, d.counter), newId := 0);
      var e := d.(counter := d.counter + 1);
      if CanSubmit(cfg, e, request, pos) != PASSED || !pushed then e
      else
        var f := e.(outbox := e.outbox + [request]);
        if request.id in f.pending || |f.pending| == cfg.maxPending then f
        else
          var order := Order(request.id, r.ticker, r.side, r.price, r.qty, r.ioc,
                             NOT_ACTIVE, false, false, 0, PRICE_INVALID);
          f.(pending := f.pending[request.id := Reservation(r.ticker, r.side, r.qty)],
             orders := if slot == |f.orders| then f.orders + [order] else f.orders[slot := order])
  }

  function SendCancel(d: Desk, id: OrderId, qty: Quantity, pushed: bool): Desk {
    var i := Find(d.orders, id);
    if i == |d.orders| || !d.orders[i].Live() || d.orders[i].cancelRequested || !pushed then d
    else
      var o := d.orders[i];
      d.(outbox := d.outbox + [OrderRequest(CANCEL_REQUEST, id, 0, o.ticker, o.side, o.price, qty, o.ioc)],
         orders := d.orders[i := o.(cancelRequested := true)])
  }

  /** RiskManager::onReplaced refuses. */
  predicate RekeyFails(p: Pending, id: OrderId, newId: OrderId) {
    newId == 0 || newId in p || id !in p
  }

  function SendReplace(cfg: Config, d: Desk, id: OrderId, price: Price, qty: Quantity, pushed: bool): Desk {
    var i := Find(d.orders, id);
    if i == |d.orders| || !d.orders[i].Live() || d.orders[i].cancelRequested then d
    else
      var o, newId := d.orders[i], MakeId(cfg.slot, d.counter);
      var e := d.(counter := d.counter + 1);
      if !pushed then e
      else
        var request := OrderRequest(REPLACE_REQUEST, id, newId, o.ticker, o.side, price, qty, o.ioc);
        var f := e.(outbox := e.outbox + [request]);
        if RekeyFails(f.pending, id, newId) then f
        else f.(pending := (f.pending - {id})[newId := f.pending[id]],
                orders := f.orders[i := o.(id := newId, price := price, qty := qty)])
  }

  /** The average fill price after a further fill. */
  function FillAverage(o: Order, price: Price, qty: Quantity): Price
    requires qty > 0
  {
    if o.filled == 0 then price
    else
      MeanBetween(o.avgFill, o.filled, price, qty);
      TruncDiv(o.avgFill * o.filled + price * qty, o.filled + qty)
  }

  function OnResponse(d: Desk, r: OrderResponse): Desk {
    var i := Find(d.orders, r.id);
    if i == |d.orders| then d
    else
      var o := d.orders[i];
      match r.status
      case ACCEPTED => if o.state.NOT_ACTIVE? then d.(orders := d.orders[i := o.(state := ACTIVE)]) else d
      case EXECUTED =>
        if r.executedQty == 0 || !o.Live() || o.filled + r.executedQty > o.qty then d
        else
          var e := RiskResponse(d, r);
          if e.None? then d.(orders := d.orders[i := o.(state := DEAD)])
          else
            var filled: Quantity := o.filled + r.executedQty;
            e.value.(orders := d.orders[i := o.(filled := filled,
                                                avgFill := FillAverage(o, r.executionPrice, r.executedQty),
                                                state := if filled == o.qty then COMPLETED else PARTIALLY_FILLED)])
      case CANCELED =>
        if o.state.COMPLETED? || o.state.DEAD? then d
        else
          var e := if r.canceledQty == 0 then Some(d) else RiskResponse(d, r);
          if e.None? then d
          else e.value.(orders := d.orders[i := o.(cancelRequested := false,
                                                   state := if o.filled == o.qty then COMPLETED else CANCELLED)])
      case CANCEL_REJECTED =>
        if o.state.COMPLETED? || o.state.DEAD? then d
        else d.(orders := d.orders[i := o.(cancelRequested := false, cancelRejected := true)])
      case REJECTED =>
        var e := RiskResponse(d, r);
        if e.None? then d else e.value.(orders := d.orders[i := o.(state := DEAD)])
  }

  /** A desk on its own, given a list of responses. */
  function Respond(d: Desk, rs: seq<OrderResponse>): Desk {
    if rs == [] then d else OnResponse(Respond(d, rs[..|rs| - 1]), rs[|rs| - 1])
  }

  /** onOrderResponse returns true: the response made sense for a known order. */
  predicate Accepts(d: Desk, r: OrderResponse) {
    var i := Find(d.orders, r.id);
    && i < |d.orders|
    && var o := d.orders[i];
    match r.status
    case ACCEPTED => o.Live()
    case EXECUTED => r.executedQty > 0 && o.Live() && o.filled + r.executedQty <= o.qty && RiskResponse(d, r).Some?
    case CANCELED => !o.state.COMPLETED? && !o.state.DEAD? && (r.canceledQty == 0 || RiskResponse(d, r).Some?)
    case CANCEL_REJECTED => !o.state.COMPLETED? && !o.state.DEAD?
    case REJECTED => RiskResponse(d, r).Some?
  }

  function OnMarkTicker(d: Desk, t: TickerId, price: Price): Desk {
    if t !in d.positions || OnMark(d.positions[t], price).None? then d
    else d.(positions := d.positions[t := OnMark(d.positions[t], price).value])
  }

  /** Everything that can happen to a desk.  `pushed` says whether the gateway queue had room; `OtherSlots`
      is another slot drawing ids from the counter and pushing to the queue that all slots share. */
  datatype Event =
    | New(request: OrderRequest, position: Position, pushed: bool)
    | Cancel(id: OrderId, qty: Quantity, pushed: bool)
    | Replace(id: OrderId, price: Price, qty: Quantity, pushed: bool)
    | Response(response: OrderResponse)
    | Mark(ticker: TickerId, price: Price)
    | SetTrading(enabled: bool)
    | OtherSlots(drawn: nat, queued: seq<OrderRequest>)

  ghost function Step(cfg: Config, d: Desk, e: Event): Desk {
    match e
    case New(r, pos, pushed) => SendNew(cfg, d, r, pos, pushed)
    case Cancel(id, qty, pushed) => SendCancel(d, id, qty, pushed)
    case Replace(id, price, qty, pushed) => SendReplace(cfg, d, id, price, qty, pushed)
    case Response(r) => OnResponse(d, r)
    case Mark(t, price) => OnMarkTicker(d, t, price)
    case SetTrading(enabled) => d.(trading := enabled)
    case OtherSlots(drawn, queued) => d.(counter := d.counter + drawn, outbox := d.outbox + queued)
  }
}
