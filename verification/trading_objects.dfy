/**
 PnLTracker, RiskManager, OrderIdAllocator and OrderManager as the objects they are: arrays scanned
 by loops, reservations erased by swapping with the last, tables updated in place.  Every method is
 proved to do to the desk what `TradingDesk` says.
 */
module TradingObjects {
  import opened Types
  import opened Pnl
  import opened TradingDesk
  import opened KeyedTables
  import DeskLimits
  import DeskOrders

  type Entries = seq<(TickerId, Position)>

  function Worth(es: Entries): int {
    if es == [] then 0
    else Worth(es[..|es| - 1]) + es[|es| - 1].1.realized + es[|es| - 1].1.unrealized
  }

  class PnLTracker {
    var entries: Entries
    const maxTickers: nat

    constructor (maxTickers: nat)
      ensures this.maxTickers == maxTickers && Valid() && Positions() == map[]
    {
      this.maxTickers, entries := maxTickers, [];
    }

    ghost predicate Valid()
      reads this
    {
      Keyed(entries) && |entries| <= maxTickers
    }

    ghost function Positions(): map<TickerId, Position>
      reads this
    {
      ToMap(entries)
    }

    method RegisterTicker(t: TickerId) returns (ok: bool)
      requires Valid()
      modifies this
      ensures Valid()
      ensures ok <==> t in old(Positions()) || |old(entries)| < maxTickers
      ensures Positions() == if ok && t !in old(Positions()) then old(Positions())[t := FLAT] else old(Positions())
    {
      var i := Scan(entries, t);
      if i < |entries| {
        return true;
      }
      if |entries| == maxTickers {
        return false;
      }
      ToMapAppend(entries, (t, FLAT));
      forall j | 0 <= j < |entries| ensures entries[j].0 != t { ToMapAt(entries, j); }
      entries := entries + [(t, FLAT)];
      return true;
    }

    method Execute(t: TickerId, side: Side, price: Price, qty: Quantity) returns (ok: bool)
      requires Valid()
      modifies this
      ensures Valid()
      ensures ok <==> t in old(Positions()) && OnExecution(old(Positions())[t], side, price, qty).Some?
      ensures Positions() == if ok then old(Positions())[t := OnExecution(old(Positions())[t], side, price, qty).value]
                             else old(Positions())
    {
      var i := Scan(entries, t);
      if i == |entries| {
        return false;
      }
      ToMapAt(entries, i);
      var next := OnExecution(entries[i].1, side, price, qty);
      if next.None? {
        return false;
      }
      ToMapUpdate(entries, i, next.value);
      entries := entries[i := (entries[i].0, next.value)];
      return true;
    }

    method MarkTicker(t: TickerId, mark: Price) returns (ok: bool)
      requires Valid()
      modifies this
      ensures Valid()
      ensures ok <==> t in old(Positions()) && OnMark(old(Positions())[t], mark).Some?
      ensures ok ==> Positions() == old(Positions())[t := OnMark(old(Positions())[t], mark).value]
      ensures !ok ==> Positions() == old(Positions())
    {
      var i := Scan(entries, t);
      if i == |entries| {
        return false;
      }
      ToMapAt(entries, i);
      var next := OnMark(entries[i].1, mark);
      if next.None? {
        return false;
      }
      ToMapUpdate(entries, i, next.value);
      entries := entries[i := (entries[i].0, next.value)];
      return true;
    }

    /** The total over all tickers, when it fits. */
    method TotalPnL() returns (total: Option<int>)
      ensures total == if FitsInt64(Worth(entries)) then Some(Worth(entries)) else None
    {
      var sum := 0;
      for i := 0 to |entries|
        invariant sum == Worth(entries[..i])
      {
        assert entries[..i + 1][..i] == entries[..i];
        sum := sum + entries[i].1.realized + entries[i].1.unrealized;
      }
      assert entries[..|entries|] == entries;
      total := if FitsInt64(sum) then Some(sum) else None;
    }
  }

  // ---------------------------------------------------------------------------
  // Reservations

  type PendingArray = seq<(OrderId, Reservation)>

  lemma {:induction false} ToMapSize(s: PendingArray)
    requires Keyed(s)
    ensures |ToMap(s)| == |s|
    decreases |s|
  {
    if s != [] {
      var n := |s| - 1;
      ToMapSize(s[..n]);
      ToMapKeys(s[..n], s[n].0);
      assert ToMap(s).Keys == ToMap(s[..n]).Keys + {s[n].0};
    }
  }

  /** pendingExposure: one pass over the array, buys up, sells down. */
  method PendingExposure(s: PendingArray, t: TickerId) returns (exposure: int)
    requires Keyed(s)
    ensures exposure == Exposure(ToMap(s), t)
  {
    exposure := 0;
    assert Contribution(ToMap(s[..0]), t, BUY) == map[] && Contribution(ToMap(s[..0]), t, SELL) == map[];
    for i := 0 to |s|
      invariant exposure == Exposure(ToMap(s[..i]), t)
    {
      assert s[..i + 1][..i] == s[..i];
      ToMapKeys(s[..i], s[i].0);
      DeskLimits.ReservedInsert(ToMap(s[..i]), s[i].0, s[i].1, t, BUY);
      DeskLimits.ReservedInsert(ToMap(s[..i]), s[i].0, s[i].1, t, SELL);
      if s[i].1.ticker == t {
        exposure := exposure + Signed(s[i].1.side, s[i].1.qty);
      }
    }
    assert s[..|s|] == s;
  }

  class RiskManager {
    var pending: PendingArray
    var limits: map<TickerId, RiskLimits>
    var trading: bool
    const maxPending: nat

    constructor (maxPending: nat)
      ensures this.maxPending == maxPending && Valid() && Table() == map[] && limits == map[] && trading
    {
      this.maxPending, pending, limits, trading := maxPending, [], map[], true;
    }

    ghost predicate Valid()
      reads this
    {
      Keyed(pending) && |pending| <= maxPending
    }

    ghost function Table(): Pending
      reads this
    {
      ToMap(pending)
    }

    /** A ticker is registered once, with limits that are not negative. */
    method RegisterTicker(t: TickerId, l: RiskLimits, maxTickers: nat) returns (ok: bool)
      modifies this`limits
      ensures ok <==> l.maxPosition >= 0 && l.maxNotional >= 0 && t !in old(limits) && |old(limits)| != maxTickers
      ensures limits == if ok then old(limits)[t := l] else old(limits)
    {
      if l.maxPosition < 0 || l.maxNotional < 0 || t in limits || |limits| == maxTickers {
        return false;
      }
      limits := limits[t := l];
      return true;
    }

    method CheckSubmit(r: OrderRequest, pos: Position, ghost cfg: Config, ghost d: Desk) returns (result: RiskResult)
      requires Valid() && cfg.maxPending == maxPending
      requires d.pending == Table() && d.limits == limits && d.trading == trading
      ensures result == CanSubmit(cfg, d, r, pos)
    {
      if !trading {
        return TRADING_DISABLED;
      }
      if !r.kind.NEW? || r.id == 0 || r.ticker == TICKER_INVALID || r.price < 0 || r.qty == 0 {
        return INVALID_REQUEST;
      }
      if r.ticker !in limits {
        return UNKNOWN_TICKER;
      }
      var i := Scan(pending, r.id);
      if i < |pending| {
        return DUPLICATE_ORDER;
      }
      ToMapSize(pending);
      if |pending| == maxPending {
        return PENDING_CAPACITY_EXCEEDED;
      }
      var l := limits[r.ticker];
      if r.qty > l.maxQty {
        return ORDER_QTY_EXCEEDED;
      }
      if r.price * r.qty > l.maxNotional {
        return ORDER_NOTIONAL_EXCEEDED;
      }
      var exposure := PendingExposure(pending, r.ticker);
      var projected := pos.net + exposure + Signed(r.side, r.qty);
      result := if projected < -l.maxPosition || projected > l.maxPosition then POSITION_LIMIT_EXCEEDED else PASSED;
    }

    method OnSubmitted(id: OrderId, res: Reservation) returns (ok: bool)
      requires Valid()
      modifies this`pending
      ensures Valid()
      ensures ok <==> id !in old(Table()) && |old(Table())| != maxPending
      ensures Table() == if ok then old(Table())[id := res] else old(Table())
    {
      ToMapSize(pending);
      var i := Scan(pending, id);
      if i < |pending| || |pending| == maxPending {
        return false;
      }
      ToMapAppend(pending, (id, res));
      forall j | 0 <= j < |pending| ensures pending[j].0 != id { ToMapAt(pending, j); }
      pending := pending + [(id, res)];
      return true;
    }

    method OnReplaced(id: OrderId, newId: OrderId) returns (ok: bool)
      requires Valid()
      modifies this`pending
      ensures Valid()
      ensures ok <==> !RekeyFails(old(Table()), id, newId)
      ensures Table() == if ok then (old(Table()) - {id})[newId := old(Table())[id]] else old(Table())
    {
      var j := Scan(pending, newId);
      if newId == 0 || j < |pending| {
        return false;
      }
      var i := Scan(pending, id);
      if i == |pending| {
        return false;
      }
      ToMapRekey<OrderId, Reservation>(pending, i, newId);
      pending := pending[i := (newId, pending[i].1)];
      return true;
    }

    /** Lowers a reservation and swaps the last one into its place when nothing is left of it. */
    method ReleaseAt(i: nat, qty: Quantity)
      requires Valid() && i < |pending| && qty <= pending[i].1.qty
      modifies this`pending
      ensures Valid()
      ensures old(pending[i].0) in old(Table()) && old(Table())[old(pending[i].0)] == old(pending[i].1)
      ensures Table() == Release(old(Table()), old(pending[i].0), qty)
    {
      ToMapAt(pending, i);
      var res := pending[i].1.(qty := pending[i].1.qty - qty);
      if res.qty == 0 {
        SwapEraseRemoves(pending, i);
        pending := SwapErase(pending, i);
      } else {
        ToMapUpdate(pending, i, res);
        pending := pending[i := (pending[i].0, res)];
      }
    }

    method OnOrderResponse(r: OrderResponse, pnl: PnLTracker, ghost d: Desk) returns (ok: bool)
      requires Valid() && pnl.Valid() && d.pending == Table() && d.positions == pnl.Positions()
      modifies this`pending, pnl
      ensures Valid() && pnl.Valid()
      ensures ok == RiskResponse(d, r).Some?
      ensures Table() == if ok then RiskResponse(d, r).value.pending else d.pending
      ensures pnl.Positions() == if ok then RiskResponse(d, r).value.positions else d.positions
    {
      var i := Scan(pending, r.id);
      if i == |pending| {
        return false;
      }
      ToMapAt(pending, i);
      var res := pending[i].1;
      match r.status {
        case ACCEPTED | CANCEL_REJECTED =>
          return true;
        case EXECUTED =>
          if r.executedQty == 0 || r.executedQty > res.qty {
            return false;
          }
          var filled := pnl.Execute(res.ticker, res.side, r.executionPrice, r.executedQty);
          if !filled {
            return false;
          }
          ReleaseAt(i, r.executedQty);
          return true;
        case CANCELED =>
          if r.canceledQty == 0 || r.canceledQty > res.qty {
            return false;
          }
          ReleaseAt(i, r.canceledQty);
          return true;
        case REJECTED =>
          SwapEraseRemoves(pending, i);
          pending := SwapErase(pending, i);
          return true;
      }
    }
  }

  // ---------------------------------------------------------------------------
  // Orders

  class OrderIdAllocator {
    var counter: nat

    constructor ()
      ensures counter == 1
    {
      counter := 1;
    }

    method Next(slot: nat) returns (id: OrderId)
      modifies this
      ensures id == MakeId(slot, old(counter)) && counter == old(counter) + 1
    {
      id := (slot % TWO_16) * TWO_48 + counter % TWO_48;
      counter := counter + 1;
    }
  }

  /** The bounded queue to the gateway: everything ever pushed, and how much still waits. */
  class RequestQueue {
    var pushed: seq<OrderRequest>
    var waiting: nat
    const capacity: nat

    predicate HasRoom()
      reads this
    {
      waiting < capacity
    }

    method Push(r: OrderRequest) returns (ok: bool)
      modifies this
      ensures ok == old(HasRoom())
      ensures pushed == if ok then old(pushed) + [r] else old(pushed)
      ensures waiting == if ok then old(waiting) + 1 else old(waiting)
    {
      if waiting >= capacity {
        return false;
      }
      pushed, waiting := pushed + [r], waiting + 1;
      return true;
    }
  }

  class OrderManager {
    const cfg: Config
    const risk: RiskManager
    const pnl: PnLTracker
    const ids: OrderIdAllocator
    const out: RequestQueue
    var orders: seq<Order>

    constructor (cfg: Config, risk: RiskManager, pnl: PnLTracker, ids: OrderIdAllocator, out: RequestQueue)
      requires risk.Valid() && pnl.Valid() && cfg.maxPending == risk.maxPending
      ensures this.cfg == cfg && this.risk == risk && this.pnl == pnl && this.ids == ids && this.out == out
      ensures Valid() && orders == []
    {
      this.cfg, this.risk, this.pnl, this.ids, this.out, orders := cfg, risk, pnl, ids, out, [];
    }

    ghost predicate Valid()
      reads this, risk, pnl
    {
      risk.Valid() && pnl.Valid() && cfg.maxPending == risk.maxPending && |orders| <= cfg.maxOrders
    }

    /** The desk these objects make up. */
    ghost function State(): Desk
      reads this, risk, pnl, ids, out
    {
      Desk(orders, risk.Table(), risk.limits, pnl.Positions(), ids.counter, risk.trading, out.pushed)
    }

    method FindOrder(id: OrderId) returns (i: nat)
      ensures i == Find(orders, id)
    {
      i := 0;
      while i < |orders|
        invariant i <= |orders| && forall j :: 0 <= j < i ==> orders[j].id != id
      {
        if orders[i].id == id {
          return;
        }
        i := i + 1;
      }
    }

    method FindSlot() returns (i: nat)
      ensures i == AllocSlot(orders)
    {
      i := 0;
      while i < |orders|
        invariant i <= |orders| && forall j :: 0 <= j < i ==> orders[j].Live()
      {
        if !orders[i].Live() {
          return;
        }
        i := i + 1;
      }
    }

    method SendNewOrder(r: OrderRequest, pos: Position) returns (ok: bool)
      requires Valid()
      modifies this, risk`pending, ids, out
      ensures Valid()
      ensures State() == SendNew(cfg, old(State()), r, pos, old(out.HasRoom()))
      ensures ok <==> |out.pushed| > |old(out.pushed)|
    {
      ghost var d := State();
      DeskOrders.NewSteps(cfg, d, r, pos, out.HasRoom());
      var slot := FindSlot();
      if slot == cfg.maxOrders {
        return false;
      }
      var id := ids.Next(cfg.slot);
      var request := r.(id := id, newId := 0);
      assert State() == d.(counter := d.counter + 1);
      var result := risk.CheckSubmit(request, pos, cfg, State());
      if result != PASSED {
        return false;
      }
      ok := Submit(request, slot);
    }

    /** The request has passed the risk check: queue it, reserve for it, record it. */
    method Submit(request: OrderRequest, slot: nat) returns (ok: bool)
      requires Valid() && slot == AllocSlot(orders) && slot < cfg.maxOrders
      requires request.id !in risk.Table() && |risk.Table()| != cfg.maxPending
      modifies this, risk`pending, out
      ensures Valid() && ok == old(out.HasRoom())
      ensures ok ==> State() == DeskOrders.Submitted(old(State()), request, slot)
      ensures !ok ==> State() == old(State())
    {
      ok := out.Push(request);
      if !ok {
        return;
      }
      ok := risk.OnSubmitted(request.id, Reservation(request.ticker, request.side, request.qty));
      var order := Order(request.id, request.ticker, request.side, request.price, request.qty, request.ioc,
                         NOT_ACTIVE, false, false, 0, PRICE_INVALID);
      orders := if slot == |orders| then orders + [order] else orders[slot := order];
    }

    method SendCancelRequest(id: OrderId, qty: Quantity) returns (ok: bool)
      requires Valid()
      modifies this, out
      ensures Valid()
      ensures State() == SendCancel(old(State()), id, qty, old(out.HasRoom()))
      ensures ok <==> |out.pushed| > |old(out.pushed)|
    {
      var i := FindOrder(id);
      if i == |orders| || !orders[i].Live() || orders[i].cancelRequested {
        return false;
      }
      var o := orders[i];
      ok := out.Push(OrderRequest(CANCEL_REQUEST, id, 0, o.ticker, o.side, o.price, qty, o.ioc));
      if ok {
        orders := orders[i := o.(cancelRequested := true)];
      }
    }

    method SendReplaceRequest(id: OrderId, price: Price, qty: Quantity) returns (ok: bool)
      requires Valid()
      modifies this, risk`pending, ids, out
      ensures Valid()
      ensures State() == SendReplace(cfg, old(State()), id, price, qty, old(out.HasRoom()))
      ensures ok <==>
        |out.pushed| > |old(out.pushed)| && !RekeyFails(old(risk.Table()), id, MakeId(cfg.slot, old(ids.counter)))
    {
      var i := FindOrder(id);
      if i == |orders| || !orders[i].Live() || orders[i].cancelRequested {
        return false;
      }
      var o := orders[i];
      var newId := ids.Next(cfg.slot);
      ok := out.Push(OrderRequest(REPLACE_REQUEST, id, newId, o.ticker, o.side, price, qty, o.ioc));
      if !ok {
        return;
      }
      ok := risk.OnReplaced(id, newId);
      if ok {
        orders := orders[i := o.(id := newId, price := price, qty := qty)];
      }
    }

    /** Returns false when the response makes no sense for the order it names. */
    method OnOrderResponse(r: OrderResponse) returns (ok: bool)
      requires Valid()
      modifies this, risk`pending, pnl
      ensures Valid()
      ensures State() == OnResponse(old(State()), r)
      ensures ok == Accepts(old(State()), r)
    {
      var i := FindOrder(r.id);
      if i == |orders| {
        return false;
      }
      match r.status {
        case ACCEPTED =>
          ok := orders[i].Live();
          if orders[i].state.NOT_ACTIVE? {
            orders := orders[i := orders[i].(state := ACTIVE)];
          }
        case EXECUTED => ok := OnFill(r, i);
        case CANCELED => ok := OnCanceled(r, i);
        case CANCEL_REJECTED =>
          if orders[i].state.COMPLETED? || orders[i].state.DEAD? {
            return false;
          }
          orders := orders[i := orders[i].(cancelRequested := false, cancelRejected := true)];
          return true;
        case REJECTED =>
          ok := risk.OnOrderResponse(r, pnl, State());
          if ok {
            orders := orders[i := orders[i].(state := DEAD)];
          }
      }
    }

    method OnFill(r: OrderResponse, i: nat) returns (ok: bool)
      requires Valid() && r.status == EXECUTED && i == Find(orders, r.id) && i < |orders|
      modifies this, risk`pending, pnl
      ensures Valid()
      ensures State() == OnResponse(old(State()), r)
      ensures ok == Accepts(old(State()), r)
    {
      var o := orders[i];
      if r.executedQty == 0 || !o.Live() || o.filled + r.executedQty > o.qty {
        return false;
      }
      ok := risk.OnOrderResponse(r, pnl, State());
      if !ok {
        orders := orders[i := o.(state := DEAD)];
        return;
      }
      var filled: Quantity := o.filled + r.executedQty;
      var avg := FillAverage(o, r.executionPrice, r.executedQty);
      orders := orders[i := o.(filled := filled, avgFill := avg,
                               state := if filled == o.qty then COMPLETED else PARTIALLY_FILLED)];
    }

    method OnCanceled(r: OrderResponse, i: nat) returns (ok: bool)
      requires Valid() && r.status == CANCELED && i == Find(orders, r.id) && i < |orders|
      modifies this, risk`pending, pnl
      ensures Valid()
      ensures State() == OnResponse(old(State()), r)
      ensures ok == Accepts(old(State()), r)
    {
      var o := orders[i];
      if o.state.COMPLETED? || o.state.DEAD? {
        return false;
      }
      if r.canceledQty != 0 {
        ok := risk.OnOrderResponse(r, pnl, State());
        if !ok {
          return;
        }
      }
      orders := orders[i := o.(cancelRequested := false, state := if o.filled == o.qty then COMPLETED else CANCELLED)];
      return true;
    }
  }
}
