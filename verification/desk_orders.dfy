/**
 Orders and reservations agree over every run of submissions, cancels, replaces and arbitrary
 responses (src/trading/order_manager.h:74-215, src/trading/risk_manager.h:91-144).
 */
module DeskOrders {
  import opened Types
  import opened Pnl
  import opened TradingDesk

  // ---------------------------------------------------------------------------
  // Ids

  function Base(cfg: Config): nat {
    (cfg.slot % TWO_16) * TWO_48
  }

  /** The id was drawn by this slot before the counter reached `counter`. */
  predicate Issued(cfg: Config, counter: nat, id: OrderId) {
    Base(cfg) < id < Base(cfg) + counter
  }

  lemma {:induction false} NextIdIsFresh(cfg: Config, counter: nat, id: OrderId)
    requires 1 <= counter < TWO_48
    ensures MakeId(cfg.slot, counter) == Base(cfg) + counter
    ensures Issued(cfg, counter + 1, MakeId(cfg.slot, counter)) && !Issued(cfg, counter, MakeId(cfg.slot, counter))
    ensures Issued(cfg, counter, id) ==> Issued(cfg, counter + 1, id)
  {
  }

  // ---------------------------------------------------------------------------
  // The invariant

  /** A desk beside the quantity each order was first sent with, carried along its replaces. */
  datatype Watched = Watched(d: Desk, sent: map<OrderId, Quantity>)

  ghost function Watch(cfg: Config, w: Watched, e: Event): Watched {
    var id := MakeId(cfg.slot, w.d.counter);
    Watched(Step(cfg, w.d, e),
            match e
            case New(r, _, _) => w.sent[id := r.qty]
            case Replace(from, _, _, _) => if from in w.sent then w.sent[id := w.sent[from]] else w.sent
            case _ => w.sent)
  }

  /** A live order's reservation is what it was first sent with minus what has filled, and there
      is none when that is zero. */
  ghost predicate Backed(w: Watched, o: Order) {
    && o.id in w.sent && o.filled <= w.sent[o.id]
    && if o.filled < w.sent[o.id]
       then o.id in w.d.pending && w.d.pending[o.id] == Reservation(o.ticker, o.side, w.sent[o.id] - o.filled)
       else o.id !in w.d.pending
  }

  ghost predicate OrderOk(cfg: Config, w: Watched, i: nat) {
    i < |w.d.orders| ==>
      && Issued(cfg, w.d.counter, w.d.orders[i].id)
      && (w.d.orders[i].Live() ==> Backed(w, w.d.orders[i]))
  }

  ghost predicate Distinct(orders: seq<Order>) {
    forall i, j :: 0 <= i < j < |orders| ==> orders[i].id != orders[j].id
  }

  ghost predicate Inv(cfg: Config, w: Watched) {
    && 1 <= w.d.counter <= TWO_48
    && |w.d.orders| <= cfg.maxOrders
    && Distinct(w.d.orders)
    && (forall i :: OrderOk(cfg, w, i))
    && (forall id :: id in w.d.pending ==> Issued(cfg, w.d.counter, id))
  }

  /** The shared counter has ids left. */
  predicate HasIds(d: Desk, e: Event) {
    match e
    case New(_, _, _) => d.counter < TWO_48
    case Replace(_, _, _, _) => d.counter < TWO_48
    case OtherSlots(drawn, _) => d.counter + drawn <= TWO_48
    case _ => true
  }

  // ---------------------------------------------------------------------------
  // Runs

  /** A desk, watched from event to event. */
  ghost predicate Steps(cfg: Config, states: seq<Watched>, events: seq<Event>) {
    |states| == |events| + 1 && forall k :: StepAt(cfg, states, events, k)
  }

  ghost predicate StepAt(cfg: Config, states: seq<Watched>, events: seq<Event>, k: nat)
    requires |states| == |events| + 1
  {
    k < |events| ==> states[k + 1] == Watch(cfg, states[k], events[k])
  }

  // ---------------------------------------------------------------------------
  // Steps

  lemma {:induction false} FindUnique(orders: seq<Order>, id: OrderId, i: nat)
    requires Distinct(orders) && i < |orders| && orders[i].id == id
    ensures Find(orders, id) == i
  {
  }

  /** Changing one order, and the reservation under its id, leaves the other orders backed. */
  lemma {:induction false} OneOrderChanged(cfg: Config, w: Watched, v: Watched, i: nat)
    requires Inv(cfg, w) && i < |w.d.orders|
    requires |v.d.orders| == |w.d.orders| && v.d.counter == w.d.counter && v.sent == w.sent
    requires forall j :: 0 <= j < |w.d.orders| && j != i ==> v.d.orders[j] == w.d.orders[j]
    requires v.d.orders[i].id == w.d.orders[i].id
    requires v.d.orders[i].Live() ==> Backed(v, v.d.orders[i])
    requires forall id :: id != w.d.orders[i].id ==> (id in v.d.pending <==> id in w.d.pending)
    requires forall id :: id in w.d.pending && id != w.d.orders[i].id ==> v.d.pending[id] == w.d.pending[id]
    ensures Inv(cfg, v)
  {
    forall j: nat ensures OrderOk(cfg, v, j) {
      assert OrderOk(cfg, w, j);
    }
    assert OrderOk(cfg, w, i);
    forall id | id in v.d.pending ensures Issued(cfg, v.d.counter, id) {
      if id != w.d.orders[i].id { assert id in w.d.pending; }
    }
  }

  lemma {:induction false} ExecutedKeepsInv(cfg: Config, w: Watched, r: OrderResponse)
    requires Inv(cfg, w) && r.status == EXECUTED
    ensures Inv(cfg, w.(d := OnResponse(w.d, r)))
  {
    var i := Find(w.d.orders, r.id);
    if i < |w.d.orders| {
      assert OrderOk(cfg, w, i);
      OneOrderChanged(cfg, w, w.(d := OnResponse(w.d, r)), i);
    }
  }

  lemma {:induction false} FinishedKeepsInv(cfg: Config, w: Watched, r: OrderResponse)
    requires Inv(cfg, w) && (r.status == CANCELED || r.status == REJECTED)
    ensures Inv(cfg, w.(d := OnResponse(w.d, r)))
  {
    var i := Find(w.d.orders, r.id);
    if i < |w.d.orders| {
      assert OrderOk(cfg, w, i);
      OneOrderChanged(cfg, w, w.(d := OnResponse(w.d, r)), i);
    }
  }

  lemma {:induction false} ResponseKeepsInv(cfg: Config, w: Watched, r: OrderResponse)
    requires Inv(cfg, w)
    ensures Inv(cfg, w.(d := OnResponse(w.d, r)))
  {
    if r.status == EXECUTED {
      ExecutedKeepsInv(cfg, w, r);
    } else if r.status == CANCELED || r.status == REJECTED {
      FinishedKeepsInv(cfg, w, r);
    } else {
      var i := Find(w.d.orders, r.id);
      if i < |w.d.orders| {
        assert OrderOk(cfg, w, i);
        OneOrderChanged(cfg, w, w.(d := OnResponse(w.d, r)), i);
      }
    }
  }

  lemma {:induction false} CancelKeepsInv(cfg: Config, w: Watched, id: OrderId, qty: Quantity, pushed: bool)
    requires Inv(cfg, w)
    ensures Inv(cfg, Watch(cfg, w, Cancel(id, qty, pushed)))
  {
    var i := Find(w.d.orders, id);
    if i < |w.d.orders| {
      assert OrderOk(cfg, w, i);
      OneOrderChanged(cfg, w, Watch(cfg, w, Cancel(id, qty, pushed)), i);
    }
  }

  /** What was recorded for ids already drawn is not touched. */
  ghost predicate SameSent(cfg: Config, w: Watched, v: Watched) {
    forall id :: Issued(cfg, w.d.counter, id) ==>
      (id in v.sent <==> id in w.sent) && (id in w.sent ==> v.sent[id] == w.sent[id])
  }

  lemma {:induction false} SameTables(cfg: Config, w: Watched, v: Watched)
    requires Inv(cfg, w) && SameSent(cfg, w, v) && v.d.orders == w.d.orders && v.d.pending == w.d.pending
    requires w.d.counter <= v.d.counter <= TWO_48
    ensures Inv(cfg, v)
  {
    forall j: nat ensures OrderOk(cfg, v, j) { assert OrderOk(cfg, w, j); }
  }

  /** The record of an order just sent. */
  function OrderFor(r: OrderRequest): Order {
    Order(r.id, r.ticker, r.side, r.price, r.qty, r.ioc, NOT_ACTIVE, false, false, 0, PRICE_INVALID)
  }

  /** The desk once `r` has passed the check, been queued and taken place `slot`. */
  function Submitted(d: Desk, r: OrderRequest, slot: nat): Desk
    requires slot <= |d.orders|
  {
    d.(outbox := d.outbox + [r], pending := d.pending[r.id := Reservation(r.ticker, r.side, r.qty)],
       orders := if slot == |d.orders| then d.orders + [OrderFor(r)] else d.orders[slot := OrderFor(r)])
  }

  /** What becomes of a new order: no place for it, not sent, or sent. */
  lemma {:induction false} NewSteps(cfg: Config, d: Desk, r: OrderRequest, pos: Position, pushed: bool)
    ensures var slot, request := AllocSlot(d.orders), r.(id := MakeId(cfg.slot, d.counter), newId := 0);
      SendNew(cfg, d, r, pos, pushed) ==
        if slot >= cfg.maxOrders then d
        else
          var e := d.(counter := d.counter + 1);
          if CanSubmit(cfg, e, request, pos) == PASSED && pushed then Submitted(e, request, slot) else e
  {
  }

  lemma {:induction false} NewGoesThrough(
      cfg: Config, d: Desk, r: OrderRequest, pos: Position, slot: nat, id: OrderId, d': Desk)
    requires slot == AllocSlot(d.orders) < cfg.maxOrders && id == MakeId(cfg.slot, d.counter)
    requires CanSubmit(cfg, d.(counter := d.counter + 1), r.(id := id, newId := 0), pos) == PASSED
    requires d' == Submitted(d.(counter := d.counter + 1), r.(id := id, newId := 0), slot)
    ensures Step(cfg, d, New(r, pos, true)) == d'
  {
    NewSteps(cfg, d, r, pos, true);
  }

  /** One order under a fresh id takes place i; reservations of the ids in use are untouched,
      except that the id place i held may lose its own. */
  lemma {:induction false} OrderPlaced(cfg: Config, w: Watched, v: Watched, i: nat, id: OrderId)
    requires Inv(cfg, w) && SameSent(cfg, w, v) && i < |v.d.orders| <= cfg.maxOrders
    requires v.d.counter == w.d.counter + 1 <= TWO_48 && id == MakeId(cfg.slot, w.d.counter)
    requires |w.d.orders| <= |v.d.orders| <= |w.d.orders| + 1 && (i == |w.d.orders| || |v.d.orders| == |w.d.orders|)
    requires forall j :: 0 <= j < |v.d.orders| && j != i ==> j < |w.d.orders| && v.d.orders[j] == w.d.orders[j]
    requires v.d.orders[i].id == id && Backed(v, v.d.orders[i])
    requires forall k :: k in v.d.pending && k != id ==> k in w.d.pending
    requires forall k :: k in w.d.pending && (i < |w.d.orders| ==> k != w.d.orders[i].id) ==>
               k in v.d.pending && v.d.pending[k] == w.d.pending[k]
    ensures Inv(cfg, v)
  {
    NextIdIsFresh(cfg, w.d.counter, id);
    forall j: nat ensures OrderOk(cfg, v, j) {
      if j < |v.d.orders| && j != i { assert OrderOk(cfg, w, j); }
    }
    forall j | 0 <= j < |v.d.orders| && j != i ensures v.d.orders[j].id != id { assert OrderOk(cfg, w, j); }
  }

  lemma {:induction false} NewKeepsInv(cfg: Config, w: Watched, r: OrderRequest, pos: Position, pushed: bool)
    requires Inv(cfg, w) && w.d.counter < TWO_48
    ensures Inv(cfg, Watch(cfg, w, New(r, pos, pushed)))
  {
    var v, id := Watch(cfg, w, New(r, pos, pushed)), MakeId(cfg.slot, w.d.counter);
    NextIdIsFresh(cfg, w.d.counter, id);
    if v.d.orders == w.d.orders && v.d.pending == w.d.pending {
      SameTables(cfg, w, v);
    } else {
      OrderPlaced(cfg, w, v, AllocSlot(w.d.orders), id);
    }
  }

  lemma {:induction false} ReplaceKeepsInv(
      cfg: Config, w: Watched, id: OrderId, price: Price, qty: Quantity, pushed: bool)
    requires Inv(cfg, w) && w.d.counter < TWO_48
    ensures Inv(cfg, Watch(cfg, w, Replace(id, price, qty, pushed)))
  {
    var v, i := Watch(cfg, w, Replace(id, price, qty, pushed)), Find(w.d.orders, id);
    NextIdIsFresh(cfg, w.d.counter, id);
    if v.d.orders == w.d.orders && v.d.pending == w.d.pending {
      SameTables(cfg, w, v);
    } else {
      assert OrderOk(cfg, w, i);
      OrderPlaced(cfg, w, v, i, MakeId(cfg.slot, w.d.counter));
    }
  }

  lemma {:induction false} StepKeepsInv(cfg: Config, w: Watched, e: Event)
    requires Inv(cfg, w) && HasIds(w.d, e)
    ensures Inv(cfg, Watch(cfg, w, e))
  {
    match e
    case New(r, pos, pushed) => NewKeepsInv(cfg, w, r, pos, pushed);
    case Cancel(id, qty, pushed) => CancelKeepsInv(cfg, w, id, qty, pushed);
    case Replace(id, price, qty, pushed) => ReplaceKeepsInv(cfg, w, id, price, qty, pushed);
    case Response(r) => ResponseKeepsInv(cfg, w, r);
    case Mark(_, _) => SameTables(cfg, w, Watch(cfg, w, e));
    case SetTrading(_) => SameTables(cfg, w, Watch(cfg, w, e));
    case OtherSlots(_, _) => SameTables(cfg, w, Watch(cfg, w, e));
  }
}
