/**
 What holds of a desk in every reachable state: reservations, replaces, terminal orders, leaked
 reservations.
 */
module DeskTheorems {
  import opened Types
  import opened Pnl
  import opened TradingDesk
  import opened DeskOrders

  /** A desk at start-up: no orders, no reservations, ids from 1. */
  predicate IsOpening(d: Desk) {
    d.orders == [] && d.pending == map[] && d.counter == 1
  }

  /** A run from start-up that the shared counter has ids for. */
  ghost predicate IsRun(cfg: Config, states: seq<Watched>, events: seq<Event>) {
    Steps(cfg, states, events) && IsOpening(states[0].d) && forall k :: HasIdsAt(states, events, k)
  }

  ghost predicate HasIdsAt(states: seq<Watched>, events: seq<Event>, k: nat)
    requires |states| == |events| + 1
  {
    k < |events| ==> HasIds(states[k].d, events[k])
  }

  ghost predicate Follows(cfg: Config, w: Watched, e: Event, w': Watched) {
    HasIds(w.d, e) && w' == Watch(cfg, w, e)
  }

  lemma {:induction false} StepOfRun(cfg: Config, states: seq<Watched>, events: seq<Event>, k: nat)
    requires IsRun(cfg, states, events) && k < |events|
    ensures Follows(cfg, states[k], events[k], states[k + 1])
  {
    assert StepAt(cfg, states, events, k) && HasIdsAt(states, events, k);
  }

  lemma {:induction false} FollowsKeepsInv(cfg: Config, w: Watched, e: Event, w': Watched)
    requires Inv(cfg, w) && Follows(cfg, w, e, w')
    ensures Inv(cfg, w')
  {
    StepKeepsInv(cfg, w, e);
  }

  lemma {:induction false} RunKeepsInv(cfg: Config, states: seq<Watched>, events: seq<Event>, i: nat)
    requires IsRun(cfg, states, events) && i < |states|
    ensures Inv(cfg, states[i])
  {
    if i > 0 {
      RunKeepsInv(cfg, states, events, i - 1);
      StepOfRun(cfg, states, events, i - 1);
      FollowsKeepsInv(cfg, states[i - 1], events[i - 1], states[i]);
    }
  }

  function ReservedFor(d: Desk, id: OrderId): int {
    if id in d.pending then d.pending[id].qty else 0
  }

  /** In every reachable state a live order reserves what it was first sent with minus what has
      filled.  That is its open quantity exactly when its replaces kept the quantity. */
  lemma {:induction false} ReservationOfLiveOrder(cfg: Config, states: seq<Watched>, events: seq<Event>, i: nat, j: nat)
    requires IsRun(cfg, states, events) && i < |states| && j < |states[i].d.orders| && states[i].d.orders[j].Live()
    ensures var w := states[i]; var o := w.d.orders[j];
      && o.id in w.sent
      && ReservedFor(w.d, o.id) == w.sent[o.id] - o.filled
      && (o.id in w.d.pending ==> w.d.pending[o.id].ticker == o.ticker && w.d.pending[o.id].side == o.side)
      && (ReservedFor(w.d, o.id) == o.qty - o.filled <==> o.qty == w.sent[o.id])
  {
    RunKeepsInv(cfg, states, events, i);
    assert OrderOk(cfg, states[i], j);
  }

  // ---------------------------------------------------------------------------
  // Replaces that keep the quantity

  predicate KeepsQuantity(d: Desk, e: Event) {
    e.Replace? && Find(d.orders, e.id) < |d.orders| ==> d.orders[Find(d.orders, e.id)].qty == e.qty
  }

  ghost predicate EvenAt(w: Watched, i: nat) {
    i < |w.d.orders| && w.d.orders[i].Live() ==>
      var o := w.d.orders[i];
      o.id in w.sent && o.qty == w.sent[o.id] && o.filled < o.qty
  }

  ghost predicate Even(w: Watched) {
    forall i :: EvenAt(w, i)
  }

  lemma {:induction false} StepKeepsEven(cfg: Config, w: Watched, e: Event)
    requires Inv(cfg, w) && HasIds(w.d, e) && Even(w) && KeepsQuantity(w.d, e)
    ensures Even(Watch(cfg, w, e))
  {
    var v := Watch(cfg, w, e);
    forall i: nat ensures EvenAt(v, i) {
      assert EvenAt(w, i) && OrderOk(cfg, w, i);
      if e.New? || e.Replace? { NextIdIsFresh(cfg, w.d.counter, if i < |w.d.orders| then w.d.orders[i].id else 0); }
      StepKeepsEvenAt(cfg, w, e, i);
    }
  }

  lemma {:induction false} StepKeepsEvenAt(cfg: Config, w: Watched, e: Event, i: nat)
    requires Inv(cfg, w) && HasIds(w.d, e) && EvenAt(w, i) && OrderOk(cfg, w, i) && KeepsQuantity(w.d, e)
    requires (e.New? || e.Replace?) && i < |w.d.orders| ==> w.d.orders[i].id != MakeId(cfg.slot, w.d.counter)
    ensures EvenAt(Watch(cfg, w, e), i)
  {
    match e
    case New(_, _, _) => NewKeepsEvenAt(cfg, w, e, i);
    case Cancel(_, _, _) =>
    case Replace(_, _, _, _) => ReplaceKeepsEvenAt(cfg, w, e, i);
    case Response(r) => ResponseKeepsEvenAt(w, r, i);
    case Mark(_, _) =>
    case SetTrading(_) =>
    case OtherSlots(_, _) =>
  }

  lemma {:induction false} NewKeepsEvenAt(cfg: Config, w: Watched, e: Event, i: nat)
    requires EvenAt(w, i) && e.New? && (i < |w.d.orders| ==> w.d.orders[i].id != MakeId(cfg.slot, w.d.counter))
    ensures EvenAt(Watch(cfg, w, e), i)
  {
    NewSteps(cfg, w.d, e.request, e.position, e.pushed);
  }

  lemma {:induction false} ReplaceKeepsEvenAt(cfg: Config, w: Watched, e: Event, i: nat)
    requires EvenAt(w, i) && e.Replace? && KeepsQuantity(w.d, e)
    requires i < |w.d.orders| ==> w.d.orders[i].id != MakeId(cfg.slot, w.d.counter)
    ensures EvenAt(Watch(cfg, w, e), i)
  {
  }

  /** What a response may do to an order: its identity and quantity stay, a finished order stays
      finished, and a fill leaves it live only when it is partial. */
  predicate Progress(o: Order, o': Order) {
    && o'.id == o.id && o'.qty == o.qty
    && (o'.Live() ==> o.Live() && (o'.filled == o.filled || o'.filled < o.qty))
  }

  lemma {:induction false} ResponseProgress(d: Desk, r: OrderResponse, j: nat)
    requires j < |d.orders|
    ensures |OnResponse(d, r).orders| == |d.orders| && Progress(d.orders[j], OnResponse(d, r).orders[j])
  {
    if j != Find(d.orders, r.id) {
      OthersUntouched(d, r, j);
    } else if r.status == EXECUTED {
      ExecutedProgress(d, r, j);
    } else {
      ResponseLength(d, r);
    }
  }

  /** A response changes no order but the one it names. */
  lemma {:induction false} OthersUntouched(d: Desk, r: OrderResponse, i: nat)
    requires i < |d.orders| && i != Find(d.orders, r.id)
    ensures |OnResponse(d, r).orders| == |d.orders| && OnResponse(d, r).orders[i] == d.orders[i]
  {
    ResponseLength(d, r);
    match r.status
    case ACCEPTED =>
    case EXECUTED =>
    case CANCELED =>
    case REJECTED =>
    case CANCEL_REJECTED =>
  }

  lemma {:induction false} ExecutedProgress(d: Desk, r: OrderResponse, i: nat)
    requires r.status == EXECUTED && i == Find(d.orders, r.id) && i < |d.orders|
    ensures |OnResponse(d, r).orders| == |d.orders| && Progress(d.orders[i], OnResponse(d, r).orders[i])
  {
  }

  lemma {:induction false} ResponseKeepsEvenAt(w: Watched, r: OrderResponse, i: nat)
    requires EvenAt(w, i)
    ensures EvenAt(w.(d := OnResponse(w.d, r)), i)
  {
    if i < |w.d.orders| { ResponseProgress(w.d, r, i); } else { ResponseLength(w.d, r); }
  }

  lemma {:induction false} ResponseLength(d: Desk, r: OrderResponse)
    ensures |OnResponse(d, r).orders| == |d.orders|
  {
  }

  lemma {:induction false} RunStaysEven(cfg: Config, states: seq<Watched>, events: seq<Event>, i: nat)
    requires IsRun(cfg, states, events) && i < |states|
    requires forall k {:trigger events[k]} :: 0 <= k < |events| ==> KeepsQuantity(states[k].d, events[k])
    ensures Even(states[i])
  {
    if i > 0 {
      RunStaysEven(cfg, states, events, i - 1);
      RunKeepsInv(cfg, states, events, i - 1);
      StepOfRun(cfg, states, events, i - 1);
      StepKeepsEven(cfg, states[i - 1], events[i - 1]);
    }
  }

  /** With quantity-keeping replaces every live order has exactly one reservation, equal to what is
      open on it. */
  lemma {:induction false} EvenRun(cfg: Config, states: seq<Watched>, events: seq<Event>, i: nat, j: nat)
    requires IsRun(cfg, states, events) && i < |states|
    requires forall k {:trigger events[k]} :: 0 <= k < |events| ==> KeepsQuantity(states[k].d, events[k])
    requires j < |states[i].d.orders| && states[i].d.orders[j].Live()
    ensures var d := states[i].d; var o := d.orders[j];
      o.filled < o.qty && o.id in d.pending && d.pending[o.id] == Reservation(o.ticker, o.side, o.qty - o.filled)
  {
    RunStaysEven(cfg, states, events, i);
    RunKeepsInv(cfg, states, events, i);
    assert OrderOk(cfg, states[i], j) && EvenAt(states[i], j);
  }

  /** The push of a replace comes before the re-keying of its reservation.  The re-keying fails
      exactly for an order that has already filled all it was first sent with. */
  lemma {:induction false} RekeyFailsIff(cfg: Config, w: Watched, i: nat)
    requires Inv(cfg, w) && w.d.counter < TWO_48 && i < |w.d.orders| && w.d.orders[i].Live()
    ensures var o := w.d.orders[i];
      o.id in w.sent && (RekeyFails(w.d.pending, o.id, MakeId(cfg.slot, w.d.counter)) <==> o.filled == w.sent[o.id])
  {
    assert OrderOk(cfg, w, i);
    NextIdIsFresh(cfg, w.d.counter, 0);
  }

  /** No new order reaches the gateway queue without its reservation and its record. */
  lemma {:induction false} NewIsReserved(cfg: Config, d: Desk, r: OrderRequest, pos: Position, pushed: bool)
    ensures var e := SendNew(cfg, d, r, pos, pushed);
      e.outbox == d.outbox ||
      var id := MakeId(cfg.slot, d.counter);
      && e.outbox == d.outbox + [r.(id := id, newId := 0)]
      && id !in d.pending && id in e.pending && e.pending[id] == Reservation(r.ticker, r.side, r.qty)
      && (exists j :: 0 <= j < |e.orders| && e.orders[j].id == id && e.orders[j].state == NOT_ACTIVE
                      && e.orders[j].qty == r.qty)
  {
    var e, slot := SendNew(cfg, d, r, pos, pushed), AllocSlot(d.orders);
    if e.outbox != d.outbox {
      assert e.orders[slot].id == MakeId(cfg.slot, d.counter);
    }
  }

  // ---------------------------------------------------------------------------
  // Terminal orders and leaked reservations

  /** No order under this id is live. */
  predicate NotLive(d: Desk, id: OrderId) {
    forall j :: 0 <= j < |d.orders| && d.orders[j].id == id ==> !d.orders[j].Live()
  }

  /** A finished order never comes back to life under its id. */
  lemma {:induction false} TerminalStays(cfg: Config, w: Watched, e: Event, id: OrderId)
    requires Inv(cfg, w) && HasIds(w.d, e) && Issued(cfg, w.d.counter, id) && NotLive(w.d, id)
    ensures NotLive(Step(cfg, w.d, e), id)
  {
    match e
    case New(_, _, _) => NextIdIsFresh(cfg, w.d.counter, id);
    case Replace(_, _, _, _) => NextIdIsFresh(cfg, w.d.counter, id);
    case Response(r) => TerminalStaysOnResponse(w.d, r, id);
    case Cancel(_, _, _) =>
    case Mark(_, _) =>
    case SetTrading(_) =>
    case OtherSlots(_, _) =>
  }

  lemma {:induction false} TerminalStaysOnResponse(d: Desk, r: OrderResponse, id: OrderId)
    requires NotLive(d, id)
    ensures NotLive(OnResponse(d, r), id)
  {
    ResponseLength(d, r);
    forall j | 0 <= j < |d.orders| ensures Progress(d.orders[j], OnResponse(d, r).orders[j]) {
      ResponseProgress(d, r, j);
    }
  }

  lemma {:induction false} TerminalFollows(cfg: Config, w: Watched, e: Event, w': Watched, id: OrderId)
    requires Inv(cfg, w) && Follows(cfg, w, e, w') && Issued(cfg, w.d.counter, id) && NotLive(w.d, id)
    ensures Issued(cfg, w'.d.counter, id) && NotLive(w'.d, id)
  {
    TerminalStays(cfg, w, e, id);
    StepCounter(cfg, w.d, e);
  }

  lemma {:induction false} StepCounter(cfg: Config, d: Desk, e: Event)
    ensures Step(cfg, d, e).counter >= d.counter
  {
    match e
    case New(_, _, _) =>
    case Replace(_, _, _, _) =>
    case Response(r) =>
    case Cancel(_, _, _) =>
    case Mark(_, _) =>
    case SetTrading(_) =>
    case OtherSlots(_, _) =>
  }

  /** Over every run: once no order under an issued id is live, none ever is again. */
  lemma {:induction false} TerminalForever(
      cfg: Config, states: seq<Watched>, events: seq<Event>, i: nat, j: nat, id: OrderId)
    requires IsRun(cfg, states, events) && i <= j < |states|
    requires Issued(cfg, states[i].d.counter, id) && NotLive(states[i].d, id)
    ensures Issued(cfg, states[j].d.counter, id) && NotLive(states[j].d, id)
    decreases j
  {
    if j > i {
      TerminalForever(cfg, states, events, i, j - 1, id);
      RunKeepsInv(cfg, states, events, j - 1);
      StepOfRun(cfg, states, events, j - 1);
      TerminalFollows(cfg, states[j - 1], events[j - 1], states[j], id);
    }
  }

  predicate Orphan(d: Desk, id: OrderId) {
    id in d.pending && forall j :: 0 <= j < |d.orders| ==> d.orders[j].id != id
  }

  /** A reservation whose order has lost its place in the table is never released: it counts
      against the position limit and the pending capacity for the rest of the run. */
  lemma {:induction false} OrphanStays(cfg: Config, w: Watched, e: Event, id: OrderId)
    requires Inv(cfg, w) && HasIds(w.d, e) && Orphan(w.d, id)
    ensures Orphan(Step(cfg, w.d, e), id) && Step(cfg, w.d, e).pending[id] == w.d.pending[id]
  {
    assert Issued(cfg, w.d.counter, id);
    match e
    case New(r, pos, pushed) =>
      NextIdIsFresh(cfg, w.d.counter, id);
      OrphanStaysOnNew(cfg, w.d, r, pos, pushed, id);
    case Replace(from, price, qty, pushed) =>
      NextIdIsFresh(cfg, w.d.counter, id);
      OrphanStaysOnReplace(cfg, w.d, from, price, qty, pushed, id);
    case Response(r) => OrphanStaysOnResponse(w.d, r, id);
    case Cancel(_, _, _) =>
    case Mark(_, _) =>
    case SetTrading(_) =>
    case OtherSlots(_, _) =>
  }

  lemma {:induction false} OrphanStaysOnNew(
      cfg: Config, d: Desk, r: OrderRequest, pos: Position, pushed: bool, id: OrderId)
    requires Orphan(d, id) && id != MakeId(cfg.slot, d.counter)
    ensures var e := SendNew(cfg, d, r, pos, pushed); Orphan(e, id) && e.pending[id] == d.pending[id]
  {
    NewSteps(cfg, d, r, pos, pushed);
  }

  lemma {:induction false} OrphanStaysOnReplace(
      cfg: Config, d: Desk, from: OrderId, price: Price, qty: Quantity, pushed: bool, id: OrderId)
    requires Orphan(d, id) && id != MakeId(cfg.slot, d.counter)
    ensures var e := SendReplace(cfg, d, from, price, qty, pushed); Orphan(e, id) && e.pending[id] == d.pending[id]
  {
  }

  /** A response touches no reservation but that of the id it names. */
  lemma {:induction false} OtherReservations(d: Desk, r: OrderResponse, id: OrderId)
    requires id != r.id && id in d.pending
    ensures id in OnResponse(d, r).pending && OnResponse(d, r).pending[id] == d.pending[id]
  {
    match r.status
    case EXECUTED => OtherReservationsOnFill(d, r, id);
    case ACCEPTED =>
    case CANCELED =>
    case REJECTED =>
    case CANCEL_REJECTED =>
  }

  lemma {:induction false} OtherReservationsOnFill(d: Desk, r: OrderResponse, id: OrderId)
    requires r.status == EXECUTED && id != r.id && id in d.pending
    ensures id in OnResponse(d, r).pending && OnResponse(d, r).pending[id] == d.pending[id]
  {
  }

  lemma {:induction false} OrphanStaysOnResponse(d: Desk, r: OrderResponse, id: OrderId)
    requires Orphan(d, id)
    ensures Orphan(OnResponse(d, r), id) && OnResponse(d, r).pending[id] == d.pending[id]
  {
    if r.id != id {
      OtherReservations(d, r, id);
      ResponseLength(d, r);
      forall j | 0 <= j < |d.orders| ensures OnResponse(d, r).orders[j].id == d.orders[j].id {
        ResponseProgress(d, r, j);
      }
    }
  }

  /** The reservation under `id` has no order, and is `res`. */
  ghost predicate Orphaned(w: Watched, id: OrderId, res: Reservation) {
    Orphan(w.d, id) && w.d.pending[id] == res
  }

  lemma {:induction false} OrphanFollows(
      cfg: Config, w: Watched, e: Event, w': Watched, id: OrderId, res: Reservation)
    requires Inv(cfg, w) && Follows(cfg, w, e, w') && Orphaned(w, id, res)
    ensures Orphaned(w', id, res)
  {
    OrphanStays(cfg, w, e, id);
  }

  lemma {:induction false} OrphanForever(
      cfg: Config, states: seq<Watched>, events: seq<Event>, i: nat, j: nat, id: OrderId, res: Reservation)
    requires IsRun(cfg, states, events) && i <= j < |states| && Orphaned(states[i], id, res)
    ensures Orphaned(states[j], id, res)
    decreases j
  {
    if j > i {
      OrphanForever(cfg, states, events, i, j - 1, id, res);
      RunKeepsInv(cfg, states, events, j - 1);
      StepOfRun(cfg, states, events, j - 1);
      OrphanFollows(cfg, states[j - 1], events[j - 1], states[j], id, res);
    }
  }
}
