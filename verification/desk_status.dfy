/**
 What an order's state says about what was reported of it, over every run; how a response ends an order;
 and what it means that a response is accepted (src/trading/order_manager.h:104-215).
 */
module DeskStatus {
  import opened Types
  import opened Pnl
  import opened TradingDesk
  import opened DeskOrders
  import opened DeskTheorems
  import opened DeskLeaks
  import opened DeskRequests

  // ---------------------------------------------------------------------------
  // How a response ends an order

  /** The fill makes sense for the order: it is for something, and for no more than is open. */
  predicate Plausible(o: Order, r: OrderResponse) {
    0 < r.executedQty <= o.qty - o.filled
  }

  /** The fill is plausible and can be booked. */
  predicate Booked(d: Desk, o: Order, r: OrderResponse) {
    Plausible(o, r) && o.id in d.pending && !CannotBook(d, d.pending[o.id], r)
  }

  /** The state that a response about a live order leaves it in. */
  predicate LeftIn(d: Desk, o: Order, r: OrderResponse, state: OrderState) {
    match r.status
    case ACCEPTED => state == if o.state == NOT_ACTIVE then ACTIVE else o.state
    case EXECUTED =>
      state == if !Plausible(o, r) then o.state
               else if !Booked(d, o, r) then DEAD
               else if r.executedQty == o.qty - o.filled then COMPLETED else PARTIALLY_FILLED
    case CANCELED =>
      state == if r.canceledQty != 0 && (o.id !in d.pending || r.canceledQty > d.pending[o.id].qty) then o.state
               else if o.filled == o.qty then COMPLETED else CANCELLED
    case REJECTED => state == if o.id in d.pending then DEAD else o.state
    case CANCEL_REJECTED => state == o.state
  }

  /** What a response does to the live order `o`: the state it leaves it in, the quantity it adds to its
      fills, and the flags it sets. */
  predicate Effect(d: Desk, o: Order, r: OrderResponse, o': Order) {
    && LeftIn(d, o, r, o'.state)
    && o'.filled == o.filled + (if r.status == EXECUTED && Booked(d, o, r) then r.executedQty else 0)
    && o'.cancelRequested == (o.cancelRequested && r.status != CANCEL_REJECTED && !(r.status == CANCELED && !o'.Live()))
    && o'.cancelRejected == (o.cancelRejected || r.status == CANCEL_REJECTED)
    && o'.(state := o.state, filled := o.filled, avgFill := o.avgFill,
           cancelRequested := o.cancelRequested, cancelRejected := o.cancelRejected) == o
  }

  lemma {:induction false} ResponseEffect(d: Desk, r: OrderResponse, i: nat)
    requires i == Find(d.orders, r.id) && i < |d.orders| && d.orders[i].Live()
    ensures |OnResponse(d, r).orders| == |d.orders| && Effect(d, d.orders[i], r, OnResponse(d, r).orders[i])
  {
    match r.status
    case EXECUTED => FillEffect(d, r, i);
    case CANCELED => CanceledEffect(d, r, i);
    case REJECTED => RejectedEffect(d, r, i);
    case ACCEPTED => AcceptedEffect(d, r, i);
    case CANCEL_REJECTED => AcceptedEffect(d, r, i);
  }

  lemma {:induction false} FillEffect(d: Desk, r: OrderResponse, i: nat)
    requires i == Find(d.orders, r.id) && i < |d.orders| && d.orders[i].Live() && r.status == EXECUTED
    ensures |OnResponse(d, r).orders| == |d.orders| && Effect(d, d.orders[i], r, OnResponse(d, r).orders[i])
  {
    if !Plausible(d.orders[i], r) {
      assert OnResponse(d, r) == d;
    } else if Booked(d, d.orders[i], r) {
      BookedEffect(d, r, i);
    } else {
      UnbookedEffect(d, r, i);
    }
  }

  lemma {:induction false} BookedEffect(d: Desk, r: OrderResponse, i: nat)
    requires i == Find(d.orders, r.id) && i < |d.orders| && d.orders[i].Live() && r.status == EXECUTED
    requires Booked(d, d.orders[i], r)
    ensures |OnResponse(d, r).orders| == |d.orders| && Effect(d, d.orders[i], r, OnResponse(d, r).orders[i])
  {
    BookedIff(d, r);
  }

  lemma {:induction false} UnbookedEffect(d: Desk, r: OrderResponse, i: nat)
    requires i == Find(d.orders, r.id) && i < |d.orders| && d.orders[i].Live() && r.status == EXECUTED
    requires Plausible(d.orders[i], r) && !Booked(d, d.orders[i], r)
    ensures |OnResponse(d, r).orders| == |d.orders| && Effect(d, d.orders[i], r, OnResponse(d, r).orders[i])
  {
    if r.id in d.pending {
      BookedIff(d, r);
    }
  }

  lemma {:induction false} CanceledEffect(d: Desk, r: OrderResponse, i: nat)
    requires i == Find(d.orders, r.id) && i < |d.orders| && d.orders[i].Live() && r.status == CANCELED
    ensures |OnResponse(d, r).orders| == |d.orders| && Effect(d, d.orders[i], r, OnResponse(d, r).orders[i])
  {
  }

  lemma {:induction false} RejectedEffect(d: Desk, r: OrderResponse, i: nat)
    requires i == Find(d.orders, r.id) && i < |d.orders| && d.orders[i].Live() && r.status == REJECTED
    ensures |OnResponse(d, r).orders| == |d.orders| && Effect(d, d.orders[i], r, OnResponse(d, r).orders[i])
  {
  }

  lemma {:induction false} AcceptedEffect(d: Desk, r: OrderResponse, i: nat)
    requires i == Find(d.orders, r.id) && i < |d.orders| && d.orders[i].Live()
    requires r.status == ACCEPTED || r.status == CANCEL_REJECTED
    ensures |OnResponse(d, r).orders| == |d.orders| && Effect(d, d.orders[i], r, OnResponse(d, r).orders[i])
  {
  }

  /** A response about a finished order adds no fills and leaves it finished. */
  predicate StaysFinished(o: Order, o': Order) {
    && !o'.Live() && o'.id == o.id && o'.qty == o.qty && o'.filled == o.filled
    && (o'.state == o.state || o'.state == DEAD || (o'.state == COMPLETED <==> o.filled == o.qty))
  }

  lemma {:induction false} FinishedEffect(d: Desk, r: OrderResponse, i: nat)
    requires i == Find(d.orders, r.id) && i < |d.orders| && !d.orders[i].Live()
    ensures |OnResponse(d, r).orders| == |d.orders| && StaysFinished(d.orders[i], OnResponse(d, r).orders[i])
  {
    match r.status
    case EXECUTED =>
    case CANCELED =>
    case REJECTED =>
    case ACCEPTED =>
    case CANCEL_REJECTED =>
  }

  // ---------------------------------------------------------------------------
  // The state of a live order is its history

  /** What was reported of an order, carried along its replaces: an acceptance, a cancel sent and not yet
      answered, a cancel refused. */
  datatype Note = Note(accepted: bool, asked: bool, refused: bool)

  type Notes = map<OrderId, Note>

  /** The notes after an event.  A cancel counts as sent when it is queued. */
  ghost function Noted(cfg: Config, d: Desk, notes: Notes, e: Event): Notes {
    var id := MakeId(cfg.slot, d.counter);
    match e
    case New(_, _, _) => notes[id := Note(false, false, false)]
    case Replace(from, _, _, _) => if from in notes then notes[id := notes[from]] else notes
    case Cancel(of, _, _) =>
      if of in notes && Step(cfg, d, e) != d then notes[of := notes[of].(asked := true)] else notes
    case Response(r) =>
      if r.id !in notes then notes
      else if r.status == ACCEPTED then notes[r.id := notes[r.id].(accepted := true)]
      else if r.status == CANCEL_REJECTED then notes[r.id := notes[r.id].(asked := false, refused := true)]
      else notes
    case _ => notes
  }

  /** The state that goes with the fills and the notes of a live order. */
  function StateFor(filled: Quantity, note: Note): OrderState {
    if filled > 0 then PARTIALLY_FILLED else if note.accepted then ACTIVE else NOT_ACTIVE
  }

  ghost predicate StateOk(d: Desk, notes: Notes, i: nat) {
    i < |d.orders| ==>
      var o := d.orders[i];
      && (o.state == COMPLETED ==> o.filled == o.qty)
      && (o.state == CANCELLED ==> o.filled != o.qty)
      && (o.Live() ==>
            && o.id in notes && o.state == StateFor(o.filled, notes[o.id])
            && o.cancelRequested == notes[o.id].asked && o.cancelRejected == notes[o.id].refused)
  }

  ghost predicate StatesOk(d: Desk, notes: Notes) {
    forall i :: StateOk(d, notes, i)
  }

  lemma {:induction false} ResponseKeepsState(d: Desk, notes: Notes, r: OrderResponse, cfg: Config)
    requires Distinct(d.orders) && StatesOk(d, notes)
    ensures StatesOk(OnResponse(d, r), Noted(cfg, d, notes, Response(r)))
  {
    var d', notes' := OnResponse(d, r), Noted(cfg, d, notes, Response(r));
    ResponseLength(d, r);
    forall i: nat ensures StateOk(d', notes', i) {
      assert StateOk(d, notes, i);
      if i < |d.orders| {
        if i == Find(d.orders, r.id) {
          NamedKeepsState(d, notes, r, cfg, i);
        } else {
          OthersUntouched(d, r, i);
          OtherId(d.orders, r.id, i);
        }
      }
    }
  }

  lemma {:induction false} OtherId(orders: seq<Order>, id: OrderId, i: nat)
    requires Distinct(orders) && i < |orders| && i != Find(orders, id)
    ensures orders[i].id != id
  {
    if orders[i].id == id { FindUnique(orders, id, i); }
  }

  lemma {:induction false} NamedKeepsState(d: Desk, notes: Notes, r: OrderResponse, cfg: Config, i: nat)
    requires i == Find(d.orders, r.id) && i < |d.orders| && StateOk(d, notes, i)
    ensures StateOk(OnResponse(d, r), Noted(cfg, d, notes, Response(r)), i)
  {
    var d' := OnResponse(d, r);
    if d.orders[i].Live() {
      ResponseEffect(d, r, i);
      EffectKeepsState(d, notes, r, i, d', Noted(cfg, d, notes, Response(r)));
    } else {
      FinishedEffect(d, r, i);
      FinishedKeepsState(d, notes, i, d', Noted(cfg, d, notes, Response(r)));
    }
  }

  /** The notes that a response leaves. */
  predicate NotesTake(notes: Notes, r: OrderResponse, notes': Notes) {
    r.id in notes ==>
      && r.id in notes'
      && notes'[r.id] == Note(notes[r.id].accepted || r.status == ACCEPTED,
                           notes[r.id].asked && r.status != CANCEL_REJECTED,
                           notes[r.id].refused || r.status == CANCEL_REJECTED)
  }

  lemma {:induction false} EffectKeepsState(d: Desk, notes: Notes, r: OrderResponse, i: nat, d': Desk, notes': Notes)
    requires i < |d.orders| == |d'.orders| && d.orders[i].id == r.id && d.orders[i].Live() && StateOk(d, notes, i)
    requires Effect(d, d.orders[i], r, d'.orders[i]) && NotesTake(notes, r, notes')
    ensures StateOk(d', notes', i)
  {
    match r.status
    case EXECUTED =>
    case CANCELED =>
    case REJECTED =>
    case ACCEPTED =>
    case CANCEL_REJECTED =>
  }

  lemma {:induction false} FinishedKeepsState(d: Desk, notes: Notes, i: nat, d': Desk, notes': Notes)
    requires i < |d.orders| == |d'.orders| && StateOk(d, notes, i) && StaysFinished(d.orders[i], d'.orders[i])
    ensures StateOk(d', notes', i)
  {
  }

  /** An order that did not change, under an id whose notes did not. */
  lemma {:induction false} UnchangedState(d: Desk, notes: Notes, i: nat, d': Desk, notes': Notes)
    requires StateOk(d, notes, i) && i < |d.orders| && i < |d'.orders| && d'.orders[i] == d.orders[i]
    requires var id := d.orders[i].id; id in notes ==> id in notes' && notes'[id] == notes[id]
    ensures StateOk(d', notes', i)
  {
  }

  lemma {:induction false} NewKeepsState(cfg: Config, w: Watched, notes: Notes, e: Event)
    requires Inv(cfg, w) && HasIds(w.d, e) && e.New? && StatesOk(w.d, notes)
    ensures StatesOk(Step(cfg, w.d, e), Noted(cfg, w.d, notes, e))
  {
    NewSteps(cfg, w.d, e.request, e.position, e.pushed);
    var d', notes' := Step(cfg, w.d, e), Noted(cfg, w.d, notes, e);
    forall i: nat ensures StateOk(d', notes', i) {
      assert StateOk(w.d, notes, i) && OrderOk(cfg, w, i);
      NextIdIsFresh(cfg, w.d.counter, 0);
      if i < |w.d.orders| && d'.orders[i] == w.d.orders[i] {
        UnchangedState(w.d, notes, i, d', notes');
      }
    }
  }

  lemma {:induction false} ReplaceKeepsState(cfg: Config, w: Watched, notes: Notes, e: Event)
    requires Inv(cfg, w) && HasIds(w.d, e) && e.Replace? && StatesOk(w.d, notes)
    ensures StatesOk(Step(cfg, w.d, e), Noted(cfg, w.d, notes, e))
  {
    var d', notes' := Step(cfg, w.d, e), Noted(cfg, w.d, notes, e);
    forall i: nat ensures StateOk(d', notes', i) {
      assert StateOk(w.d, notes, i) && OrderOk(cfg, w, i);
      NextIdIsFresh(cfg, w.d.counter, 0);
      if i < |w.d.orders| {
        if i != Find(w.d.orders, e.id) {
          UnchangedState(w.d, notes, i, d', notes');
        } else {
          RenamedKeepsState(cfg, w.d, notes, e, i);
        }
      }
    }
  }

  lemma {:induction false} RenamedKeepsState(cfg: Config, d: Desk, notes: Notes, e: Event, i: nat)
    requires e.Replace? && i == Find(d.orders, e.id) && i < |d.orders| && StateOk(d, notes, i)
    requires d.orders[i].id != MakeId(cfg.slot, d.counter)
    ensures StateOk(Step(cfg, d, e), Noted(cfg, d, notes, e), i)
  {
  }

  lemma {:induction false} CancelKeepsState(cfg: Config, w: Watched, notes: Notes, e: Event)
    requires Inv(cfg, w) && e.Cancel? && StatesOk(w.d, notes)
    ensures StatesOk(Step(cfg, w.d, e), Noted(cfg, w.d, notes, e))
  {
    var d', notes' := Step(cfg, w.d, e), Noted(cfg, w.d, notes, e);
    var k := Find(w.d.orders, e.id);
    if d' != w.d {
      assert |d'.outbox| > |w.d.outbox|;
    }
    forall i: nat ensures StateOk(d', notes', i) {
      assert StateOk(w.d, notes, i);
      if i < |w.d.orders| && i != k { OtherId(w.d.orders, e.id, i); }
    }
  }

  lemma {:induction false} StepKeepsState(cfg: Config, w: Watched, notes: Notes, e: Event)
    requires Inv(cfg, w) && HasIds(w.d, e) && StatesOk(w.d, notes)
    ensures StatesOk(Step(cfg, w.d, e), Noted(cfg, w.d, notes, e))
  {
    match e
    case New(_, _, _) => NewKeepsState(cfg, w, notes, e);
    case Replace(_, _, _, _) => ReplaceKeepsState(cfg, w, notes, e);
    case Cancel(_, _, _) => CancelKeepsState(cfg, w, notes, e);
    case Response(r) => ResponseKeepsState(w.d, notes, r, cfg);
    case Mark(_, _) => SameOrders(w.d, Step(cfg, w.d, e), notes);
    case SetTrading(_) => SameOrders(w.d, Step(cfg, w.d, e), notes);
    case OtherSlots(_, _) => SameOrders(w.d, Step(cfg, w.d, e), notes);
  }

  lemma {:induction false} SameOrders(d: Desk, d': Desk, notes: Notes)
    requires StatesOk(d, notes) && d'.orders == d.orders
    ensures StatesOk(d', notes)
  {
    forall i: nat ensures StateOk(d', notes, i) { assert StateOk(d, notes, i); }
  }

  /** The notes after the first i events of a run. */
  ghost function NotesOf(cfg: Config, states: seq<Watched>, events: seq<Event>, i: nat): Notes
    requires i <= |events| && i < |states|
  {
    if i == 0 then map[] else Noted(cfg, states[i - 1].d, NotesOf(cfg, states, events, i - 1), events[i - 1])
  }

  /** In every reachable state: a live order is partially filled once it has fills, else active once it was
      accepted, else not active; it waits for a cancel exactly when one was queued and not refused since; a
      completed order has filled all its quantity, and a cancelled one has not. */
  lemma {:induction false} StateIsHistory(cfg: Config, states: seq<Watched>, events: seq<Event>, i: nat)
    requires IsRun(cfg, states, events) && i < |states|
    ensures StatesOk(states[i].d, NotesOf(cfg, states, events, i))
  {
    if i > 0 {
      StateIsHistory(cfg, states, events, i - 1);
      NextKeepsState(cfg, states, events, i - 1, NotesOf(cfg, states, events, i - 1));
    }
  }

  lemma {:induction false} NextKeepsState(cfg: Config, states: seq<Watched>, events: seq<Event>, k: nat, notes: Notes)
    requires IsRun(cfg, states, events) && k < |events| && StatesOk(states[k].d, notes)
    ensures StatesOk(states[k + 1].d, Noted(cfg, states[k].d, notes, events[k]))
  {
    RunKeepsInv(cfg, states, events, k);
    StepOfRun(cfg, states, events, k);
    StepKeepsState(cfg, states[k], notes, events[k]);
  }

  // ---------------------------------------------------------------------------
  // Accepted responses

  /** A response that is refused changes nothing, except that an execution which cannot be booked kills its
      order.  An acceptance that is not refused finds a live order; any other response that is not refused
      finds an order that was neither completed nor dead, or a reservation. */
  lemma {:induction false} RefusedChangesNothing(d: Desk, r: OrderResponse)
    requires !Accepts(d, r)
    ensures var i, d' := Find(d.orders, r.id), OnResponse(d, r);
      || d' == d
      || (&& r.status == EXECUTED && i < |d.orders| && d.orders[i].Live() && Plausible(d.orders[i], r)
          && |d'.orders| == |d.orders| && d'.orders[i].state == DEAD
          && d'.(orders := d.orders) == d && d'.orders == d.orders[i := d.orders[i].(state := DEAD)])
  {
    match r.status
    case EXECUTED =>
    case ACCEPTED =>
    case CANCELED =>
    case REJECTED =>
    case CANCEL_REJECTED =>
  }

  /** A response is accepted exactly when it names an order that can still take it. */
  lemma {:induction false} AcceptsIff(d: Desk, r: OrderResponse)
    ensures Accepts(d, r) <==>
      exists i: nat :: i == Find(d.orders, r.id) && i < |d.orders| && Takes(d, d.orders[i], r)
  {
    var i := Find(d.orders, r.id);
    if i < |d.orders| {
      TakesIff(d, r, i);
    }
  }

  /** The order can take the response: an acceptance while live, a fill that is plausible and can be booked
      while live, a cancel report for no more than is reserved or for nothing, unless completed or dead. */
  predicate Takes(d: Desk, o: Order, r: OrderResponse) {
    match r.status
    case ACCEPTED => o.Live()
    case EXECUTED => o.Live() && Booked(d, o, r)
    case CANCELED =>
      && o.state != COMPLETED && o.state != DEAD
      && (r.canceledQty == 0 || (o.id in d.pending && r.canceledQty <= d.pending[o.id].qty))
    case CANCEL_REJECTED => o.state != COMPLETED && o.state != DEAD
    case REJECTED => o.id in d.pending
  }

  lemma {:induction false} TakesIff(d: Desk, r: OrderResponse, i: nat)
    requires i == Find(d.orders, r.id) && i < |d.orders|
    ensures Accepts(d, r) <==> Takes(d, d.orders[i], r)
  {
    if r.status == EXECUTED && r.executedQty > 0 && r.id in d.pending {
      BookedIff(d, r);
    }
  }
}
