/**
 The slots of one engine together.  Each slot has its own orders, reservations and positions; all of them
 draw ids from one counter and push requests to one queue, which the order gateway empties
 (src/trading/trade_engine.h:52-68, 254-265, src/trading/order_id_allocator.h).
 */
module TradingFloor {
  import opened Types
  import opened TradingDesk
  import opened DeskOrders
  import opened DeskTheorems
  import opened Wire

  /** Capacities, fixed at start-up: orders and reservations per slot, requests in the queue. */
  datatype Rules = Rules(maxOrders: nat, maxPending: nat, queueSize: nat)

  function ConfigOf(rules: Rules, s: nat): Config {
    Config(s, rules.maxOrders, rules.maxPending)
  }

  /** The desks beside what they share.  `outbox` is every request pushed so far and `taken` how many of
      them the gateway has popped.  The counter and outbox inside a stored desk are not used. */
  datatype Floor = Floor(desks: seq<Desk>, counter: nat, outbox: seq<OrderRequest>, taken: nat)

  /** Slot s's desk, with the counter and the queue as they are now. */
  function Seat(f: Floor, s: nat): Desk
    requires s < |f.desks|
  {
    f.desks[s].(counter := f.counter, outbox := f.outbox)
  }

  /** Slot s goes on as `d`. */
  function Leave(f: Floor, s: nat, d: Desk): Floor
    requires s < |f.desks|
  {
    var kept := f.desks[s];
    f.(desks := f.desks[s := d.(counter := kept.counter, outbox := kept.outbox)],
       counter := d.counter, outbox := d.outbox)
  }

  predicate HasRoom(rules: Rules, f: Floor) {
    |f.outbox| - f.taken < rules.queueSize
  }

  /** One thing happening to one slot, or the gateway popping requests. */
  datatype Move = Happens(slot: nat, event: Event) | Takes(n: nat)

  ghost function Play(rules: Rules, f: Floor, m: Move): Floor {
    match m
    case Happens(s, e) => if s < |f.desks| then Leave(f, s, Step(ConfigOf(rules, s), Seat(f, s), e)) else f
    case Takes(n) => f.(taken := if f.taken + n <= |f.outbox| then f.taken + n else |f.outbox|)
  }

  /** A push succeeds exactly when the shared queue has room; other slots act by moves of their own. */
  predicate Fair(rules: Rules, f: Floor, m: Move) {
    m.Happens? ==>
      && m.slot < |f.desks|
      && match m.event
         case New(_, _, pushed) => pushed == HasRoom(rules, f)
         case Cancel(_, _, pushed) => pushed == HasRoom(rules, f)
         case Replace(_, _, _, pushed) => pushed == HasRoom(rules, f)
         case OtherSlots(_, _) => false
         case _ => true
  }

  ghost predicate IsFloorRun(rules: Rules, floors: seq<Floor>, moves: seq<Move>) {
    |floors| == |moves| + 1 && forall k :: MoveAt(rules, floors, moves, k)
  }

  ghost predicate MoveAt(rules: Rules, floors: seq<Floor>, moves: seq<Move>, k: nat)
    requires |floors| == |moves| + 1
  {
    k < |moves| ==> Fair(rules, floors[k], moves[k]) && floors[k + 1] == Play(rules, floors[k], moves[k])
  }

  /** Every slot at start-up, and the counter at 1. */
  ghost predicate IsOpeningFloor(f: Floor) {
    f.counter == 1 && forall s :: 0 <= s < |f.desks| ==> IsOpening(Seat(f, s))
  }

  // ---------------------------------------------------------------------------
  // One slot among the others

  /** What slot s sees of a move that leads from `f` to `g`. */
  function Seen(s: nat, f: Floor, m: Move, g: Floor): Event {
    if m.Happens? && m.slot == s then m.event
    else if f.counter <= g.counter && |f.outbox| <= |g.outbox|
    then OtherSlots(g.counter - f.counter, g.outbox[|f.outbox|..])
    else OtherSlots(0, [])
  }

  /** A step draws ids and pushes requests; it takes none back. */
  lemma {:induction false} StepShares(cfg: Config, d: Desk, e: Event)
    ensures d.counter <= Step(cfg, d, e).counter && d.outbox <= Step(cfg, d, e).outbox
  {
    StepCounter(cfg, d, e);
    match e
    case New(_, _, _) =>
    case Cancel(_, _, _) =>
    case Replace(_, _, _, _) =>
    case Response(r) => ResponseShares(d, r);
    case Mark(_, _) =>
    case SetTrading(_) =>
    case OtherSlots(_, _) =>
  }

  lemma {:induction false} ResponseShares(d: Desk, r: OrderResponse)
    ensures OnResponse(d, r).counter == d.counter && OnResponse(d, r).outbox == d.outbox
  {
    match r.status
    case ACCEPTED =>
    case EXECUTED =>
    case CANCELED =>
    case REJECTED =>
    case CANCEL_REJECTED =>
  }

  /** Leaving the floor as `d` is sitting down as `d` again, and the other slots are where they were. */
  lemma {:induction false} SeatAfter(f: Floor, s: nat, d: Desk, other: nat)
    requires s < |f.desks| && other < |f.desks|
    ensures Seat(Leave(f, s, d), other) ==
            if other == s then d else Seat(f, other).(counter := d.counter, outbox := d.outbox)
  {
  }

  lemma {:induction false} OthersMove(cfg: Config, d: Desk, counter: nat, outbox: seq<OrderRequest>)
    requires d.counter <= counter && d.outbox <= outbox
    ensures Step(cfg, d, OtherSlots(counter - d.counter, outbox[|d.outbox|..])) ==
            d.(counter := counter, outbox := outbox)
  {
    assert d.outbox + outbox[|d.outbox|..] == outbox;
  }

  /** Every move is, for each slot, a step of its own desk or other slots drawing and pushing. */
  lemma {:induction false} SlotSteps(rules: Rules, f: Floor, m: Move, s: nat)
    requires Fair(rules, f, m) && s < |f.desks|
    ensures var g := Play(rules, f, m);
      |g.desks| == |f.desks| && f.counter <= g.counter
          && Seat(g, s) == Step(ConfigOf(rules, s), Seat(f, s), Seen(s, f, m, g))
  {
    var g := Play(rules, f, m);
    match m
    case Happens(other, e) =>
      var d := Step(ConfigOf(rules, other), Seat(f, other), e);
      StepShares(ConfigOf(rules, other), Seat(f, other), e);
      SeatAfter(f, other, d, s);
      if other != s {
        OthersMove(ConfigOf(rules, s), Seat(f, s), d.counter, d.outbox);
      }
    case Takes(_) => OthersMove(ConfigOf(rules, s), Seat(f, s), f.counter, f.outbox);
  }

  /** The desk of slot s after the first k moves, with what each of its orders was first sent with. */
  ghost function WatchedAt(rules: Rules, floors: seq<Floor>, moves: seq<Move>, s: nat, k: nat): Watched
    requires |floors| == |moves| + 1 && k < |floors| && s < |floors[0].desks|
  {
    if k == 0 then Watched(Seat(floors[0], s), map[])
    else
      Watch(ConfigOf(rules, s), WatchedAt(rules, floors, moves, s, k - 1),
          Seen(s, floors[k - 1], moves[k - 1], floors[k]))
  }

  lemma {:induction false} WatchedIsSeated(rules: Rules, floors: seq<Floor>, moves: seq<Move>, s: nat, k: nat)
    requires IsFloorRun(rules, floors, moves) && k < |floors| && s < |floors[0].desks|
    ensures |floors[k].desks| == |floors[0].desks|
    ensures WatchedAt(rules, floors, moves, s, k).d == Seat(floors[k], s)
  {
    if k > 0 {
      WatchedIsSeated(rules, floors, moves, s, k - 1);
      assert MoveAt(rules, floors, moves, k - 1);
      SlotSteps(rules, floors[k - 1], moves[k - 1], s);
    }
  }

  lemma {:induction false} CounterGrows(rules: Rules, floors: seq<Floor>, moves: seq<Move>, i: nat, j: nat)
    requires IsFloorRun(rules, floors, moves) && i <= j < |floors| && |floors[0].desks| > 0
    ensures floors[i].counter <= floors[j].counter
    decreases j
  {
    if i < j {
      CounterGrows(rules, floors, moves, i, j - 1);
      WatchedIsSeated(rules, floors, moves, 0, j - 1);
      assert MoveAt(rules, floors, moves, j - 1);
      SlotSteps(rules, floors[j - 1], moves[j - 1], 0);
    }
  }

  /** The run of slot s: its desk before the first move and after each, and what it saw of each. */
  ghost predicate IsSlotRun(
      rules: Rules, floors: seq<Floor>, moves: seq<Move>, s: nat, states: seq<Watched>, events: seq<Event>)
  {
    && |floors| == |moves| + 1 == |states| == |events| + 1
    && forall k :: SlotAt(rules, floors, moves, s, states, events, k)
  }

  ghost predicate SlotAt(
      rules: Rules, floors: seq<Floor>, moves: seq<Move>, s: nat, states: seq<Watched>, events: seq<Event>, k: nat)
    requires |floors| == |moves| + 1 == |states| == |events| + 1
  {
    && (k < |states| ==> s < |floors[k].desks| && states[k].d == Seat(floors[k], s))
    && (k < |events| ==> events[k] == Seen(s, floors[k], moves[k], floors[k + 1]))
  }

  /** Whatever the slots do to the counter and the queue between them: each slot goes through a run of its
      own desk, in which the other slots appear only by the ids they drew and the requests they pushed.
      So everything proved of runs of one desk holds of every slot of the engine. */
  lemma {:induction false} SlotIsRun(rules: Rules, floors: seq<Floor>, moves: seq<Move>, s: nat)
    returns (states: seq<Watched>, events: seq<Event>)
    requires IsFloorRun(rules, floors, moves) && IsOpeningFloor(floors[0]) && s < |floors[0].desks|
    requires floors[|moves|].counter < TWO_48
    ensures IsSlotRun(rules, floors, moves, s, states, events)
    ensures IsRun(ConfigOf(rules, s), states, events)
  {
    states, events := StatesOf(rules, floors, moves, s), EventsOf(floors, moves, s);
    forall k: nat ensures SlotAt(rules, floors, moves, s, states, events, k) {
      if k < |states| { WatchedIsSeated(rules, floors, moves, s, k); }
    }
    forall k: nat ensures StepAt(ConfigOf(rules, s), states, events, k) {
      SlotStepAt(rules, floors, moves, s, k);
    }
    forall k: nat ensures HasIdsAt(states, events, k) {
      SlotIdsAt(rules, floors, moves, s, k);
    }
  }

  ghost function StatesOf(rules: Rules, floors: seq<Floor>, moves: seq<Move>, s: nat): seq<Watched>
    requires |floors| == |moves| + 1 && s < |floors[0].desks|
  {
    seq(|floors|, k requires 0 <= k < |floors| => WatchedAt(rules, floors, moves, s, k))
  }

  ghost function EventsOf(floors: seq<Floor>, moves: seq<Move>, s: nat): seq<Event>
    requires |floors| == |moves| + 1
  {
    seq(|moves|, k requires 0 <= k < |moves| => Seen(s, floors[k], moves[k], floors[k + 1]))
  }

  lemma {:induction false} SlotStepAt(rules: Rules, floors: seq<Floor>, moves: seq<Move>, s: nat, k: nat)
    requires |floors| == |moves| + 1 && s < |floors[0].desks|
    ensures StepAt(ConfigOf(rules, s), StatesOf(rules, floors, moves, s), EventsOf(floors, moves, s), k)
  {
    if k < |moves| {
      WatchedNext(rules, floors, moves, s, k, StatesOf(rules, floors, moves, s)[k], EventsOf(floors, moves, s)[k]);
    }
  }

  lemma {:induction false} WatchedNext(
      rules: Rules, floors: seq<Floor>, moves: seq<Move>, s: nat, k: nat, w: Watched, e: Event)
    requires |floors| == |moves| + 1 && s < |floors[0].desks| && k < |moves|
    requires w == WatchedAt(rules, floors, moves, s, k) && e == Seen(s, floors[k], moves[k], floors[k + 1])
    ensures WatchedAt(rules, floors, moves, s, k + 1) == Watch(ConfigOf(rules, s), w, e)
  {
  }

  lemma {:induction false} SlotIdsAt(rules: Rules, floors: seq<Floor>, moves: seq<Move>, s: nat, k: nat)
    requires IsFloorRun(rules, floors, moves) && s < |floors[0].desks| && floors[|moves|].counter < TWO_48
    ensures HasIdsAt(StatesOf(rules, floors, moves, s), EventsOf(floors, moves, s), k)
  {
    if k < |moves| {
      WatchedIsSeated(rules, floors, moves, s, k);
      SlotHasIds(rules, floors, moves, s, k);
    }
  }

  lemma {:induction false} SlotHasIds(rules: Rules, floors: seq<Floor>, moves: seq<Move>, s: nat, k: nat)
    requires IsFloorRun(rules, floors, moves) && s < |floors[0].desks| && k < |moves|
    requires floors[|moves|].counter < TWO_48
    ensures |floors[k].desks| == |floors[0].desks|
    ensures HasIds(Seat(floors[k], s), Seen(s, floors[k], moves[k], floors[k + 1]))
  {
    WatchedIsSeated(rules, floors, moves, s, k);
    MovesAreFair(rules, floors, moves, k);
    CounterGrows(rules, floors, moves, k, |moves|);
    CounterGrows(rules, floors, moves, k + 1, |moves|);
    SeenHasIds(rules, floors[k], moves[k], floors[k + 1], s);
  }

  lemma {:induction false} MovesAreFair(rules: Rules, floors: seq<Floor>, moves: seq<Move>, k: nat)
    requires IsFloorRun(rules, floors, moves) && k < |moves|
    ensures Fair(rules, floors[k], moves[k])
  {
    assert MoveAt(rules, floors, moves, k);
  }

  lemma {:induction false} SeenHasIds(rules: Rules, f: Floor, m: Move, g: Floor, s: nat)
    requires Fair(rules, f, m) && s < |f.desks| && f.counter < TWO_48 && g.counter < TWO_48
    ensures HasIds(Seat(f, s), Seen(s, f, m, g))
  {
  }

  /** In every state of the engine, an order's id leads responses to the slot that holds it; so no two
      slots ever hold orders under one id. */
  lemma {:induction false} OrdersAreOwned(
      rules: Rules, floors: seq<Floor>, moves: seq<Move>, k: nat, slotCount: nat, s: nat, i: nat)
    requires IsFloorRun(rules, floors, moves) && IsOpeningFloor(floors[0]) && floors[|moves|].counter < TWO_48
    requires k < |floors| && s < |floors[0].desks| <= slotCount <= TWO_16
    ensures |floors[k].desks| == |floors[0].desks|
    ensures i < |floors[k].desks[s].orders| ==> OwnerOf(slotCount, floors[k].desks[s].orders[i].id) == s
  {
    WatchedIsSeated(rules, floors, moves, s, k);
    var states, events := SlotIsRun(rules, floors, moves, s);
    assert SlotAt(rules, floors, moves, s, states, events, k);
    RunKeepsInv(ConfigOf(rules, s), states, events, k);
    if i < |floors[k].desks[s].orders| {
      assert OrderOk(ConfigOf(rules, s), states[k], i);
      CounterGrows(rules, floors, moves, k, |moves|);
      IssuedIsOwned(rules, slotCount, s, floors[k].counter, floors[k].desks[s].orders[i].id);
    }
  }

  lemma {:induction false} IssuedIsOwned(rules: Rules, slotCount: nat, s: nat, counter: nat, id: OrderId)
    requires s < slotCount <= TWO_16 && counter < TWO_48 && Issued(ConfigOf(rules, s), counter, id)
    ensures OwnerOf(slotCount, id) == s
  {
    assert id / TWO_48 == s;
  }

  // ---------------------------------------------------------------------------
  // Reachable floors

  /** Some moves lead from one floor to the other. */
  ghost predicate Reaches(rules: Rules, f: Floor, g: Floor) {
    exists floors, moves :: Leads(rules, floors, moves, f, g)
  }

  ghost predicate Leads(rules: Rules, floors: seq<Floor>, moves: seq<Move>, f: Floor, g: Floor) {
    IsFloorRun(rules, floors, moves) && floors[0] == f && floors[|moves|] == g
  }

  lemma {:induction false} ReachesItself(rules: Rules, f: Floor)
    ensures Reaches(rules, f, f)
  {
    var floors, moves: seq<Move> := [f], [];
    forall k: nat ensures MoveAt(rules, floors, moves, k) {}
    assert Leads(rules, floors, moves, f, f);
  }

  lemma {:induction false} ReachesNext(rules: Rules, f: Floor, g: Floor, m: Move)
    requires Reaches(rules, f, g) && Fair(rules, g, m)
    ensures Reaches(rules, f, Play(rules, g, m))
  {
    var floors, moves :| Leads(rules, floors, moves, f, g);
    var h := Play(rules, g, m);
    forall k: nat ensures MoveAt(rules, floors + [h], moves + [m], k) {
      assert MoveAt(rules, floors, moves, k);
    }
    assert Leads(rules, floors + [h], moves + [m], f, h);
  }

  /** From start-up, wherever the engine gets: every slot's table is in order, its live orders backed by
      their reservations, and every id leads back to the slot. */
  lemma {:induction false} ReachableSlot(rules: Rules, f: Floor, g: Floor, slotCount: nat, s: nat)
    returns (sent: map<OrderId, Quantity>)
    requires Reaches(rules, f, g) && IsOpeningFloor(f) && g.counter < TWO_48 && s < |f.desks| <= slotCount <= TWO_16
    ensures |g.desks| == |f.desks| && Inv(ConfigOf(rules, s), Watched(Seat(g, s), sent))
    ensures forall i :: 0 <= i < |g.desks[s].orders| ==> OwnerOf(slotCount, g.desks[s].orders[i].id) == s
  {
    var floors, moves :| Leads(rules, floors, moves, f, g);
    var states, events := SlotIsRun(rules, floors, moves, s);
    assert SlotAt(rules, floors, moves, s, states, events, |moves|);
    WatchedIsSeated(rules, floors, moves, s, |moves|);
    RunKeepsInv(ConfigOf(rules, s), states, events, |moves|);
    sent := states[|moves|].sent;
    forall i | 0 <= i < |g.desks[s].orders| ensures OwnerOf(slotCount, g.desks[s].orders[i].id) == s {
      OrdersAreOwned(rules, floors, moves, |moves|, slotCount, s, i);
    }
  }
}
