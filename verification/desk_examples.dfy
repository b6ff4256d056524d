/**
 Runs of a desk, from start-up, in which an expected property fails: a reservation outlives its
 order, a replace is sent and then refused, a fill takes the position out of its limit.
 */
module DeskExamples {
  import opened Types
  import opened Pnl
  import opened TradingDesk
  import opened DeskOrders
  import opened DeskTheorems
  import opened DeskLimits
  import opened DeskLeaks

  const CFG := Config(0, 4, 4)

  /** Ticker 1 with a position limit of 100, nothing held and nothing sent. */
  const OPENING := Watched(
    Desk([], map[], map[1 := RiskLimits(100, 1000, 1000000)], map[1 := FLAT], 1, true, []), map[])

  function Request(side: Side, qty: Quantity): OrderRequest {
    OrderRequest(NEW, 0, 0, 1, side, 100, qty, false)
  }

  function Entered(id: OrderId, side: Side, qty: Quantity): Order {
    Order(id, 1, side, 100, qty, false, NOT_ACTIVE, false, false, 0, PRICE_INVALID)
  }

  /** One order of the given side and quantity was just sent under id 1. */
  function OneSent(side: Side, qty: Quantity): Desk {
    OPENING.d.(orders := [Entered(1, side, qty)], pending := map[1 := Reservation(1, side, qty)], counter := 2,
               outbox := [Request(side, qty).(id := 1)])
  }

  lemma {:induction false} NothingReserved(p: Pending, side: Side)
    requires p == map[]
    ensures Reserved(p, 1, side) == 0
  {
    assert Contribution(p, 1, side) == map[];
  }

  lemma {:induction false} FirstOrder(side: Side, qty: Quantity)
    requires 0 < qty <= 100
    ensures Step(CFG, OPENING.d, New(Request(side, qty), FLAT, true)) == OneSent(side, qty)
  {
    NothingReserved(OPENING.d.pending, BUY);
    NothingReserved(OPENING.d.pending, SELL);
  }

  lemma {:induction false} OneReserved(side: Side, qty: Quantity)
    ensures Reserved(OneSent(side, qty).pending, 1, side) == qty
    ensures Reserved(OneSent(side, qty).pending, 1, Opposite(side)) == 0
  {
    var none: Pending := map[];
    NothingReserved(none, side);
    NothingReserved(none, Opposite(side));
    ReservedInsert(none, 1, Reservation(1, side, qty), 1, side);
    ReservedInsert(none, 1, Reservation(1, side, qty), 1, Opposite(side));
  }

  /** The run that the events make from start-up. */
  ghost function RunOf(events: seq<Event>): (states: seq<Watched>)
    ensures |states| == |events| + 1 && states[0] == OPENING
    ensures forall i {:trigger events[i]} :: 0 <= i < |events| ==> states[i + 1] == Watch(CFG, states[i], events[i])
  {
    if events == [] then [OPENING] else
      var before := RunOf(events[..|events| - 1]);
      before + [Watch(CFG, before[|events| - 1], events[|events| - 1])]
  }

  lemma {:induction false} RunOfStep(events: seq<Event>, i: nat)
    requires i < |events|
    ensures RunOf(events)[i + 1].d == Step(CFG, RunOf(events)[i].d, events[i])
  {
    assert events[i] == events[i];
  }

  lemma {:induction false} CounterStep(d: Desk, e: Event)
    requires !e.OtherSlots?
    ensures Step(CFG, d, e).counter <= d.counter + 1
  {
    match e
    case New(_, _, _) =>
    case Replace(_, _, _, _) =>
    case Response(r) =>
    case Cancel(_, _, _) =>
    case Mark(_, _) =>
    case SetTrading(_) =>
  }

  lemma {:induction false} RunOfCounter(events: seq<Event>, i: nat)
    requires i <= |events| && forall e :: e in events ==> !e.OtherSlots?
    ensures RunOf(events)[i].d.counter <= 1 + i
  {
    if i > 0 {
      RunOfCounter(events, i - 1);
      RunOfStep(events, i - 1);
      CounterStep(RunOf(events)[i - 1].d, events[i - 1]);
    }
  }

  lemma {:induction false} RunOfIsRun(events: seq<Event>)
    requires |events| < 100 && forall e :: e in events ==> !e.OtherSlots?
    ensures DeskTheorems.IsRun(CFG, RunOf(events), events)
  {
    var states := RunOf(events);
    forall k: nat ensures StepAt(CFG, states, events, k) && DeskTheorems.HasIdsAt(states, events, k) {
      if k < |events| {
        RunOfCounter(events, k);
        assert events[k] in events;
      }
    }
  }

  // ---------------------------------------------------------------------------
  // A cancel report for less than is reserved

  /** Ten bought, a cancel asked for, four reported canceled: the order is gone and six stay reserved. */
  lemma {:induction false} PartialCancelLeaks() returns (events: seq<Event>, states: seq<Watched>)
    ensures DeskTheorems.IsRun(CFG, states, events)
    ensures var d := states[|states| - 1].d; Leaked(d, 1) && d.pending[1].qty == 6
  {
    events := [New(Request(BUY, 10), FLAT, true), Cancel(1, 10, true), Response(OrderResponse(1, CANCELED, 0, 0, 4))];
    states := RunOf(events);
    RunOfIsRun(events);
    RunOfStep(events, 0);
    FirstOrder(BUY, 10);
    RunOfStep(events, 1);
    RunOfStep(events, 2);
    CancelThenPart();
  }

  lemma {:induction false} CancelThenPart()
    ensures var d := OnResponse(SendCancel(OneSent(BUY, 10), 1, 10, true), OrderResponse(1, CANCELED, 0, 0, 4));
      Leaked(d, 1) && d.pending[1].qty == 6
  {
  }

  // ---------------------------------------------------------------------------
  // A replace that is sent and then refused

  /** Ten bought, replaced by twenty, ten filled: the order is live with nothing reserved, and its next
      replace goes out to the exchange while the desk keeps the old order. */
  lemma {:induction false} GrownOrderCannotBeReplaced() returns (events: seq<Event>, states: seq<Watched>)
    ensures DeskTheorems.IsRun(CFG, states, events) && |events| == 4 && events[3] == Replace(2, 100, 20, true)
    ensures var d, e := states[3].d, states[4].d;
      && |d.orders| == 1 && d.orders[0].id == 2 && d.orders[0].Live() && d.pending == map[]
      && e.orders == d.orders && |e.outbox| == |d.outbox| + 1
  {
    events := [New(Request(BUY, 10), FLAT, true), Replace(1, 100, 20, true),
               Response(OrderResponse(2, EXECUTED, 10, 100, 0)), Replace(2, 100, 20, true)];
    states := RunOf(events);
    RunOfIsRun(events);
    RunOfStep(events, 0);
    FirstOrder(BUY, 10);
    RunOfStep(events, 1);
    RunOfStep(events, 2);
    RunOfStep(events, 3);
    GrowThenFill();
    ReplaceRefused(states[3].d);
  }

  const GROWN := OneSent(BUY, 10).(
    orders := [Entered(2, BUY, 20)], pending := map[2 := Reservation(1, BUY, 10)], counter := 3,
    outbox := [Request(BUY, 10).(id := 1), OrderRequest(REPLACE_REQUEST, 1, 2, 1, BUY, 100, 20, false)])

  lemma {:induction false} GrowThenFill()
    ensures SendReplace(CFG, OneSent(BUY, 10), 1, 100, 20, true) == GROWN
    ensures var d := OnResponse(GROWN, OrderResponse(2, EXECUTED, 10, 100, 0));
      && |d.orders| == 1 && d.orders[0].id == 2 && d.orders[0].state == PARTIALLY_FILLED && !d.orders[0].cancelRequested
      && d.pending == map[] && d.counter == 3
  {
    assert map[1 := Reservation(1, BUY, 10)] - {1} == map[];
  }

  lemma {:induction false} ReplaceRefused(d: Desk)
    requires |d.orders| == 1 && d.orders[0].id == 2 && d.orders[0].Live() && !d.orders[0].cancelRequested
    requires d.pending == map[]
    ensures var e := SendReplace(CFG, d, 2, 100, 20, true); e.orders == d.orders && |e.outbox| == |d.outbox| + 1
  {
    assert Find(d.orders, 2) == 0;
  }

  // ---------------------------------------------------------------------------
  // The check nets the two sides

  const TWO_SENT := OneSent(BUY, 100).(
    orders := [Entered(1, BUY, 100), Entered(2, SELL, 200)],
    pending := map[1 := Reservation(1, BUY, 100), 2 := Reservation(1, SELL, 200)], counter := 3,
    outbox := [Request(BUY, 100).(id := 1), Request(SELL, 200).(id := 2)])

  lemma {:induction false} SecondOrder()
    ensures Step(CFG, OneSent(BUY, 100), New(Request(SELL, 200), FLAT, true)) == TWO_SENT
  {
    SecondPasses();
    SecondRecorded();
    NewGoesThrough(CFG, OneSent(BUY, 100), Request(SELL, 200), FLAT, 1, 2, TWO_SENT);
  }

  lemma {:induction false} SecondRecorded()
    ensures AllocSlot(OneSent(BUY, 100).orders) == 1 && MakeId(0, 2) == 2
    ensures Submitted(OneSent(BUY, 100).(counter := 3), Request(SELL, 200).(id := 2), 1) == TWO_SENT
  {
  }

  lemma {:induction false} SecondPasses()
    ensures CanSubmit(CFG, OneSent(BUY, 100).(counter := 3), Request(SELL, 200).(id := 2), FLAT) == PASSED
  {
    OneReserved(BUY, 100);
  }

  lemma {:induction false} SellFills()
    ensures var d := OnResponse(TWO_SENT, OrderResponse(2, EXECUTED, 200, 100, 0));
      1 in d.positions && Net(d, 1) == -200 && 1 in d.limits && d.limits[1].maxPosition == 100
  {
  }

  const BOTH_SIDES := [New(Request(BUY, 100), FLAT, true), New(Request(SELL, 200), FLAT, true),
                       Response(OrderResponse(2, EXECUTED, 200, 100, 0))]

  lemma {:induction false} BothSent()
    ensures RunOf(BOTH_SIDES)[1].d == OneSent(BUY, 100) && RunOf(BOTH_SIDES)[2].d == TWO_SENT
  {
    RunOfStep(BOTH_SIDES, 0);
    FirstOrder(BUY, 100);
    RunOfStep(BOTH_SIDES, 1);
    SecondOrder();
  }

  lemma {:induction false} AgainstOwnPosition(states: seq<Watched>)
    requires |states| == 4 && states[0] == OPENING && states[1].d == OneSent(BUY, 100)
    ensures OwnPositions(states, BOTH_SIDES)
  {
    forall k: nat ensures OwnPositionAt(states, BOTH_SIDES, k) {
      assert k < 3 ==> k == 0 || k == 1 || k == 2;
    }
  }

  /** With a limit of 100 and a buy of 100 outstanding, a sell of 200 passes the check, and its fill takes
      the position to -200. */
  lemma {:induction false} NettingBreach() returns (states: seq<Watched>)
    ensures DeskTheorems.IsRun(CFG, states, BOTH_SIDES)
    ensures OwnPositions(states, BOTH_SIDES)
    ensures var d := states[3].d;
      1 in d.positions && Net(d, 1) == -200 && 1 in d.limits && d.limits[1].maxPosition == 100
  {
    states := RunOf(BOTH_SIDES);
    RunOfIsRun(BOTH_SIDES);
    BothSent();
    AgainstOwnPosition(states);
    RunOfStep(BOTH_SIDES, 2);
    SellFills();
  }
}
