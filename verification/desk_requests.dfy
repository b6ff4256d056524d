/**
 What reaches the gateway queue: which requests, with which fields, and what was checked before they were
 pushed (src/trading/order_manager.h:74-139, src/trading/risk_manager.h:62-89).
 */
module DeskRequests {
  import opened Types
  import opened Pnl
  import opened TradingDesk
  import opened DeskOrders
  import opened DeskTheorems
  import opened TradingFloor

  // ---------------------------------------------------------------------------
  // The verdict of the risk check

  /** The check that this verdict stands for fails. */
  ghost predicate Fails(cfg: Config, d: Desk, r: OrderRequest, pos: Position, verdict: RiskResult) {
    match verdict
    case PASSED => true
    case TRADING_DISABLED => !d.trading
    case INVALID_REQUEST =>
      r.kind != NEW || r.id == 0 || r.ticker == TICKER_INVALID || r.price < 0 || r.qty == 0
    case UNKNOWN_TICKER => r.ticker !in d.limits
    case DUPLICATE_ORDER => r.id in d.pending
    case PENDING_CAPACITY_EXCEEDED => |d.pending| == cfg.maxPending
    case ORDER_QTY_EXCEEDED => r.ticker in d.limits && r.qty > d.limits[r.ticker].maxQty
    case ORDER_NOTIONAL_EXCEEDED => r.ticker in d.limits && r.price * r.qty > d.limits[r.ticker].maxNotional
    case POSITION_LIMIT_EXCEEDED =>
      r.ticker in d.limits &&
      Abs(pos.net + Exposure(d.pending, r.ticker) + Signed(r.side, r.qty)) > d.limits[r.ticker].maxPosition
  }

  /** The order of the checks; passing comes after all of them. */
  function Rank(verdict: RiskResult): nat {
    match verdict
    case TRADING_DISABLED => 0
    case INVALID_REQUEST => 1
    case UNKNOWN_TICKER => 2
    case DUPLICATE_ORDER => 3
    case PENDING_CAPACITY_EXCEEDED => 4
    case ORDER_QTY_EXCEEDED => 5
    case ORDER_NOTIONAL_EXCEEDED => 6
    case POSITION_LIMIT_EXCEEDED => 7
    case PASSED => 8
  }

  /** The verdict names the first check that fails, and is a pass exactly when none does. */
  lemma {:induction false} VerdictIsFirstFailure(
      cfg: Config, d: Desk, r: OrderRequest, pos: Position, verdict: RiskResult)
    ensures CanSubmit(cfg, d, r, pos) == verdict <==>
      Fails(cfg, d, r, pos, verdict) && forall other :: Rank(other) < Rank(verdict) ==> !Fails(cfg, d, r, pos, other)
  {
    var given := CanSubmit(cfg, d, r, pos);
    assert Fails(cfg, d, r, pos, given);
    forall other | Rank(other) < Rank(given) ensures !Fails(cfg, d, r, pos, other) {}
    assert Rank(given) < Rank(verdict) || Rank(verdict) < Rank(given) || given == verdict;
  }

  /** The order may be sent: trading is on, its ticker is registered, and quantity, value and projected
      position are within that ticker's limits. */
  ghost predicate MayBeSent(d: Desk, r: OrderRequest, pos: Position) {
    && d.trading && r.ticker in d.limits && r.price >= 0 && 0 < r.qty <= d.limits[r.ticker].maxQty
    && r.price * r.qty <= d.limits[r.ticker].maxNotional
    && Abs(pos.net + Exposure(d.pending, r.ticker) + Signed(r.side, r.qty)) <= d.limits[r.ticker].maxPosition
  }

  lemma {:induction false} PassedMayBeSent(cfg: Config, d: Desk, r: OrderRequest, pos: Position)
    requires CanSubmit(cfg, d, r, pos) == PASSED
    ensures r.kind == NEW && r.id != 0 && r.id !in d.pending && |d.pending| != cfg.maxPending && MayBeSent(d, r, pos)
  {
    VerdictIsFirstFailure(cfg, d, r, pos, PASSED);
    assert forall other :: Rank(other) < 8 ==> !Fails(cfg, d, r, pos, other);
    assert Rank(TRADING_DISABLED) < 8 && Rank(INVALID_REQUEST) < 8 && Rank(UNKNOWN_TICKER) < 8
        && Rank(DUPLICATE_ORDER) < 8 && Rank(PENDING_CAPACITY_EXCEEDED) < 8 && Rank(ORDER_QTY_EXCEEDED) < 8
        && Rank(ORDER_NOTIONAL_EXCEEDED) < 8 && Rank(POSITION_LIMIT_EXCEEDED) < 8;
  }

  // ---------------------------------------------------------------------------
  // What one step queues

  /** Order i is the first under the id, it is live, and no cancel of it is on its way. */
  predicate Open(d: Desk, id: OrderId, i: nat) {
    && i < |d.orders| && d.orders[i].id == id && d.orders[i].Live() && !d.orders[i].cancelRequested
    && forall j :: 0 <= j < i ==> d.orders[j].id != id
  }

  lemma {:induction false} OpenIff(d: Desk, id: OrderId, i: nat)
    ensures Open(d, id, i) <==>
      i == Find(d.orders, id) < |d.orders| && d.orders[i].Live() && !d.orders[i].cancelRequested
  {
  }

  /** A new order goes out under the next id of the slot, otherwise as the strategy wrote it. */
  predicate IsNew(cfg: Config, d: Desk, asked: OrderRequest, r: OrderRequest) {
    && r.kind == asked.kind && r.id == MakeId(cfg.slot, d.counter) && r.newId == 0 && r.ticker == asked.ticker
    && r.side == asked.side && r.price == asked.price && r.qty == asked.qty && r.ioc == asked.ioc
  }

  /** A cancel names the order and the quantity asked for, and repeats the order's other terms. */
  predicate IsCancelOf(o: Order, qty: Quantity, r: OrderRequest) {
    && r.kind == CANCEL_REQUEST && r.id == o.id && r.newId == 0 && r.qty == qty
    && r.ticker == o.ticker && r.side == o.side && r.price == o.price && r.ioc == o.ioc
  }

  /** A replace names the order and the next id of the slot, with the new price and quantity. */
  predicate IsReplaceOf(cfg: Config, d: Desk, o: Order, price: Price, qty: Quantity, r: OrderRequest) {
    && r.kind == REPLACE_REQUEST && r.id == o.id && r.newId == MakeId(cfg.slot, d.counter)
    && r.price == price && r.qty == qty && r.ticker == o.ticker && r.side == o.side && r.ioc == o.ioc
  }

  /** The event may queue this request. */
  ghost predicate Queues(cfg: Config, d: Desk, e: Event, r: OrderRequest) {
    match e
    case New(asked, pos, pushed) =>
      pushed && IsNew(cfg, d, asked, r) && r.kind == NEW && MayBeSent(d, r, pos)
    case Cancel(id, qty, pushed) =>
      pushed && exists i: nat :: Open(d, id, i) && IsCancelOf(d.orders[i], qty, r)
    case Replace(id, price, qty, pushed) =>
      pushed && exists i: nat :: Open(d, id, i) && IsReplaceOf(cfg, d, d.orders[i], price, qty, r)
    case OtherSlots(_, queued) => r in queued
    case _ => false
  }

  lemma {:induction false} NewQueues(cfg: Config, d: Desk, e: Event)
    requires e.New?
    ensures var d' := Step(cfg, d, e);
      d'.outbox == d.outbox || exists r :: d'.outbox == d.outbox + [r] && Queues(cfg, d, e, r)
  {
    NewSteps(cfg, d, e.request, e.position, e.pushed);
    var r, f := e.request.(id := MakeId(cfg.slot, d.counter), newId := 0), d.(counter := d.counter + 1);
    if Step(cfg, d, e).outbox != d.outbox {
      PassedMayBeSent(cfg, f, r, e.position);
      assert Step(cfg, d, e).outbox == d.outbox + [r] && Queues(cfg, d, e, r);
    }
  }

  lemma {:induction false} CancelQueues(cfg: Config, d: Desk, id: OrderId, qty: Quantity, pushed: bool)
    ensures var d' := SendCancel(d, id, qty, pushed);
      && (d' != d ==> exists r :: d'.outbox == d.outbox + [r] && Queues(cfg, d, Cancel(id, qty, pushed), r))
      && (d' != d <==> pushed && exists i: nat :: Open(d, id, i))
  {
    var i := Find(d.orders, id);
    OpenIff(d, id, i);
    if j: nat :| Open(d, id, j) { OpenIff(d, id, j); }
    if Open(d, id, i) && pushed {
      var o := d.orders[i];
      var r := OrderRequest(CANCEL_REQUEST, id, 0, o.ticker, o.side, o.price, qty, o.ioc);
      assert IsCancelOf(o, qty, r);
      assert SendCancel(d, id, qty, pushed).outbox == d.outbox + [r];
      assert |SendCancel(d, id, qty, pushed).outbox| > |d.outbox|;
    }
  }

  lemma {:induction false} ReplaceQueues(
      cfg: Config, d: Desk, id: OrderId, price: Price, qty: Quantity, pushed: bool)
    ensures var d' := SendReplace(cfg, d, id, price, qty, pushed);
      && (d'.outbox == d.outbox ||
          exists r :: d'.outbox == d.outbox + [r] && Queues(cfg, d, Replace(id, price, qty, pushed), r))
      && (d'.outbox != d.outbox <==> pushed && exists i: nat :: Open(d, id, i))
  {
    var i := Find(d.orders, id);
    OpenIff(d, id, i);
    if j: nat :| Open(d, id, j) { OpenIff(d, id, j); }
    if Open(d, id, i) && pushed {
      var o, d' := d.orders[i], SendReplace(cfg, d, id, price, qty, pushed);
      var r := OrderRequest(REPLACE_REQUEST, id, MakeId(cfg.slot, d.counter), o.ticker, o.side, price, qty, o.ioc);
      assert IsReplaceOf(cfg, d, o, price, qty, r);
      assert d'.outbox == d.outbox + [r];
      assert |d'.outbox| > |d.outbox|;
    }
  }

  /** Every request that a step adds to the queue is what its event asked for, and every new order among
      them may be sent. */
  lemma {:induction false} StepQueues(cfg: Config, d: Desk, e: Event, q: nat)
    requires |d.outbox| <= q < |Step(cfg, d, e).outbox|
    ensures Queues(cfg, d, e, Step(cfg, d, e).outbox[q])
  {
    match e
    case New(_, _, _) => NewQueues(cfg, d, e);
    case Cancel(id, qty, pushed) => CancelQueues(cfg, d, id, qty, pushed);
    case Replace(id, price, qty, pushed) => ReplaceQueues(cfg, d, id, price, qty, pushed);
    case OtherSlots(drawn, queued) =>
      assert Step(cfg, d, e).outbox[q] == queued[q - |d.outbox|];
    case Response(r) => ResponseShares(d, r);
    case Mark(_, _) =>
    case SetTrading(_) =>
  }

  // ---------------------------------------------------------------------------
  // What becomes of the order

  /** An order that was just sent is on record with all its terms and nothing filled. */
  predicate OnRecord(o: Order, r: OrderRequest) {
    && o.id == r.id && o.ticker == r.ticker && o.side == r.side && o.price == r.price && o.qty == r.qty
    && o.ioc == r.ioc && o.state == NOT_ACTIVE && !o.cancelRequested && !o.cancelRejected && o.filled == 0
  }

  /** A pushed new order takes the place of a finished one, or a new place; no other order changes. */
  lemma {:induction false} NewIsRecorded(cfg: Config, d: Desk, e: Event)
    requires e.New? && |Step(cfg, d, e).outbox| > |d.outbox|
    ensures var d' := Step(cfg, d, e);
      exists i: nat :: i < |d'.orders| && OnRecord(d'.orders[i], d'.outbox[|d.outbox|])
        && (i < |d.orders| ==> !d.orders[i].Live())
        && forall j :: 0 <= j < |d.orders| && j != i ==> j < |d'.orders| && d'.orders[j] == d.orders[j]
  {
    NewSteps(cfg, d, e.request, e.position, e.pushed);
    var i, d' := AllocSlot(d.orders), Step(cfg, d, e);
    var r := e.request.(id := MakeId(cfg.slot, d.counter), newId := 0);
    assert d'.outbox == d.outbox + [r];
    assert OnRecord(d'.orders[i], r);
  }

  /** A replaced order goes on under the new id with the new price and quantity; all else about it stays. */
  lemma {:induction false} ReplacedGoesOn(
      cfg: Config, d: Desk, id: OrderId, price: Price, qty: Quantity, i: nat)
    requires Open(d, id, i) && id in d.pending && MakeId(cfg.slot, d.counter) !in d.pending
    requires MakeId(cfg.slot, d.counter) != 0
    ensures var d', o := SendReplace(cfg, d, id, price, qty, true), d.orders[i];
      && |d'.orders| == |d.orders| && var o' := d'.orders[i];
      && o'.id == MakeId(cfg.slot, d.counter) && o'.price == price && o'.qty == qty
      && o'.(id := o.id, price := o.price, qty := o.qty) == o
      && forall j :: 0 <= j < |d.orders| && j != i ==> d'.orders[j] == d.orders[j]
  {
    OpenIff(d, id, i);
  }

  /** A cancel that goes out is noted on its order, and changes nothing else on the desk. */
  lemma {:induction false} CancelIsNoted(d: Desk, id: OrderId, qty: Quantity, i: nat)
    requires Open(d, id, i)
    ensures var d' := SendCancel(d, id, qty, true);
      && |d'.orders| == |d.orders| && d'.orders[i].cancelRequested
      && d'.orders[i].(cancelRequested := false) == d.orders[i]
      && (forall j :: 0 <= j < |d.orders| && j != i ==> d'.orders[j] == d.orders[j])
      && d'.(orders := d.orders, outbox := d.outbox) == d
  {
    OpenIff(d, id, i);
  }

  // ---------------------------------------------------------------------------
  // Ids, the kill switch and marks

  /** The event draws an id: a new order that finds a place, or a replace of an open order. */
  ghost predicate Draws(cfg: Config, d: Desk, e: Event) {
    match e
    case New(_, _, _) => |d.orders| < cfg.maxOrders || exists i :: 0 <= i < |d.orders| && !d.orders[i].Live()
    case Replace(id, _, _, _) => exists i: nat :: Open(d, id, i)
    case _ => false
  }

  /** A step draws one id or none, whether or not a request goes out; only the switch changes the switch. */
  lemma {:induction false} StepDraws(cfg: Config, d: Desk, e: Event)
    requires |d.orders| <= cfg.maxOrders
    ensures var d' := Step(cfg, d, e);
      && d'.counter == d.counter + (if e.OtherSlots? then e.drawn else if Draws(cfg, d, e) then 1 else 0)
      && d'.trading == (if e.SetTrading? then e.enabled else d.trading)
  {
    match e
    case New(_, _, _) => NewSteps(cfg, d, e.request, e.position, e.pushed);
    case Replace(id, _, _, _) =>
      OpenIff(d, id, Find(d.orders, id));
      if j: nat :| Open(d, id, j) { OpenIff(d, id, j); }
    case Response(r) => ResponseKeepsRest(d, r);
    case Cancel(_, _, _) =>
    case Mark(_, _) =>
    case SetTrading(_) =>
    case OtherSlots(_, _) =>
  }

  lemma {:induction false} ResponseKeepsRest(d: Desk, r: OrderResponse)
    ensures OnResponse(d, r).counter == d.counter && OnResponse(d, r).trading == d.trading
  {
    match r.status
    case ACCEPTED =>
    case EXECUTED =>
    case CANCELED =>
    case REJECTED =>
    case CANCEL_REJECTED =>
  }

  /** A mark is recorded on the position of its ticker, when it can be taken; no other event but a response
      touches any position. */
  lemma {:induction false} MarksTouch(cfg: Config, d: Desk, e: Event, t: TickerId)
    requires !e.Response? && t in d.positions
    ensures var d' := Step(cfg, d, e);
      && d'.positions.Keys == d.positions.Keys && var p, p' := d.positions[t], d'.positions[t];
      && p'.net == p.net && p'.avg == p.avg && p'.realized == p.realized
      && (e.Mark? && e.ticker == t && Markable(p, e.price) ==>
            p'.mark == e.price && p'.unrealized == p.net * e.price - p.net * p.avg)
      && (!(e.Mark? && e.ticker == t && Markable(p, e.price)) ==> p' == p)
  {
    match e
    case New(_, _, _) => NewSteps(cfg, d, e.request, e.position, e.pushed);
    case Mark(t', price) => if t' == t { MarkIsRecorded(d.positions[t], price); }
    case Replace(_, _, _, _) =>
    case Cancel(_, _, _) =>
    case SetTrading(_) =>
    case OtherSlots(_, _) =>
  }

  // ---------------------------------------------------------------------------
  // Whole runs of the engine

  /** The queue between slots and gateway never holds more than it has room for. */
  lemma {:induction false} QueueNeverOverflows(rules: Rules, floors: seq<Floor>, moves: seq<Move>, n: nat)
    requires IsFloorRun(rules, floors, moves) && n < |floors|
    requires floors[0].taken <= |floors[0].outbox| <= floors[0].taken + rules.queueSize
    ensures floors[n].taken <= |floors[n].outbox| <= floors[n].taken + rules.queueSize
  {
    if n > 0 {
      QueueNeverOverflows(rules, floors, moves, n - 1);
      assert MoveAt(rules, floors, moves, n - 1);
      MoveFits(rules, floors[n - 1], moves[n - 1]);
    }
  }

  lemma {:induction false} MoveFits(rules: Rules, f: Floor, m: Move)
    requires Fair(rules, f, m) && f.taken <= |f.outbox| <= f.taken + rules.queueSize
    ensures var g := Play(rules, f, m); g.taken <= |g.outbox| <= g.taken + rules.queueSize
  {
    if m.Happens? {
      var cfg, d := ConfigOf(rules, m.slot), Seat(f, m.slot);
      StepShares(cfg, d, m.event);
      PushesOne(cfg, d, m.event);
    }
  }

  /** A step pushes one request, when there is room, or none. */
  lemma {:induction false} PushesOne(cfg: Config, d: Desk, e: Event)
    requires !e.OtherSlots?
    ensures |Step(cfg, d, e).outbox| <= |d.outbox| + 1
    ensures (e.New? || e.Cancel? || e.Replace?) && !e.pushed ==> |Step(cfg, d, e).outbox| <= |d.outbox|
    ensures !(e.New? || e.Cancel? || e.Replace?) ==> |Step(cfg, d, e).outbox| <= |d.outbox|
  {
    match e
    case New(_, _, _) => NewSteps(cfg, d, e.request, e.position, e.pushed);
    case Cancel(_, _, _) =>
    case Replace(_, _, _, _) =>
    case Response(r) => ResponseShares(d, r);
    case Mark(_, _) =>
    case SetTrading(_) =>
  }

  /** Request q was pushed by move k. */
  ghost predicate PushedBy(floors: seq<Floor>, moves: seq<Move>, k: nat, q: nat) {
    && |floors| == |moves| + 1 && k < |moves| && |floors[k].outbox| <= q < |floors[k + 1].outbox|
    && moves[k].Happens? && moves[k].slot < |floors[k].desks|
  }

  lemma {:induction false} MoveQueues(rules: Rules, f: Floor, m: Move, q: nat)
    requires Fair(rules, f, m) && |f.outbox| <= q < |Play(rules, f, m).outbox|
    ensures m.Happens? && Queues(ConfigOf(rules, m.slot), Seat(f, m.slot), m.event, Play(rules, f, m).outbox[q])
  {
    if m.Happens? {
      StepQueues(ConfigOf(rules, m.slot), Seat(f, m.slot), m.event, q);
    }
  }

  lemma {:induction false} MoveExtends(rules: Rules, f: Floor, m: Move)
    ensures f.outbox <= Play(rules, f, m).outbox
  {
    if m.Happens? && m.slot < |f.desks| {
      StepShares(ConfigOf(rules, m.slot), Seat(f, m.slot), m.event);
    }
  }

  /** Whatever the slots do: every request in the queue was pushed by some event of some slot, is what that
      event asked for, and, if it is a new order, was pushed while its slot was trading, for a registered
      ticker, within that slot's limits on quantity, value and projected position. */
  lemma {:induction false} RequestsAreChecked(rules: Rules, floors: seq<Floor>, moves: seq<Move>, n: nat, q: nat)
    returns (k: nat)
    requires IsFloorRun(rules, floors, moves) && n < |floors| && |floors[0].outbox| <= q < |floors[n].outbox|
    ensures k < n && PushedBy(floors, moves, k, q) && floors[k + 1].outbox[q] == floors[n].outbox[q]
    ensures Queues(ConfigOf(rules, moves[k].slot), Seat(floors[k], moves[k].slot), moves[k].event, floors[n].outbox[q])
    decreases n
  {
    assert MoveAt(rules, floors, moves, n - 1);
    MoveExtends(rules, floors[n - 1], moves[n - 1]);
    if q < |floors[n - 1].outbox| {
      k := RequestsAreChecked(rules, floors, moves, n - 1, q);
    } else {
      k := n - 1;
      MoveQueues(rules, floors[k], moves[k], q);
    }
  }

  /** So while a slot's trading is off, no move of it adds a new order. */
  lemma {:induction false} NothingNewWhileOff(rules: Rules, f: Floor, m: Move, q: nat)
    requires Fair(rules, f, m) && m.Happens? && !f.desks[m.slot].trading
    requires |f.outbox| <= q < |Play(rules, f, m).outbox|
    ensures Play(rules, f, m).outbox[q].kind != NEW
  {
    MoveQueues(rules, f, m, q);
  }
}
