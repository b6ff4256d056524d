/**
 Position limits (src/trading/risk_manager.h:62-154).  The submission check nets buys against
 sells, so it does not bound what fills can do; here is what it does guarantee, and exactly when.
 */
module DeskLimits {
  import opened Types
  import opened Pnl
  import opened TradingDesk
  import opened DeskOrders
  import opened Sums

  function Opposite(side: Side): Side {
    if side.BUY? then SELL else BUY
  }

  // ---------------------------------------------------------------------------
  // Reserved quantities

  function Counts(r: Reservation, t: TickerId, side: Side): int {
    if r.ticker == t && r.side == side then r.qty else 0
  }

  lemma {:induction false} ReservedInsert(p: Pending, id: OrderId, r: Reservation, t: TickerId, side: Side)
    requires id !in p
    ensures Reserved(p[id := r], t, side) == Reserved(p, t, side) + Counts(r, t, side)
  {
    var m, n := Contribution(p, t, side), Contribution(p[id := r], t, side);
    if r.ticker == t && r.side == side {
      assert n == m[id := r.qty as int];
      MapSumInsert<OrderId>(m, id, r.qty);
    } else {
      assert n == m;
    }
  }

  lemma {:induction false} ReservedRemove(p: Pending, id: OrderId, t: TickerId, side: Side)
    requires id in p
    ensures Reserved(p - {id}, t, side) == Reserved(p, t, side) - Counts(p[id], t, side)
  {
    ReservedInsert(p - {id}, id, p[id], t, side);
    assert (p - {id})[id := p[id]] == p;
  }

  lemma {:induction false} ReservedRelease(p: Pending, id: OrderId, q: Quantity, t: TickerId, side: Side)
    requires id in p && q <= p[id].qty
    ensures Reserved(Release(p, id, q), t, side) ==
            Reserved(p, t, side) - (if p[id].ticker == t && p[id].side == side then q else 0)
  {
    ReservedRemove(p, id, t, side);
    if q < p[id].qty {
      var r := p[id].(qty := p[id].qty - q);
      ReservedInsert(p - {id}, id, r, t, side);
      assert (p - {id})[id := r] == p[id := r];
    }
  }

  lemma {:induction false} ReservedRekey(p: Pending, id: OrderId, newId: OrderId, t: TickerId, side: Side)
    requires id in p && newId !in p
    ensures Reserved((p - {id})[newId := p[id]], t, side) == Reserved(p, t, side)
  {
    ReservedRemove(p, id, t, side);
    ReservedInsert(p - {id}, newId, p[id], t, side);
  }

  lemma {:induction false} ReservedNonNegative(p: Pending, t: TickerId, side: Side)
    ensures Reserved(p, t, side) >= 0
    decreases |p|
  {
    if p == map[] {
      assert Contribution(p, t, side) == map[];
    } else {
      var id :| id in p;
      assert (p - {id}).Keys == p.Keys - {id};
      ReservedNonNegative(p - {id}, t, side);
      ReservedRemove(p, id, t, side);
    }
  }

  // ---------------------------------------------------------------------------
  // Fills

  lemma {:induction false} FillMovesNet(p: Position, side: Side, price: Price, qty: Quantity)
    requires OnExecution(p, side, price, qty).Some?
    ensures OnExecution(p, side, price, qty).value.net == p.net + Signed(side, qty)
  {
  }

  ghost function Net(d: Desk, t: TickerId): int
    requires t in d.positions
  {
    d.positions[t].net
  }

  /** Where a ticker's position would be if every buy, or every sell, filled. */
  ghost function Long(d: Desk, t: TickerId): int
    requires t in d.positions
  {
    Net(d, t) + Reserved(d.pending, t, BUY)
  }

  ghost function Short(d: Desk, t: TickerId): int
    requires t in d.positions
  {
    Net(d, t) - Reserved(d.pending, t, SELL)
  }

  /** No set of fills of what is outstanding leaves the limit. */
  ghost predicate Within(d: Desk, t: TickerId) {
    t in d.positions && t in d.limits ==>
      -d.limits[t].maxPosition <= Short(d, t) && Long(d, t) <= d.limits[t].maxPosition
  }

  lemma {:induction false} WithinBounds(d: Desk, t: TickerId)
    requires t in d.positions && t in d.limits && Within(d, t)
    ensures Abs(Net(d, t)) <= d.limits[t].maxPosition
    ensures Abs(Net(d, t) + Exposure(d.pending, t)) <= d.limits[t].maxPosition
  {
    ReservedNonNegative(d.pending, t, BUY);
    ReservedNonNegative(d.pending, t, SELL);
  }

  /** An accepted fill turns reserved quantity into position: their sum does not move. */
  lemma {:induction false} FillConserves(d: Desk, r: OrderResponse, t: TickerId)
    requires r.status == EXECUTED && RiskResponse(d, r).Some? && t in d.positions
    ensures var e := RiskResponse(d, r).value;
      && t in e.positions
      && Net(e, t) + Exposure(e.pending, t) == Net(d, t) + Exposure(d.pending, t)
      && (d.pending[r.id].side.BUY? ==> Long(e, t) == Long(d, t) && Short(e, t) >= Short(d, t))
      && (d.pending[r.id].side.SELL? ==> Short(e, t) == Short(d, t) && Long(e, t) <= Long(d, t))
  {
    var res := d.pending[r.id];
    FillMovesNet(d.positions[res.ticker], res.side, r.executionPrice, r.executedQty);
    ReservedRelease(d.pending, r.id, r.executedQty, t, BUY);
    ReservedRelease(d.pending, r.id, r.executedQty, t, SELL);
  }

  /** No risk response widens what is outstanding. */
  lemma {:induction false} RiskKeepsWithin(d: Desk, r: OrderResponse, t: TickerId)
    requires RiskResponse(d, r).Some? && Within(d, t)
    ensures Within(RiskResponse(d, r).value, t)
  {
    if t in d.positions {
      match r.status
      case EXECUTED => FillConserves(d, r, t);
      case CANCELED =>
        ReservedRelease(d.pending, r.id, r.canceledQty, t, BUY);
        ReservedRelease(d.pending, r.id, r.canceledQty, t, SELL);
      case REJECTED =>
        ReservedRemove(d.pending, r.id, t, BUY);
        ReservedRemove(d.pending, r.id, t, SELL);
      case ACCEPTED =>
      case CANCEL_REJECTED =>
    }
  }

  // ---------------------------------------------------------------------------
  // Submissions

  /** The order passes the check against the desk's own position. */
  ghost predicate Passes(cfg: Config, d: Desk, r: OrderRequest) {
    r.ticker in d.positions && CanSubmit(cfg, d, r, d.positions[r.ticker]) == PASSED
  }

  ghost function Reserve(d: Desk, r: OrderRequest): Desk {
    d.(pending := d.pending[r.id := Reservation(r.ticker, r.side, r.qty)])
  }

  /** A submission the check lets through keeps the ticker within its limit exactly when the
      position plus everything outstanding on the order's own side, itself included, does. */
  lemma {:induction false} SubmissionIff(cfg: Config, d: Desk, r: OrderRequest)
    requires Passes(cfg, d, r) && Within(d, r.ticker)
    ensures Within(Reserve(d, r), r.ticker) <==>
            Abs(Net(d, r.ticker) + Signed(r.side, Reserved(d.pending, r.ticker, r.side) + r.qty)) <=
                d.limits[r.ticker].maxPosition
    ensures Reserved(d.pending, r.ticker, Opposite(r.side)) == 0 ==> Within(Reserve(d, r), r.ticker)
  {
    var res := Reservation(r.ticker, r.side, r.qty);
    ReservedInsert(d.pending, r.id, res, r.ticker, BUY);
    ReservedInsert(d.pending, r.id, res, r.ticker, SELL);
    ReservedNonNegative(d.pending, r.ticker, BUY);
    ReservedNonNegative(d.pending, r.ticker, SELL);
  }

  // ---------------------------------------------------------------------------
  // Whole runs

  /** A submission is checked against the desk's own position. */
  predicate OwnPosition(d: Desk, e: Event) {
    e.New? && e.request.ticker in d.positions ==> e.position == d.positions[e.request.ticker]
  }

  /** The request as it is checked and sent. */
  function Sent(cfg: Config, d: Desk, r: OrderRequest): OrderRequest {
    r.(id := MakeId(cfg.slot, d.counter), newId := 0)
  }

  /** The event submits an order on `t`: there is a place for it, the check lets it through and the queue
      takes it. */
  ghost predicate Submits(cfg: Config, d: Desk, e: Event, t: TickerId) {
    && e.New? && e.request.ticker == t && e.pushed && AllocSlot(d.orders) < cfg.maxOrders
    && CanSubmit(cfg, d, Sent(cfg, d, e.request), e.position) == PASSED
  }

  /** Exactly such events add a reservation. */
  lemma {:induction false} SubmitsIff(cfg: Config, d: Desk, e: Event)
    requires e.New?
    ensures var d', r := Step(cfg, d, e), Sent(cfg, d, e.request);
      && d'.positions == d.positions && d'.limits == d.limits
      && if Submits(cfg, d, e, e.request.ticker) then r.id !in d.pending && d'.pending == Reserve(d, r).pending
         else d'.pending == d.pending
  {
    var f := d.(counter := d.counter + 1);
    assert CanSubmit(cfg, f, Sent(cfg, d, e.request), e.position) ==
        CanSubmit(cfg, d, Sent(cfg, d, e.request), e.position);
  }

  /** The position plus everything outstanding on the order's own side, itself included, is within the limit. */
  ghost predicate OwnSideFits(d: Desk, r: OrderRequest) {
    r.ticker in d.positions && r.ticker in d.limits ==>
      Abs(Net(d, r.ticker) + Signed(r.side, Reserved(d.pending, r.ticker, r.side) + r.qty)) <=
          d.limits[r.ticker].maxPosition
  }

  /** If the event submits an order on `t`, the order fits its own side. */
  ghost predicate StepFits(cfg: Config, d: Desk, e: Event, t: TickerId) {
    Submits(cfg, d, e, t) ==> OwnSideFits(d, e.request)
  }

  lemma {:induction false} SubmittedWithinIff(cfg: Config, d: Desk, e: Event, d': Desk, t: TickerId)
    requires e.New? && Within(d, t) && OwnPosition(d, e) && t in d.positions && t in d.limits
    requires d'.positions == d.positions && d'.limits == d.limits
    requires var r := Sent(cfg, d, e.request);
      if Submits(cfg, d, e, e.request.ticker) then r.id !in d.pending && d'.pending == Reserve(d, r).pending
      else d'.pending == d.pending
    ensures Within(d', t) <==> StepFits(cfg, d, e, t)
  {
    var r := Sent(cfg, d, e.request);
    if Submits(cfg, d, e, r.ticker) {
      if r.ticker == t {
        SubmissionIff(cfg, d, r);
      } else {
        ReservedInsert(d.pending, r.id, Reservation(r.ticker, r.side, r.qty), t, BUY);
        ReservedInsert(d.pending, r.id, Reservation(r.ticker, r.side, r.qty), t, SELL);
      }
    }
  }

  lemma {:induction false} NewKeepsWithinIff(cfg: Config, d: Desk, e: Event, t: TickerId)
    requires e.New? && Within(d, t) && OwnPosition(d, e) && t in d.positions && t in d.limits
    ensures Within(Step(cfg, d, e), t) <==> StepFits(cfg, d, e, t)
  {
    SubmitsIff(cfg, d, e);
    SubmittedWithinIff(cfg, d, e, Step(cfg, d, e), t);
  }

  predicate SameRisk(d: Desk, e: Desk) {
    e.pending == d.pending && e.positions == d.positions && e.limits == d.limits
  }

  /** The order table passes a response on to the risk tables or leaves them alone. */
  lemma {:induction false} ResponseReachesRisk(d: Desk, r: OrderResponse)
    ensures SameRisk(d, OnResponse(d, r)) ||
            (RiskResponse(d, r).Some? && SameRisk(RiskResponse(d, r).value, OnResponse(d, r)))
  {
    match r.status
    case EXECUTED => ExecutedReachesRisk(d, r);
    case CANCELED =>
    case REJECTED =>
    case ACCEPTED =>
    case CANCEL_REJECTED =>
  }

  lemma {:induction false} ExecutedReachesRisk(d: Desk, r: OrderResponse)
    requires r.status == EXECUTED
    ensures SameRisk(d, OnResponse(d, r)) ||
            (RiskResponse(d, r).Some? && SameRisk(RiskResponse(d, r).value, OnResponse(d, r)))
  {
  }

  lemma {:induction false} ResponseKeepsWithin(d: Desk, r: OrderResponse, t: TickerId)
    requires Within(d, t)
    ensures Within(OnResponse(d, r), t)
  {
    ResponseReachesRisk(d, r);
    if RiskResponse(d, r).Some? {
      RiskKeepsWithin(d, r, t);
      WithinOfSame(RiskResponse(d, r).value, OnResponse(d, r), t);
    }
    WithinOfSame(d, OnResponse(d, r), t);
  }

  lemma {:induction false} WithinOfSame(d: Desk, e: Desk, t: TickerId)
    ensures SameRisk(d, e) && Within(d, t) ==> Within(e, t)
  {
  }

  /** A step keeps a ticker within its limit exactly unless it submits an order too large for its own side. */
  lemma {:induction false} StepKeepsWithinIff(cfg: Config, d: Desk, e: Event, t: TickerId)
    requires Within(d, t) && OwnPosition(d, e) && t in d.positions && t in d.limits
    ensures Within(Step(cfg, d, e), t) <==> StepFits(cfg, d, e, t)
  {
    match e
    case New(_, _, _) => NewKeepsWithinIff(cfg, d, e, t);
    case Replace(id, price, qty, pushed) =>
      var newId := MakeId(cfg.slot, d.counter);
      if !RekeyFails(d.pending, id, newId) {
        ReservedRekey(d.pending, id, newId, t, BUY);
        ReservedRekey(d.pending, id, newId, t, SELL);
      }
    case Response(r) => ResponseKeepsWithin(d, r, t);
    case Mark(_, _) =>
    case Cancel(_, _, _) =>
    case SetTrading(_) =>
    case OtherSlots(_, _) =>
  }

  /** Every submission of the run is checked against the desk's own position. */
  ghost predicate OwnPositions(states: seq<Watched>, events: seq<Event>) {
    |states| == |events| + 1 && forall k :: OwnPositionAt(states, events, k)
  }

  ghost predicate OwnPositionAt(states: seq<Watched>, events: seq<Event>, k: nat)
    requires |states| == |events| + 1
  {
    k < |events| ==> OwnPosition(states[k].d, events[k])
  }

  lemma {:induction false} ResponseKeepsTickers(d: Desk, r: OrderResponse)
    ensures OnResponse(d, r).limits == d.limits && OnResponse(d, r).positions.Keys == d.positions.Keys
  {
    ResponseReachesRisk(d, r);
  }

  lemma {:induction false} StepKeepsTickers(cfg: Config, d: Desk, e: Event)
    ensures Step(cfg, d, e).limits == d.limits && Step(cfg, d, e).positions.Keys == d.positions.Keys
  {
    match e
    case Response(r) => ResponseKeepsTickers(d, r);
    case New(_, _, _) => SubmitsIff(cfg, d, e);
    case Replace(_, _, _, _) =>
    case Mark(_, _) =>
    case Cancel(_, _, _) =>
    case SetTrading(_) =>
    case OtherSlots(_, _) =>
  }

  lemma {:induction false} NextWithinIff(cfg: Config, states: seq<Watched>, events: seq<Event>, k: nat, t: TickerId)
    requires Steps(cfg, states, events) && OwnPositions(states, events) && k < |events|
    requires t in states[k].d.positions && t in states[k].d.limits
    ensures states[k + 1].d.limits == states[k].d.limits && t in states[k + 1].d.positions
    ensures Within(states[k].d, t) ==> (Within(states[k + 1].d, t) <==> StepFits(cfg, states[k].d, events[k], t))
  {
    assert StepAt(cfg, states, events, k) && OwnPositionAt(states, events, k);
    StepKeepsTickers(cfg, states[k].d, events[k]);
    if Within(states[k].d, t) {
      StepKeepsWithinIff(cfg, states[k].d, events[k], t);
    }
  }

  /** Within the limit in every state up to the i-th. */
  ghost predicate WithinUpTo(states: seq<Watched>, t: TickerId, i: nat)
    requires i < |states|
  {
    Within(states[i].d, t) && (i == 0 || WithinUpTo(states, t, i - 1))
  }

  /** The submissions on `t` among the first i events, as far as they went through, fitted their own side. */
  ghost predicate AllFit(cfg: Config, states: seq<Watched>, events: seq<Event>, t: TickerId, i: nat)
    requires i <= |events| < |states|
  {
    i == 0 || (StepFits(cfg, states[i - 1].d, events[i - 1], t) && AllFit(cfg, states, events, t, i - 1))
  }

  lemma {:induction false} RunKeepsTickers(cfg: Config, states: seq<Watched>, events: seq<Event>, i: nat, t: TickerId)
    requires Steps(cfg, states, events) && OwnPositions(states, events) && i < |states|
    requires t in states[0].d.positions && t in states[0].d.limits
    ensures t in states[i].d.positions && states[i].d.limits == states[0].d.limits
  {
    if i > 0 {
      RunKeepsTickers(cfg, states, events, i - 1, t);
      NextWithinIff(cfg, states, events, i - 1, t);
    }
  }

  lemma {:induction false} WithinUpToIff(cfg: Config, states: seq<Watched>, events: seq<Event>, i: nat, t: TickerId)
    requires Steps(cfg, states, events) && OwnPositions(states, events) && i < |states| && Within(states[0].d, t)
    requires t in states[0].d.positions && t in states[0].d.limits
    ensures WithinUpTo(states, t, i) <==> AllFit(cfg, states, events, t, i)
    decreases i
  {
    if i > 0 {
      WithinUpToIff(cfg, states, events, i - 1, t);
      RunKeepsTickers(cfg, states, events, i - 1, t);
      NextWithinIff(cfg, states, events, i - 1, t);
    }
  }

  /** From a desk within its limits, under any fills, cancels, rejects and replaces: what is held and
      outstanding stays within the limit in every state up to the i-th exactly when every submission
      so far fitted its own side; and then neither the position nor the position plus exposure leaves it. */
  lemma {:induction false} RunStaysWithinIff(cfg: Config, states: seq<Watched>, events: seq<Event>, i: nat, t: TickerId)
    requires Steps(cfg, states, events) && OwnPositions(states, events) && i < |states| && Within(states[0].d, t)
    requires t in states[0].d.positions && t in states[0].d.limits
    ensures t in states[i].d.positions && states[i].d.limits == states[0].d.limits
    ensures WithinUpTo(states, t, i) <==> AllFit(cfg, states, events, t, i)
    ensures WithinUpTo(states, t, i) ==>
      && Abs(Net(states[i].d, t)) <= states[0].d.limits[t].maxPosition
      && Abs(Net(states[i].d, t) + Exposure(states[i].d.pending, t)) <= states[0].d.limits[t].maxPosition
  {
    RunKeepsTickers(cfg, states, events, i, t);
    WithinUpToIff(cfg, states, events, i, t);
    if WithinUpTo(states, t, i) {
      WithinBounds(states[i].d, t);
    }
  }

  /** A submission that meets no outstanding order on the other side always fits. */
  lemma {:induction false} OneSidedFits(cfg: Config, d: Desk, e: Event)
    requires e.New? && OwnPosition(d, e) && Submits(cfg, d, e, e.request.ticker) && Within(d, e.request.ticker)
    requires Reserved(d.pending, e.request.ticker, Opposite(e.request.side)) == 0
    ensures OwnSideFits(d, e.request)
  {
    var t := e.request.ticker;
    if t in d.positions && t in d.limits {
      SubmissionIff(cfg, d, Sent(cfg, d, e.request));
    }
  }

  /** The submission meets no outstanding order on the other side. */
  ghost predicate OneSided(d: Desk, e: Event) {
    e.New? ==> Reserved(d.pending, e.request.ticker, Opposite(e.request.side)) == 0
  }

  ghost predicate OneSidedAt(states: seq<Watched>, events: seq<Event>, k: nat)
    requires |states| == |events| + 1
  {
    k < |events| ==> OneSided(states[k].d, events[k])
  }

  lemma {:induction false} OneSidedRunFits(cfg: Config, states: seq<Watched>, events: seq<Event>, i: nat, t: TickerId)
    requires Steps(cfg, states, events) && OwnPositions(states, events) && i < |states| && Within(states[0].d, t)
    requires forall k :: OneSidedAt(states, events, k)
    requires t in states[0].d.positions && t in states[0].d.limits
    ensures AllFit(cfg, states, events, t, i)
    decreases i
  {
    if i > 0 {
      OneSidedRunFits(cfg, states, events, i - 1, t);
      RunStaysWithinIff(cfg, states, events, i - 1, t);
      assert OwnPositionAt(states, events, i - 1) && OneSidedAt(states, events, i - 1);
      OneSidedStepFits(cfg, states[i - 1].d, events[i - 1], t);
    }
  }

  /** So with one-sided submissions the limit holds in every state of every run. */
  lemma {:induction false} RunStaysWithin(cfg: Config, states: seq<Watched>, events: seq<Event>, i: nat, t: TickerId)
    requires Steps(cfg, states, events) && OwnPositions(states, events) && i < |states| && Within(states[0].d, t)
    requires forall k :: OneSidedAt(states, events, k)
    requires t in states[0].d.positions && t in states[0].d.limits
    ensures WithinUpTo(states, t, i) && t in states[i].d.positions
    ensures Abs(Net(states[i].d, t)) <= states[0].d.limits[t].maxPosition
    ensures Abs(Net(states[i].d, t) + Exposure(states[i].d.pending, t)) <= states[0].d.limits[t].maxPosition
  {
    OneSidedRunFits(cfg, states, events, i, t);
    RunStaysWithinIff(cfg, states, events, i, t);
  }

  lemma {:induction false} OneSidedStepFits(cfg: Config, d: Desk, e: Event, t: TickerId)
    requires OwnPosition(d, e) && OneSided(d, e) && Within(d, t)
    ensures StepFits(cfg, d, e, t)
  {
    if Submits(cfg, d, e, t) {
      OneSidedFits(cfg, d, e);
    }
  }
}
