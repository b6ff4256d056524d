/**
 What an order says it has filled is what it was told, over every run: its filled quantity is the
 sum of the executions accepted under its successive ids, and its average price lies between them.
 */
module DeskFills {
  import opened Types
  import opened Pnl
  import opened TradingDesk
  import opened DeskOrders
  import DeskTheorems
  import PnlLedger

  datatype Execution = Execution(price: Price, qty: Quantity)

  /** The executions accepted for each order, carried along its replaces. */
  type Tape = map<OrderId, seq<Execution>>

  function Total(fills: seq<Execution>): int {
    if fills == [] then 0 else Total(fills[..|fills| - 1]) + fills[|fills| - 1].qty
  }

  /** What the executions are worth. */
  function Value(fills: seq<Execution>): int {
    if fills == [] then 0 else Value(fills[..|fills| - 1]) + fills[|fills| - 1].price * fills[|fills| - 1].qty
  }

  /** The mean of all prices so far, weighted by quantity and truncated toward zero after each execution. */
  function RunningMean(fills: seq<Execution>): int {
    if fills == [] then 0
    else
      var before, x := fills[..|fills| - 1], fills[|fills| - 1];
      if Total(before) <= 0 || Total(fills) <= 0 then x.price
      else TruncDiv(RunningMean(before) * Total(before) + x.price * x.qty, Total(fills))
  }

  /** Every execution was for something. */
  predicate Real(fills: seq<Execution>) {
    forall i :: 0 <= i < |fills| ==> fills[i].qty > 0
  }

  lemma {:induction false} TotalPositive(fills: seq<Execution>)
    requires Real(fills) && fills != []
    ensures Total(fills) > 0 && Total(fills[..|fills| - 1]) >= 0
    ensures |fills| > 1 ==> Total(fills[..|fills| - 1]) > 0
    decreases |fills|
  {
    if |fills| > 1 {
      TotalPositive(fills[..|fills| - 1]);
    }
  }

  /** The truncations lose at most one unit of price per share for each execution after the first. */
  lemma {:induction false} MeanDrift(fills: seq<Execution>)
    requires Real(fills) && fills != []
    ensures Abs(RunningMean(fills) * Total(fills) - Value(fills)) <= (|fills| - 1) * Total(fills)
    decreases |fills|
  {
    var before, x := fills[..|fills| - 1], fills[|fills| - 1];
    TotalPositive(fills);
    if before != [] {
      MeanDrift(before);
      var w := RunningMean(before) * Total(before) + x.price * x.qty;
      PnlLedger.TruncRemainder(w, Total(fills));
      DriftAdds(RunningMean(fills), Total(fills), w, RunningMean(before) * Total(before) - Value(before),
                Value(fills), |before| - 1, Total(before));
    }
  }

  lemma {:induction false} DriftAdds(mean: int, total: int, w: int, err: int, value: int, n: nat, smaller: int)
    requires 0 < smaller <= total && Abs(w - total * mean) < total && w == value + err && Abs(err) <= n * smaller
    ensures Abs(mean * total - value) <= (n + 1) * total
  {
    assert n * smaller <= n * total;
    assert (n + 1) * total == n * total + total;
    assert mean * total == total * mean;
  }

  /** Some execution was at or below the price and some at or above it. */
  ghost predicate Spans(fills: seq<Execution>, price: Price) {
    && (exists i :: 0 <= i < |fills| && fills[i].price <= price)
    && (exists i :: 0 <= i < |fills| && price <= fills[i].price)
  }

  /** The response is an execution that the order manager and the risk manager both accept. */
  predicate AcceptsFill(d: Desk, r: OrderResponse) {
    r.status == EXECUTED && Accepts(d, r)
  }

  ghost function Recorded(cfg: Config, d: Desk, tape: Tape, e: Event): Tape {
    var id := MakeId(cfg.slot, d.counter);
    match e
    case New(_, _, _) => tape[id := []]
    case Replace(from, _, _, _) => if from in tape then tape[id := tape[from]] else tape
    case Response(r) =>
      if AcceptsFill(d, r) && r.id in tape then tape[r.id := tape[r.id] + [Execution(r.executionPrice, r.executedQty)]]
      else tape
    case _ => tape
  }

  ghost predicate OrderPriced(d: Desk, tape: Tape, i: nat) {
    i < |d.orders| ==>
      && d.orders[i].id in tape
      && d.orders[i].filled == Total(tape[d.orders[i].id])
      && Real(tape[d.orders[i].id])
      && (d.orders[i].filled > 0 ==>
            && d.orders[i].avgFill == RunningMean(tape[d.orders[i].id])
            && Spans(tape[d.orders[i].id], d.orders[i].avgFill))
  }

  ghost predicate Priced(d: Desk, tape: Tape) {
    forall i :: OrderPriced(d, tape, i)
  }

  lemma {:induction false} FillKeepsSpan(fills: seq<Execution>, o: Order, price: Price, qty: Quantity)
    requires qty > 0 && o.filled == Total(fills) && Real(fills)
    requires o.filled > 0 ==> Spans(fills, o.avgFill) && o.avgFill == RunningMean(fills)
    ensures Spans(fills + [Execution(price, qty)], FillAverage(o, price, qty))
    ensures RunningMean(fills + [Execution(price, qty)]) == FillAverage(o, price, qty)
    ensures Total(fills + [Execution(price, qty)]) == Total(fills) + qty && Real(fills + [Execution(price, qty)])
  {
    var after := fills + [Execution(price, qty)];
    assert after[..|fills|] == fills && after[|fills|].price == price;
    if o.filled > 0 {
      MeanBetween(o.avgFill, o.filled, price, qty);
      var i :| 0 <= i < |fills| && fills[i].price <= o.avgFill;
      var j :| 0 <= j < |fills| && o.avgFill <= fills[j].price;
      assert after[i] == fills[i] && after[j] == fills[j];
    }
  }

  predicate SameFills(o: Order, o': Order) {
    o'.id == o.id && o'.filled == o.filled && o'.avgFill == o.avgFill
  }

  /** A response touches no order's fills but those of the order it executes. */
  lemma {:induction false} ResponseFills(d: Desk, r: OrderResponse, i: nat)
    requires i < |d.orders|
    requires AcceptsFill(d, r) ==> i != Find(d.orders, r.id)
    ensures |OnResponse(d, r).orders| == |d.orders|
    ensures SameFills(d.orders[i], OnResponse(d, r).orders[i])
  {
    var k := Find(d.orders, r.id);
    if i != k {
      DeskTheorems.OthersUntouched(d, r, i);
    } else if r.status == EXECUTED {
      RefusedFill(d, r, i);
    } else {
      NotAFill(d, r, i);
    }
  }

  lemma {:induction false} NotAFill(d: Desk, r: OrderResponse, k: nat)
    requires r.status != EXECUTED && k == Find(d.orders, r.id) && k < |d.orders|
    ensures |OnResponse(d, r).orders| == |d.orders|
    ensures SameFills(d.orders[k], OnResponse(d, r).orders[k])
  {
  }

  lemma {:induction false} RefusedFill(d: Desk, r: OrderResponse, k: nat)
    requires r.status == EXECUTED && k == Find(d.orders, r.id) && k < |d.orders| && !AcceptsFill(d, r)
    ensures |OnResponse(d, r).orders| == |d.orders|
    ensures SameFills(d.orders[k], OnResponse(d, r).orders[k])
  {
  }

  lemma {:induction false} FillKeepsPriced(cfg: Config, w: Watched, tape: Tape, r: OrderResponse, k: nat)
    requires OrderPriced(w.d, tape, k) && AcceptsFill(w.d, r) && k == Find(w.d.orders, r.id)
    ensures OrderPriced(OnResponse(w.d, r), Recorded(cfg, w.d, tape, Response(r)), k)
  {
    FillRecorded(w.d, r, k);
    FilledPriced(w.d, tape, r, k, OnResponse(w.d, r), Recorded(cfg, w.d, tape, Response(r)));
  }

  lemma {:induction false} FillRecorded(d: Desk, r: OrderResponse, k: nat)
    requires AcceptsFill(d, r) && k == Find(d.orders, r.id)
    ensures k < |d.orders| == |OnResponse(d, r).orders| && r.executedQty > 0
    ensures var o, o' := d.orders[k], OnResponse(d, r).orders[k];
      && o'.id == o.id == r.id && o'.filled == o.filled + r.executedQty
      && o'.avgFill == FillAverage(o, r.executionPrice, r.executedQty)
  {
  }

  lemma {:induction false} FilledPriced(d: Desk, tape: Tape, r: OrderResponse, k: nat, d': Desk, tape': Tape)
    requires OrderPriced(d, tape, k) && k < |d.orders| == |d'.orders| && r.executedQty > 0
    requires var o, o' := d.orders[k], d'.orders[k];
      && o'.id == o.id == r.id && o'.filled == o.filled + r.executedQty
      && o'.avgFill == FillAverage(o, r.executionPrice, r.executedQty)
    requires r.id in tape ==> tape' == tape[r.id := tape[r.id] + [Execution(r.executionPrice, r.executedQty)]]
    ensures OrderPriced(d', tape', k)
  {
    FillKeepsSpan(tape[r.id], d.orders[k], r.executionPrice, r.executedQty);
  }

  lemma {:induction false} ResponseKeepsPriced(cfg: Config, w: Watched, tape: Tape, r: OrderResponse)
    requires Inv(cfg, w) && Priced(w.d, tape)
    ensures Priced(OnResponse(w.d, r), Recorded(cfg, w.d, tape, Response(r)))
  {
    var d, tape' := OnResponse(w.d, r), Recorded(cfg, w.d, tape, Response(r));
    var k := Find(w.d.orders, r.id);
    forall i: nat ensures OrderPriced(d, tape', i) {
      assert OrderPriced(w.d, tape, i);
      if i < |w.d.orders| {
        if i == k && AcceptsFill(w.d, r) {
          FillKeepsPriced(cfg, w, tape, r, k);
        } else {
          ResponseFills(w.d, r, i);
        }
      } else {
        DeskTheorems.ResponseLength(w.d, r);
      }
    }
  }

  /** The id about to be drawn belongs to no recorded order. */
  lemma {:induction false} NextIdUnused(cfg: Config, w: Watched, i: nat)
    requires Inv(cfg, w) && w.d.counter < TWO_48 && i < |w.d.orders|
    ensures w.d.orders[i].id != MakeId(cfg.slot, w.d.counter)
  {
    assert OrderOk(cfg, w, i);
    NextIdIsFresh(cfg, w.d.counter, w.d.orders[i].id);
  }

  lemma {:induction false} ReplaceKeepsPriced(cfg: Config, w: Watched, tape: Tape, e: Event)
    requires Inv(cfg, w) && Priced(w.d, tape) && e.Replace? && HasIds(w.d, e)
    ensures Priced(Step(cfg, w.d, e), Recorded(cfg, w.d, tape, e))
  {
    var d, tape' := Step(cfg, w.d, e), Recorded(cfg, w.d, tape, e);
    var k := Find(w.d.orders, e.id);
    forall i: nat ensures OrderPriced(d, tape', i) {
      assert OrderPriced(w.d, tape, i);
      if i < |w.d.orders| {
        NextIdUnused(cfg, w, i);
        if i == k { assert OrderPriced(w.d, tape, k); }
      }
    }
  }

  lemma {:induction false} NewKeepsPriced(cfg: Config, w: Watched, tape: Tape, e: Event)
    requires Inv(cfg, w) && Priced(w.d, tape) && e.New? && HasIds(w.d, e)
    ensures Priced(Step(cfg, w.d, e), Recorded(cfg, w.d, tape, e))
  {
    var d, tape' := Step(cfg, w.d, e), Recorded(cfg, w.d, tape, e);
    forall i: nat ensures OrderPriced(d, tape', i) {
      assert OrderPriced(w.d, tape, i);
      if i < |w.d.orders| {
        NextIdUnused(cfg, w, i);
      }
    }
  }

  lemma {:induction false} StepKeepsPriced(cfg: Config, w: Watched, tape: Tape, e: Event)
    requires Inv(cfg, w) && Priced(w.d, tape) && HasIds(w.d, e)
    ensures Priced(Step(cfg, w.d, e), Recorded(cfg, w.d, tape, e))
  {
    if e.New? {
      NewKeepsPriced(cfg, w, tape, e);
    } else if e.Replace? {
      ReplaceKeepsPriced(cfg, w, tape, e);
    } else if e.Response? {
      ResponseKeepsPriced(cfg, w, tape, e.response);
    } else {
      forall i: nat ensures OrderPriced(Step(cfg, w.d, e), tape, i) {
        assert OrderPriced(w.d, tape, i);
      }
    }
  }

  lemma {:induction false} NextPriced(cfg: Config, states: seq<Watched>, events: seq<Event>, k: nat, tape: Tape)
    requires DeskTheorems.IsRun(cfg, states, events) && k < |events| && Priced(states[k].d, tape)
    ensures Priced(states[k + 1].d, Recorded(cfg, states[k].d, tape, events[k]))
  {
    DeskTheorems.RunKeepsInv(cfg, states, events, k);
    DeskTheorems.StepOfRun(cfg, states, events, k);
    StepKeepsPriced(cfg, states[k], tape, events[k]);
  }

  /** The executions accepted in the first i steps of a run. */
  ghost function TapeOf(cfg: Config, states: seq<Watched>, events: seq<Event>, i: nat): Tape
    requires i <= |events| && i < |states|
  {
    if i == 0 then map[] else Recorded(cfg, states[i - 1].d, TapeOf(cfg, states, events, i - 1), events[i - 1])
  }

  /** In every reachable state, every order, through any replaces and slot reuse: the quantity filled is the
      total of its executions, and its average is their running mean, which never leaves their range. */
  lemma {:induction false} FillsAreAccounted(cfg: Config, states: seq<Watched>, events: seq<Event>, i: nat)
    requires DeskTheorems.IsRun(cfg, states, events) && i < |states|
    ensures Priced(states[i].d, TapeOf(cfg, states, events, i))
  {
    if i > 0 {
      FillsAreAccounted(cfg, states, events, i - 1);
      NextPriced(cfg, states, events, i - 1, TapeOf(cfg, states, events, i - 1));
    }
  }
}
