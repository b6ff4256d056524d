/**
 The books balance: over every run of fills and marks, what the tracker reports as profit is the
 cash that moved plus the value of what is held, up to the remainders its averages truncate away.
 */
module PnlLedger {
  import opened Types
  import opened Pnl

  datatype Event = Executed(side: Side, price: Price, qty: Quantity) | Marked(price: Price)

  /** A position beside an independent record of its accepted fills: cash in minus cash out,
      shares in minus shares out, the truncation remainders, and the lowest and highest price
      that went into the open position. */
  datatype Ledger = Ledger(pos: Position, cash: int, shares: int, drift: int, lo: int, hi: int)

  const OPENING := Ledger(FLAT, 0, 0, 0, 0, 0)

  /** What averaging loses: the signed remainder of the division.  Other fills lose nothing. */
  function Remainder(p: Position, side: Side, price: Price, qty: Quantity): int
    requires qty > 0
  {
    if !SameDirection(p, side) then 0
    else
      var n := Abs(p.net) + qty;
      var w := p.avg * Abs(p.net) + price * qty;
      Signed(side, w - n * TruncDiv(w, n))
  }

  function Min(a: int, b: int): int { if a < b then a else b }
  function Max(a: int, b: int): int { if a < b then b else a }

  function Post(l: Ledger, e: Event): Ledger {
    match e
    case Executed(side, price, qty) =>
      var next := OnExecution(l.pos, side, price, qty);
      if next.None? then l
      else
        var opens := !SameDirection(l.pos, side) && qty > Abs(l.pos.net);
        var averages := SameDirection(l.pos, side);
        Ledger(next.value, l.cash - Signed(side, price * qty), l.shares + Signed(side, qty),
               l.drift + Remainder(l.pos, side, price, qty),
               if opens then price else if averages then Min(l.lo, price) else l.lo,
               if opens then price else if averages then Max(l.hi, price) else l.hi)
    case Marked(price) =>
      var next := OnMark(l.pos, price);
      if next.None? then l else l.(pos := next.value)
  }

  function Run(l: Ledger, es: seq<Event>): Ledger {
    if es == [] then l else Post(Run(l, es[..|es| - 1]), es[|es| - 1])
  }

  ghost predicate Balanced(l: Ledger) {
    && l.pos.realized == l.cash + l.pos.net * l.pos.avg + l.drift
    && l.pos.net == l.shares
    && (l.pos.net == 0 <==> l.pos.avg == PRICE_INVALID)
    && (l.pos.net != 0 ==> PRICE_INVALID < l.lo <= l.pos.avg <= l.hi)
    && l.pos.unrealized ==
       (if l.pos.net == 0 || l.pos.mark == PRICE_INVALID then 0 else l.pos.net * (l.pos.mark - l.pos.avg))
    && FitsInt64(l.pos.realized) && FitsInt64(l.pos.unrealized)
  }

  /** Selling c of a long position, or buying back c of a short one. */
  lemma {:induction false} CloseArithmetic(net: int, avg: int, price: int, c: int, side: Side)
    requires net > 0 <==> side.SELL?
    ensures var perUnit := if net > 0 then price - avg else avg - price;
      perUnit * c - (net + Signed(side, c)) * avg == -(net * avg) - Signed(side, price * c)
  {
    if net > 0 {
      assert (price - avg) * c - (net - c) * avg == -(net * avg) + price * c;
    } else {
      assert (avg - price) * c - (net + c) * avg == -(net * avg) - price * c;
    }
  }

  /** Opening, closing and flipping are exact. */
  lemma {:induction false} ClosingIsExact(p: Position, side: Side, price: Price, qty: Quantity)
    requires qty > 0 && !SameDirection(p, side) && Fill(p, side, price, qty).Some?
    ensures var q := Fill(p, side, price, qty).value;
      q.realized - q.net * q.avg == p.realized - p.net * p.avg - Signed(side, price * qty)
  {
    var open := Abs(p.net);
    SignedProduct(side, price, qty);
    if p.net != 0 {
      CloseArithmetic(p.net, p.avg, price, if open < qty then open else qty, side);
      if qty > open {
        FlipArithmetic(side, price, qty, open);
      }
    }
  }

  lemma {:induction false} FlipArithmetic(side: Side, price: int, qty: int, open: int)
    ensures Signed(side, qty - open) * price == Signed(side, price * qty) - Signed(side, price * open)
  {
    assert (qty - open) * price == price * qty - price * open;
    SignedProduct(side, price, qty - open);
  }

  lemma {:induction false} SignedProduct(side: Side, price: int, qty: int)
    ensures Signed(side, qty) * price == Signed(side, price * qty)
  {
  }

  /** Averaging is exact up to its remainder, which is smaller than the position. */
  lemma {:induction false} AveragingLosesRemainder(p: Position, side: Side, price: Price, qty: Quantity)
    requires qty > 0 && SameDirection(p, side)
    ensures var q := Fill(p, side, price, qty).value;
      && q.realized - q.net * q.avg == p.realized - p.net * p.avg - Signed(side, price * qty)
         + Remainder(p, side, price, qty)
      && Abs(Remainder(p, side, price, qty)) < Abs(q.net)
      && Min(p.avg, price) <= q.avg <= Max(p.avg, price)
  {
    var held := Abs(p.net);
    var n, w := held + qty, p.avg * held + price * qty;
    MeanBetween(p.avg, held, price, qty);
    TruncRemainder(w, n);
    SignedProduct(side, TruncDiv(w, n), n);
    SignedProduct(side, p.avg, held);
    assert n * TruncDiv(w, n) == TruncDiv(w, n) * n;
  }

  lemma {:induction false} TruncRemainder(w: int, n: int)
    requires n > 0
    ensures Abs(w - n * TruncDiv(w, n)) < n
  {
    if w >= 0 {
      assert w == n * (w / n) + w % n;
    } else {
      assert -w == n * ((-w) / n) + (-w) % n;
      assert n * (-((-w) / n)) == -(n * ((-w) / n));
    }
  }

  lemma {:induction false} PostBalanced(l: Ledger, e: Event)
    requires Balanced(l)
    ensures Balanced(Post(l, e))
  {
    if e.Executed? && OnExecution(l.pos, e.side, e.price, e.qty).Some? {
      if SameDirection(l.pos, e.side) {
        AveragingLosesRemainder(l.pos, e.side, e.price, e.qty);
      } else {
        ClosingIsExact(l.pos, e.side, e.price, e.qty);
      }
    }
  }

  /** Realized profit is the cash flow plus the position at its average price plus the drift, the
      average stays within the prices that made the position, and is the invalid marker exactly
      when flat. */
  lemma {:induction false} RunBalanced(es: seq<Event>)
    ensures Balanced(Run(OPENING, es))
    decreases |es|
  {
    if es != [] {
      RunBalanced(es[..|es| - 1]);
      PostBalanced(Run(OPENING, es[..|es| - 1]), es[|es| - 1]);
    }
  }

  /** The price of the last mark that was taken, or the invalid marker. */
  function LastMark(es: seq<Event>): Price {
    if es == [] then PRICE_INVALID
    else
      var before, e := es[..|es| - 1], es[|es| - 1];
      if e.Marked? && Markable(Run(OPENING, before).pos, e.price) then e.price else LastMark(before)
  }

  lemma {:induction false} MarkIsLast(es: seq<Event>)
    ensures Run(OPENING, es).pos.mark == LastMark(es)
    decreases |es|
  {
    if es != [] {
      var before, e := es[..|es| - 1], es[|es| - 1];
      MarkIsLast(before);
      match e
      case Marked(price) => MarkIsRecorded(Run(OPENING, before).pos, price);
      case Executed(side, price, qty) => FillKeepsMark(Run(OPENING, before).pos, side, price, qty);
    }
  }

  /** Marked to market, realized plus unrealized profit no longer depends on the average price: it is the
      cash flow plus the holding at the last price it was marked with, plus the drift.  Without a mark the
      unrealized profit is zero. */
  lemma {:induction false} Equity(es: seq<Event>)
    ensures var l := Run(OPENING, es);
      && (LastMark(es) != PRICE_INVALID || l.shares == 0 ==>
            l.pos.realized + l.pos.unrealized == l.cash + l.shares * LastMark(es) + l.drift)
      && (LastMark(es) == PRICE_INVALID ==> l.pos.unrealized == 0)
  {
    RunBalanced(es);
    MarkIsLast(es);
    var l := Run(OPENING, es);
    if l.pos.mark != PRICE_INVALID || l.pos.net == 0 {
      BalancedEquity(l);
    }
  }

  lemma {:induction false} BalancedEquity(l: Ledger)
    requires Balanced(l) && (l.pos.mark != PRICE_INVALID || l.pos.net == 0)
    ensures l.pos.realized + l.pos.unrealized == l.cash + l.pos.net * l.pos.mark + l.drift
  {
    assert l.pos.net * (l.pos.mark - l.pos.avg) == l.pos.net * l.pos.mark - l.pos.net * l.pos.avg;
  }

  predicate AveragesOn(l: Ledger, e: Event) {
    e.Executed? && e.qty > 0 && SameDirection(l.pos, e.side)
  }

  /** How many of the fills averaged. */
  function Averagings(l: Ledger, es: seq<Event>): nat {
    if es == [] then 0
    else Averagings(l, es[..|es| - 1]) + (if AveragesOn(Run(l, es[..|es| - 1]), es[|es| - 1]) then 1 else 0)
  }

  lemma {:induction false} DriftStep(l: Ledger, e: Event, biggest: nat)
    requires Abs(Post(l, e).pos.net) <= biggest
    ensures Abs(Post(l, e).drift) <= Abs(l.drift) + (if AveragesOn(l, e) then biggest else 0)
  {
    if AveragesOn(l, e) {
      AveragingLosesRemainder(l.pos, e.side, e.price, e.qty);
    }
  }

  /** No position reached along the way is larger. */
  ghost predicate NetWithin(es: seq<Event>, biggest: nat) {
    Abs(Run(OPENING, es).pos.net) <= biggest && (es == [] || NetWithin(es[..|es| - 1], biggest))
  }

  /** The drift stays below the number of averaging fills times the largest position. */
  lemma {:induction false} DriftBound(es: seq<Event>, biggest: nat)
    requires NetWithin(es, biggest)
    ensures Abs(Run(OPENING, es).drift) <= Averagings(OPENING, es) * biggest
    decreases |es|
  {
    if es != [] {
      var init, e := es[..|es| - 1], es[|es| - 1];
      DriftBound(init, biggest);
      DriftStep(Run(OPENING, init), e, biggest);
      Distribute(Averagings(OPENING, init), if AveragesOn(Run(OPENING, init), e) then 1 else 0, biggest);
    }
  }

  lemma {:induction false} Distribute(a: int, b: int, n: int)
    ensures (a + b) * n == a * n + b * n
  {
  }
}
