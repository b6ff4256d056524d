/**
 Positions and profit-and-loss (src/trading/pnl_tracker.h).  Prices are 32-bit, money is checked
 to fit 64 bits where the tracker checks it, and averages are truncated toward zero.
 */
module Pnl {
  import opened Types

  const INT64_MIN := -0x8000_0000_0000_0000
  const INT64_MAX := 0x7FFF_FFFF_FFFF_FFFF

  predicate FitsInt64(x: int) {
    INT64_MIN <= x <= INT64_MAX
  }

  datatype Position = Position(net: int, realized: int, unrealized: int, avg: Price, mark: Price)

  const FLAT := Position(0, 0, 0, PRICE_INVALID, PRICE_INVALID)

  function Abs(x: int): nat {
    if x < 0 then -x else x
  }

  function Signed(side: Side, qty: int): int {
    if side.BUY? then qty else -qty
  }

  /** Integer division of the source language: truncation toward zero. */
  function TruncDiv(a: int, b: int): int
    requires b > 0
  {
    if a >= 0 then a / b else -((-a) / b)
  }

  /** Either the unrealized result fits and is recorded, or the update is refused. */
  function Revalue(p: Position): Option<Position> {
    if p.net == 0 || p.mark == PRICE_INVALID then Some(p.(unrealized := 0))
    else
      var unrealized := p.net * (p.mark - p.avg);
      if FitsInt64(unrealized) then Some(p.(unrealized := unrealized)) else None
  }

  predicate SameDirection(p: Position, side: Side) {
    p.net != 0 && (p.net > 0 <==> side.BUY?)
  }

  /** The position after a fill, before revaluation. */
  function Fill(p: Position, side: Side, price: Price, qty: Quantity): Option<Position>
    requires qty > 0
  {
    var signed := Signed(side, qty);
    if p.net == 0 then Some(p.(net := signed, avg := price))
    else if SameDirection(p, side) then
      var held := Abs(p.net);
      MeanBetween(p.avg, held, price, qty);
      Some(p.(net := p.net + signed, avg := TruncDiv(p.avg * held + price * qty, held + qty)))
    else
      var open := Abs(p.net);
      var closing := if open < qty then open else qty;
      var perUnit := if p.net > 0 then price - p.avg else p.avg - price;
      var realized := p.realized + perUnit * closing;
      if !FitsInt64(realized) then None
      else if qty > open then Some(p.(realized := realized, net := Signed(side, qty - open), avg := price))
      else Some(p.(realized := realized, net := p.net + signed,
                   avg := if p.net + signed == 0 then PRICE_INVALID else p.avg))
  }

  function OnExecution(p: Position, side: Side, price: Price, qty: Quantity): Option<Position> {
    if price == PRICE_INVALID || qty == 0 then None
    else
      var next := Fill(p, side, price, qty);
      if next.None? then None else Revalue(next.value)
  }

  /** The average price after a fill that leaves something held. */
  function EntryAfter(p: Position, side: Side, price: Price, qty: Quantity): int
    requires qty > 0
  {
    if SameDirection(p, side) then TruncDiv(p.avg * Abs(p.net) + price * qty, Abs(p.net) + qty)
    else if qty < Abs(p.net) then p.avg
    else price
  }

  /** A profit figure would not fit 64 bits: what the closed part realizes, or what the rest is worth at the mark. */
  predicate TooLarge(p: Position, side: Side, price: Price, qty: Quantity)
    requires qty > 0
  {
    var closed := if SameDirection(p, side) then 0 else if qty < Abs(p.net) then qty else Abs(p.net);
    var gain := if p.net > 0 then price - p.avg else p.avg - price;
    var held := p.net + Signed(side, qty);
    || (closed > 0 && !FitsInt64(p.realized + gain * closed))
    || (held != 0 && p.mark != PRICE_INVALID && !FitsInt64(held * (p.mark - EntryAfter(p, side, price, qty))))
  }

  /** An execution is refused exactly when it has no price or no quantity, or a profit figure does not fit. */
  lemma {:induction false} RefusedIff(p: Position, side: Side, price: Price, qty: Quantity)
    ensures OnExecution(p, side, price, qty).None? <==>
        price == PRICE_INVALID || qty == 0 || TooLarge(p, side, price, qty)
  {
    if qty > 0 {
      if SameDirection(p, side) {
        RefusedMore(p, side, price, qty);
      } else {
        RefusedLess(p, side, price, qty);
      }
    }
  }

  lemma {:induction false} RefusedMore(p: Position, side: Side, price: Price, qty: Quantity)
    requires qty > 0 && SameDirection(p, side)
    ensures Fill(p, side, price, qty).Some?
    ensures Revalue(Fill(p, side, price, qty).value).None? <==> TooLarge(p, side, price, qty)
  {
    MeanBetween(p.avg, Abs(p.net), price, qty);
  }

  lemma {:induction false} RefusedLess(p: Position, side: Side, price: Price, qty: Quantity)
    requires qty > 0 && !SameDirection(p, side)
    ensures (Fill(p, side, price, qty).None? || Revalue(Fill(p, side, price, qty).value).None?) <==>
        TooLarge(p, side, price, qty)
  {
  }

  function OnMark(p: Position, mark: Price): Option<Position> {
    if mark == PRICE_INVALID then None else Revalue(p.(mark := mark))
  }

  /** The mark would leave an open profit that fits 64 bits. */
  predicate Markable(p: Position, mark: Price) {
    mark != PRICE_INVALID && (p.net == 0 || FitsInt64(p.net * (mark - p.avg)))
  }

  /** A mark is taken exactly when there is a price and the profit at it fits.  It is then the position's
      mark, the open profit is the holding's gain over its average at that price, and nothing else moves. */
  lemma {:induction false} MarkIsRecorded(p: Position, mark: Price)
    ensures OnMark(p, mark).Some? <==> Markable(p, mark)
    ensures OnMark(p, mark).Some? ==>
      var q := OnMark(p, mark).value;
      && q.mark == mark && q.unrealized == p.net * mark - p.net * p.avg
      && q.net == p.net && q.avg == p.avg && q.realized == p.realized
  {
    assert p.net * (mark - p.avg) == p.net * mark - p.net * p.avg;
  }

  /** A fill does not touch the mark. */
  lemma {:induction false} FillKeepsMark(p: Position, side: Side, price: Price, qty: Quantity)
    ensures OnExecution(p, side, price, qty).Some? ==> OnExecution(p, side, price, qty).value.mark == p.mark
  {
  }

  // ---------------------------------------------------------------------------
  // Truncated averages

  lemma {:induction false} MulMonotone(a: int, b: int, n: int)
    requires n > 0
    ensures a <= b <==> a * n <= b * n
  {
  }

  /** Floor division by n > 0 is adjoint to multiplication. */
  lemma {:induction false} DivAdjoint(w: int, n: int, k: int)
    requires n > 0
    ensures k <= w / n <==> k * n <= w
  {
    var q := w / n;
    assert q * n <= w < q * n + n;
    assert (q + 1) * n == q * n + n;
    MulMonotone(k, q, n);
    MulMonotone(q + 1, k, n);
  }

  lemma {:induction false} TruncDivBetween(w: int, n: int, lo: int, hi: int)
    requires n > 0 && lo * n <= w <= hi * n
    ensures lo <= TruncDiv(w, n) <= hi
  {
    if w >= 0 {
      FloorBetween(w, n, lo, hi);
    } else {
      assert (-lo) * n == -(lo * n) && (-hi) * n == -(hi * n);
      FloorBetween(-w, n, -hi, -lo);
    }
  }

  lemma {:induction false} FloorBetween(w: int, n: int, lo: int, hi: int)
    requires n > 0 && lo * n <= w <= hi * n
    ensures lo <= w / n <= hi
  {
    DivAdjoint(w, n, lo);
    DivAdjoint(w, n, hi + 1);
    assert (hi + 1) * n == hi * n + n;
  }

  /** A truncated weighted mean lies between the two prices. */
  lemma {:induction false} MeanBetween(a: int, m: int, b: int, n: int)
    requires m > 0 && n > 0
    ensures var mean := TruncDiv(a * m + b * n, m + n);
      (if a < b then a else b) <= mean <= (if a < b then b else a)
  {
    var lo, hi := if a < b then a else b, if a < b then b else a;
    assert lo * (m + n) == lo * m + lo * n && hi * (m + n) == hi * m + hi * n;
    assert lo * m <= a * m <= hi * m && lo * n <= b * n <= hi * n;
    TruncDivBetween(a * m + b * n, m + n, lo, hi);
  }
}
