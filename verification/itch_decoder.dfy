/**
 The stateful ITCH decoder: Executed, Cancel, Delete and Replace messages name an order only by its
 reference, so the decoder keeps its own per-ticker table of orders to fill in side and price, and
 reduces quantities there independently of any book (src/market_data/itch_decoder.cpp).
 */
module ItchTable {
  import opened Types
  import opened FeedBook

  datatype OrderState = OrderState(side: Side, price: Price, qty: Quantity, ticker: TickerId)

  /** A std::vector: its elements, and how many it can hold before it moves them. */
  datatype Vector = Vector(states: seq<OrderState>, capacity: nat)

  /** order_ref_map_: per ticker, a vector indexed by order reference; quantity 0 means no order. */
  type Table = map<TickerId, Vector>

  const BLANK := OrderState(BUY, 0, 0, 0)

  type Locate = n: int | 0 <= n < 0x1_0000

  const START_LOCATE: Locate := 0xBBBB
  const CLEAR_LOCATE: Locate := 0xCCCC
  const END_LOCATE: Locate := 0xEEEE

  datatype Message =
    | SystemEvent
    | AddOrder(mpid: bool, locate: Locate, ref: OrderId, side: Side, shares: Quantity, price: Price)
    | OrderExecuted(locate: Locate, ref: OrderId, shares: Quantity, matchNumber: nat)
    | OrderCancel(locate: Locate, ref: OrderId, shares: Quantity)
    | OrderDelete(locate: Locate, ref: OrderId)
    | OrderReplace(locate: Locate, ref: OrderId, newRef: OrderId, shares: Quantity, price: Price)

  /** Growing to hold index `ref` takes a larger block of memory and moves the elements there. */
  predicate Moves(v: Vector, ref: OrderId) {
    |v.states| <= ref && v.capacity <= ref
  }

  /** vector::resize to a larger size: blank elements behind the old ones.  A vector that moves gets at
      least the room it needs; here, as is common, also at least twice its size. */
  function Resize(v: Vector, n: nat): (r: Vector)
    requires n > |v.states|
    ensures |r.states| == n
  {
    Vector(v.states + seq(n - |v.states|, _ => BLANK),
           if !Moves(v, n - 1) then v.capacity else if 2 * |v.states| > n then 2 * |v.states| else n)
  }

  /** Resizing when the reference lies beyond the end, then assignment. */
  function Put(v: Vector, ref: OrderId, s: OrderState): Vector {
    var w := if ref < |v.states| then v else Resize(v, ref + 1);
    w.(states := w.states[ref := s])
  }

  function VectorOf(table: Table, t: TickerId): Vector {
    if t in table then table[t] else Vector([], 0)
  }

  /** The order a message refers to, if its ticker and reference are known and it is not used up. */
  function Lookup(table: Table, t: TickerId, ref: OrderId): Option<OrderState> {
    var v := VectorOf(table, t).states;
    if ref < |v| && v[ref].qty > 0 then Some(v[ref]) else None
  }

  function Assign(table: Table, t: TickerId, ref: OrderId, s: OrderState): Table {
    table[t := Put(VectorOf(table, t), ref, s)]
  }

  function Reduced(s: OrderState, shares: Quantity): OrderState {
    if shares >= s.qty then s.(qty := 0) else s.(qty := s.qty - shares)
  }

  datatype Decoded = Decoded(update: MarketUpdate, table: Table)

  /** One decode* function per message; None means it returned false, leaving the table alone. */
  function Decode(table: Table, seqNum: SeqNum, m: Message): Option<Decoded> {
    match m
    case SystemEvent => None
    case AddOrder(mpid, locate, ref, side, shares, price) =>
      Some(Decoded(
        MarketUpdate(seqNum, locate, if mpid then ADD_MPID else ADD, side, price, shares, ref, 0),
        Assign(table, locate, ref, OrderState(side, price, shares, locate))))
    case OrderExecuted(locate, ref, shares, matchNumber) =>
      DecodeReduction(table, seqNum, EXECUTE, locate, ref, shares, matchNumber)
    case OrderCancel(locate, ref, shares) =>
      DecodeReduction(table, seqNum, CANCEL, locate, ref, shares, 0)
    case OrderDelete(locate, ref) =>
      if locate == START_LOCATE then Some(Decoded(Marker(seqNum, SNAPSHOT_START, TICKER_INVALID, ref), table))
      else if locate == CLEAR_LOCATE then Some(Decoded(Marker(seqNum, SNAPSHOT_CLEAR, ref % TWO_32, ref), table))
      else if locate == END_LOCATE then Some(Decoded(Marker(seqNum, SNAPSHOT_END, TICKER_INVALID, ref), table))
      else
        (match Lookup(table, locate, ref)
         case None => None
         case Some(s) =>
           Some(Decoded(
             MarketUpdate(seqNum, s.ticker, DELETE, s.side, s.price, 0, ref, 0),
             Assign(table, locate, ref, s.(qty := 0)))))
    case OrderReplace(locate, ref, newRef, shares, price) =>
      (match Lookup(table, locate, ref)
       case None => None
       case Some(s) =>
         Some(Decoded(
           MarketUpdate(seqNum, s.ticker, REPLACE, s.side, price, shares, ref, newRef),
           Replaced(table, locate, ref, newRef, OrderState(s.side, price, shares, s.ticker)))))
  }

  /** The new entry is written, then the old one is cleared through a reference taken before the vector
      was resized.  When the vector moved, that write goes to memory given back, and the entry stays. */
  function Replaced(table: Table, t: TickerId, ref: OrderId, newRef: OrderId, s: OrderState): Table
    requires ref < |VectorOf(table, t).states|
  {
    var written := Assign(table, t, newRef, s);
    if Moves(VectorOf(table, t), newRef) then written
    else Assign(written, t, ref, VectorOf(written, t).states[ref].(qty := 0))
  }

  function Marker(seqNum: SeqNum, kind: UpdateType, t: TickerId, ref: OrderId): MarketUpdate {
    MarketUpdate(seqNum, t, kind, BUY, 0, 0, ref, 0)
  }

  function DecodeReduction(
      table: Table, seqNum: SeqNum, kind: UpdateType, t: TickerId, ref: OrderId, shares: Quantity,
      newRef: OrderId): Option<Decoded>
  {
    match Lookup(table, t, ref)
    case None => None
    case Some(s) =>
      Some(Decoded(
        MarketUpdate(seqNum, s.ticker, kind, s.side, s.price, shares, ref, newRef),
        Assign(table, t, ref, Reduced(s, shares))))
  }

  // ---------------------------------------------------------------------------
  // The table as a plain map

  function LiveVector(v: seq<OrderState>): Orders {
    map ref: nat | ref < |v| && v[ref].qty > 0 :: Resting(v[ref].side, v[ref].price, v[ref].qty)
  }

  /** The orders of ticker `t` that the decoder believes in. */
  function Live(table: Table, t: TickerId): Orders {
    LiveVector(VectorOf(table, t).states)
  }

  /** Every live entry of a ticker's vector carries that ticker. */
  ghost predicate TableOk(table: Table) {
    forall t, ref :: Lookup(table, t, ref).Some? ==> Lookup(table, t, ref).value.ticker == t
  }

  function Written(orders: Orders, ref: OrderId, s: OrderState): Orders {
    if s.qty > 0 then orders[ref := Resting(s.side, s.price, s.qty)] else orders - {ref}
  }

  lemma {:induction false} AssignLive(table: Table, t: TickerId, ref: OrderId, s: OrderState)
    ensures Live(Assign(table, t, ref, s), t) == Written(Live(table, t), ref, s)
    ensures forall t' :: t' != t ==> Live(Assign(table, t, ref, s), t') == Live(table, t')
  {
    var v := VectorOf(table, t).states;
    var w := Put(VectorOf(table, t), ref, s).states;
    forall r: nat
      ensures r < |w| && w[r].qty > 0 <==> r in Written(LiveVector(v), ref, s)
      ensures r != ref && r < |w| && w[r].qty > 0 ==> r < |v| && w[r] == v[r]
    {
    }
  }

  lemma {:induction false} AssignOk(table: Table, t: TickerId, ref: OrderId, s: OrderState)
    requires TableOk(table) && (s.qty > 0 ==> s.ticker == t)
    ensures TableOk(Assign(table, t, ref, s))
  {
    forall t', r | Lookup(Assign(table, t, ref, s), t', r).Some?
      ensures Lookup(Assign(table, t, ref, s), t', r).value.ticker == t'
    {
      assert (t' == t && r == ref) || Lookup(table, t', r).Some?;
    }
  }

  lemma {:induction false} LookupLive(table: Table, t: TickerId, ref: OrderId)
    ensures Lookup(table, t, ref).Some? <==> ref in Live(table, t)
    ensures Lookup(table, t, ref).Some? ==>
      var o := Lookup(table, t, ref).value; Live(table, t)[ref] == Resting(o.side, o.price, o.qty)
  {
  }

  /**
   What a book holding `orders` must satisfy for the update to change table and book alike: a new
   order is new and not empty (or repeats a resting one exactly), a replacement takes a free
   reference, is not empty and does not make the decoder's vector move, and a snapshot marker finds
   nothing to clear.
   */
  predicate Clean(table: Table, t: TickerId, orders: Orders, u: MarketUpdate) {
    match u.kind
    case ADD | ADD_MPID =>
      u.ticker == t ==>
        if u.orderRef in orders then orders[u.orderRef] == Resting(u.side, u.price, u.qty) else u.qty > 0
    case REPLACE => u.ticker == t ==> u.newRef !in orders && u.qty > 0 && !Moves(VectorOf(table, t), u.newRef)
    case SNAPSHOT_START => orders == map[]
    case SNAPSHOT_CLEAR => u.ticker == t ==> orders == map[]
    case _ => true
  }

  /** A decoded update keeps decoder and book in agreement exactly when it is clean. */
  lemma {:induction false} AgreementIff(table: Table, seqNum: SeqNum, m: Message, t: TickerId, v: View)
    requires TableOk(table) && Decode(table, seqNum, m).Some?
    requires Live(table, t) == v.orders
    ensures var d := Decode(table, seqNum, m).value;
      TableOk(d.table) && (Live(d.table, t) == Apply(t, v, d.update).orders <==> Clean(table, t, v.orders, d.update))
  {
    match m
    case SystemEvent =>
    case AddOrder(mpid, locate, ref, side, shares, price) =>
      AddAgreement(table, seqNum, m, t, v);
    case OrderExecuted(locate, ref, shares, matchNumber) =>
      ReductionAgreement(table, seqNum, EXECUTE, locate, ref, shares, matchNumber, t, v);
    case OrderCancel(locate, ref, shares) =>
      ReductionAgreement(table, seqNum, CANCEL, locate, ref, shares, 0, t, v);
    case OrderDelete(locate, ref) =>
      DeleteAgreement(table, seqNum, m, t, v);
    case OrderReplace(locate, ref, newRef, shares, price) =>
      ReplaceAgreement(table, seqNum, m, t, v);
  }

  lemma {:induction false} AddAgreement(table: Table, seqNum: SeqNum, m: Message, t: TickerId, v: View)
    requires TableOk(table) && m.AddOrder? && Live(table, t) == v.orders
    ensures var d := Decode(table, seqNum, m).value;
      TableOk(d.table) && (Live(d.table, t) == Apply(t, v, d.update).orders <==> Clean(table, t, v.orders, d.update))
  {
    var s := OrderState(m.side, m.price, m.shares, m.locate);
    AssignLive(table, m.locate, m.ref, s);
    AssignOk(table, m.locate, m.ref, s);
    assert m.ref !in v.orders - {m.ref};
    assert v.orders[m.ref := Resting(m.side, m.price, m.shares)][m.ref].qty == m.shares;
  }

  lemma {:induction false} ReductionAgreement(
      table: Table, seqNum: SeqNum, kind: UpdateType, locate: TickerId, ref: OrderId, shares: Quantity, newRef: OrderId,
      t: TickerId, v: View)
    requires TableOk(table) && (kind == EXECUTE || kind == CANCEL) && Live(table, t) == v.orders
    requires DecodeReduction(table, seqNum, kind, locate, ref, shares, newRef).Some?
    ensures var d := DecodeReduction(table, seqNum, kind, locate, ref, shares, newRef).value;
      TableOk(d.table) && Live(d.table, t) == Apply(t, v, d.update).orders
  {
    var s := Lookup(table, locate, ref).value;
    LookupLive(table, locate, ref);
    AssignLive(table, locate, ref, Reduced(s, shares));
    AssignOk(table, locate, ref, Reduced(s, shares));
  }

  lemma {:induction false} DeleteAgreement(table: Table, seqNum: SeqNum, m: Message, t: TickerId, v: View)
    requires TableOk(table) && m.OrderDelete? && Decode(table, seqNum, m).Some?
    requires Live(table, t) == v.orders
    ensures var d := Decode(table, seqNum, m).value;
      TableOk(d.table) && (Live(d.table, t) == Apply(t, v, d.update).orders <==> Clean(table, t, v.orders, d.update))
  {
    if m.locate != START_LOCATE && m.locate != CLEAR_LOCATE && m.locate != END_LOCATE {
      var s := Lookup(table, m.locate, m.ref).value;
      LookupLive(table, m.locate, m.ref);
      AssignLive(table, m.locate, m.ref, s.(qty := 0));
      AssignOk(table, m.locate, m.ref, s.(qty := 0));
    }
  }

  lemma {:induction false} ReplaceAgreement(table: Table, seqNum: SeqNum, m: Message, t: TickerId, v: View)
    requires TableOk(table) && m.OrderReplace? && Decode(table, seqNum, m).Some?
    requires Live(table, t) == v.orders
    ensures var d := Decode(table, seqNum, m).value;
      TableOk(d.table) && (Live(d.table, t) == Apply(t, v, d.update).orders <==> Clean(table, t, v.orders, d.update))
  {
    var s := Lookup(table, m.locate, m.ref).value;
    LookupLive(table, m.locate, m.ref);
    var n := OrderState(s.side, m.price, m.shares, s.ticker);
    AssignLive(table, m.locate, m.newRef, n);
    AssignOk(table, m.locate, m.newRef, n);
    if Moves(VectorOf(table, m.locate), m.newRef) {
      assert m.ref in Written(Live(table, m.locate), m.newRef, n);
      assert m.ref !in ApplyOrder(Live(table, m.locate), Decode(table, seqNum, m).value.update);
    } else {
      var written := Assign(table, m.locate, m.newRef, n);
      var cleared := VectorOf(written, m.locate).states[m.ref].(qty := 0);
      AssignLive(written, m.locate, m.ref, cleared);
      AssignOk(written, m.locate, m.ref, cleared);
      var after := Written(Live(table, m.locate), m.newRef, n) - {m.ref};
      assert m.ref !in after;
      assert m.locate == t && m.newRef !in v.orders ==>
        (v.orders - {m.ref})[m.newRef := Resting(s.side, m.price, m.shares)][m.newRef].qty == m.shares;
    }
  }

  const FIRST := AddOrder(false, 7, 1, BUY, 10, 100)
  const AGAIN := AddOrder(false, 7, 1, BUY, 5, 101)
  const TEN: Orders := map[1 := Resting(BUY, 100, 10)]

  /** The decoder's table once the first of them is decoded. */
  const ADDED: Table := Assign(map[], 7, 1, OrderState(BUY, 100, 10, 7))

  lemma {:induction false} FirstAddAgrees()
    ensures Decode(map[], 1, FIRST).Some? && Decode(map[], 1, FIRST).value.table == ADDED
    ensures TableOk(ADDED) && Live(ADDED, 7) == TEN
  {
    var none: Table := map[];
    AssignLive(none, 7, 1, OrderState(BUY, 100, 10, 7));
    AssignOk(none, 7, 1, OrderState(BUY, 100, 10, 7));
    assert Live(none, 7) == map[];
  }

  /** The same reference entered twice: the decoder believes the second order, the book the first. */
  lemma {:induction false} RepeatedAddDiverges()
    ensures Live(ADDED, 7) == TEN && Decode(ADDED, 2, AGAIN).Some?
    ensures var d := Decode(ADDED, 2, AGAIN).value;
      Live(d.table, 7) != Apply(7, View(TEN, false), d.update).orders == TEN
  {
    FirstAddAgrees();
    AgreementIff(ADDED, 2, AGAIN, 7, View(TEN, false));
  }

  const RENAMED := OrderReplace(7, 1, 2, 5, 101)

  /** An order replaced under the next reference: the decoder's vector moves, the old entry is not
      cleared, and the decoder goes on believing in both orders. */
  lemma {:induction false} ReplaceKeepsOldEntry()
    ensures Decode(ADDED, 2, RENAMED).Some?
    ensures var d := Decode(ADDED, 2, RENAMED).value;
      && Live(d.table, 7) == map[1 := Resting(BUY, 100, 10), 2 := Resting(BUY, 101, 5)]
      && Apply(7, View(TEN, false), d.update).orders == map[2 := Resting(BUY, 101, 5)]
  {
    FirstAddAgrees();
    LookupLive(ADDED, 7, 1);
    AssignLive(ADDED, 7, 2, OrderState(BUY, 101, 5, 7));
  }
}
