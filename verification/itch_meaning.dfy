/**
 What decoded updates say, in terms of the messages and of the orders that the decoder believes in; what
 that does to those orders; and what the receive loop makes of whole frames, registration tokens and
 garbage (src/market_data/itch_decoder.cpp:15-311, src/market_data/market_data_consumer.cpp:103-141).
 */
module ItchMeaning {
  import opened Types
  import opened FeedBook
  import opened Wire
  import opened Framing
  import opened ItchTable
  import opened ItchFramer
  import opened ItchWire

  // ---------------------------------------------------------------------------
  // One message

  predicate IsControl(locate: Locate) {
    locate == START_LOCATE || locate == CLEAR_LOCATE || locate == END_LOCATE
  }

  /** The message means something to the decoder: a new order, a snapshot marker, or a live order. */
  predicate Known(table: Table, m: Message) {
    match m
    case SystemEvent => false
    case AddOrder(_, _, _, _, _, _) => true
    case OrderDelete(locate, ref) => IsControl(locate) || ref in Live(table, locate)
    case _ => m.ref in Live(table, m.locate)
  }

  predicate SaysTerms(u: MarketUpdate, t: TickerId, side: Side, price: Price, qty: Quantity) {
    u.ticker == t && u.side == side && u.price == price && u.qty == qty
  }

  predicate SaysRefs(u: MarketUpdate, kind: UpdateType, ref: OrderId, newRef: OrderId) {
    u.kind == kind && u.orderRef == ref && u.newRef == newRef
  }

  /** What the update says of the message: the frame's number, kind and references as sent; an add its own
      terms; anything else the ticker, the side and, unless it is replaced, the price of the order that
      the decoder holds under the reference. */
  predicate Says(table: Table, seqNum: SeqNum, m: Message, u: MarketUpdate)
    requires Known(table, m)
  {
    && u.seqNum == seqNum
    && match m
       case SystemEvent => false
       case AddOrder(mpid, locate, ref, side, shares, price) =>
         SaysRefs(u, if mpid then ADD_MPID else ADD, ref, 0) && SaysTerms(u, locate, side, price, shares)
       case OrderExecuted(locate, ref, shares, matchNumber) =>
         var o := Live(table, locate)[ref];
         SaysRefs(u, EXECUTE, ref, matchNumber) && SaysTerms(u, locate, o.side, o.price, shares)
       case OrderCancel(locate, ref, shares) =>
         var o := Live(table, locate)[ref];
         SaysRefs(u, CANCEL, ref, 0) && SaysTerms(u, locate, o.side, o.price, shares)
       case OrderDelete(locate, ref) =>
         if locate == START_LOCATE then SaysRefs(u, SNAPSHOT_START, ref, 0) && u.ticker == TICKER_INVALID
         else if locate == CLEAR_LOCATE then SaysRefs(u, SNAPSHOT_CLEAR, ref, 0) && u.ticker == ref % TWO_32
         else if locate == END_LOCATE then SaysRefs(u, SNAPSHOT_END, ref, 0) && u.ticker == TICKER_INVALID
         else
           var o := Live(table, locate)[ref];
           SaysRefs(u, DELETE, ref, 0) && SaysTerms(u, locate, o.side, o.price, 0)
       case OrderReplace(locate, ref, newRef, shares, price) =>
         SaysRefs(u, REPLACE, ref, newRef) && SaysTerms(u, locate, Live(table, locate)[ref].side, price, shares)
  }

  lemma {:induction false} HeldOrder(table: Table, t: TickerId, ref: OrderId)
    requires TableOk(table)
    ensures Lookup(table, t, ref).Some? <==> ref in Live(table, t)
    ensures ref in Live(table, t) ==>
      var s, o := Lookup(table, t, ref).value, Live(table, t)[ref];
      s.ticker == t && s.side == o.side && s.price == o.price && s.qty == o.qty
  {
    LookupLive(table, t, ref);
  }

  /** A message is decoded exactly when it is known, and its update says what it should. */
  lemma {:induction false} DecodesIff(table: Table, seqNum: SeqNum, m: Message)
    requires TableOk(table)
    ensures Decode(table, seqNum, m).Some? <==> Known(table, m)
    ensures Known(table, m) ==> Says(table, seqNum, m, Decode(table, seqNum, m).value.update)
  {
    match m
    case SystemEvent =>
    case AddOrder(_, _, _, _, _, _) =>
    case OrderExecuted(locate, ref, _, _) => HeldOrder(table, locate, ref);
    case OrderCancel(locate, ref, _) => HeldOrder(table, locate, ref);
    case OrderDelete(locate, ref) => HeldOrder(table, locate, ref);
    case OrderReplace(locate, ref, _, _, _) => HeldOrder(table, locate, ref);
  }

  // ---------------------------------------------------------------------------
  // The orders it leaves

  /** An order entered under a reference, whatever was there; an empty one clears it. */
  function Entered(orders: Orders, ref: OrderId, side: Side, price: Price, qty: Quantity): Orders {
    if qty > 0 then orders[ref := Resting(side, price, qty)] else orders - {ref}
  }

  /** The orders of ticker `t` that the decoder believes in after the message.  A replace forgets the old
      order, unless the ticker's vector moved. */
  function LiveAfter(table: Table, m: Message, t: TickerId): Orders
    requires Known(table, m)
  {
    var orders := Live(table, t);
    match m
    case SystemEvent => orders
    case AddOrder(_, locate, ref, side, shares, price) =>
      if locate == t then Entered(orders, ref, side, price, shares) else orders
    case OrderExecuted(locate, ref, shares, _) => if locate == t then Reduce(orders, ref, shares) else orders
    case OrderCancel(locate, ref, shares) => if locate == t then Reduce(orders, ref, shares) else orders
    case OrderDelete(locate, ref) => if locate == t && !IsControl(locate) then orders - {ref} else orders
    case OrderReplace(locate, ref, newRef, shares, price) =>
      if locate != t then orders
      else
        var both := Entered(orders, newRef, orders[ref].side, price, shares);
        if Moves(VectorOf(table, t), newRef) then both else both - {ref}
  }

  lemma {:induction false} ReductionLeaves(
      table: Table, seqNum: SeqNum, kind: UpdateType, locate: Locate, ref: OrderId, shares: Quantity, newRef: OrderId,
      t: TickerId)
    requires TableOk(table) && ref in Live(table, locate)
    ensures DecodeReduction(table, seqNum, kind, locate, ref, shares, newRef).Some?
    ensures Live(DecodeReduction(table, seqNum, kind, locate, ref, shares, newRef).value.table, t) ==
      if locate == t then Reduce(Live(table, t), ref, shares) else Live(table, t)
  {
    HeldOrder(table, locate, ref);
    AssignLive(table, locate, ref, Reduced(Lookup(table, locate, ref).value, shares));
  }

  lemma {:induction false} ReplaceLeaves(table: Table, seqNum: SeqNum, m: Message, t: TickerId)
    requires TableOk(table) && m.OrderReplace? && Known(table, m)
    ensures Decode(table, seqNum, m).Some? && Live(Decode(table, seqNum, m).value.table, t) == LiveAfter(table, m, t)
  {
    HeldOrder(table, m.locate, m.ref);
    var s := Lookup(table, m.locate, m.ref).value;
    var n := OrderState(s.side, m.price, m.shares, s.ticker);
    AssignLive(table, m.locate, m.newRef, n);
    if !Moves(VectorOf(table, m.locate), m.newRef) {
      var written := Assign(table, m.locate, m.newRef, n);
      AssignLive(written, m.locate, m.ref, VectorOf(written, m.locate).states[m.ref].(qty := 0));
    }
  }

  /** After a decoded message the decoder believes in exactly those orders, of every ticker. */
  lemma {:induction false} DecodedLeaves(table: Table, seqNum: SeqNum, m: Message, t: TickerId)
    requires TableOk(table) && Known(table, m)
    ensures Decode(table, seqNum, m).Some? && Live(Decode(table, seqNum, m).value.table, t) == LiveAfter(table, m, t)
  {
    DecodesIff(table, seqNum, m);
    match m
    case SystemEvent =>
    case AddOrder(_, locate, ref, side, shares, price) =>
      AssignLive(table, locate, ref, OrderState(side, price, shares, locate));
    case OrderExecuted(locate, ref, shares, matchNumber) =>
      ReductionLeaves(table, seqNum, EXECUTE, locate, ref, shares, matchNumber, t);
    case OrderCancel(locate, ref, shares) => ReductionLeaves(table, seqNum, CANCEL, locate, ref, shares, 0, t);
    case OrderDelete(locate, ref) =>
      HeldOrder(table, locate, ref);
      if !IsControl(locate) {
        AssignLive(table, locate, ref, Lookup(table, locate, ref).value.(qty := 0));
      }
    case OrderReplace(_, _, _, _, _) => ReplaceLeaves(table, seqNum, m, t);
  }

  // ---------------------------------------------------------------------------
  // Whole streams

  /** The tables before the first frame and after each, and the update of each. */
  ghost predicate IsReading(tables: seq<Table>, fs: seq<Frame>, us: seq<MarketUpdate>) {
    |tables| == |fs| + 1 && |us| == |fs| && forall k :: ReadAt(tables, fs, us, k)
  }

  ghost predicate ReadAt(tables: seq<Table>, fs: seq<Frame>, us: seq<MarketUpdate>, k: nat)
    requires |tables| == |fs| + 1 && |us| == |fs|
  {
    k < |fs| ==> Reads(tables[k], fs[k], us[k], tables[k + 1])
  }

  /** The frame is known, the update says what it means, and the decoder then holds what it leaves. */
  ghost predicate Reads(table: Table, f: Frame, u: MarketUpdate, after: Table) {
    && Known(table, f.message) && Says(table, f.seqNum, f.message, u)
    && forall t :: Live(after, t) == LiveAfter(table, f.message, t)
  }

  lemma {:induction false} DecodeReads(table: Table, f: Frame)
    requires TableOk(table) && Decode(table, f.seqNum, f.message).Some?
    ensures var d := Decode(table, f.seqNum, f.message).value; Reads(table, f, d.update, d.table) && TableOk(d.table)
  {
    var d := Decode(table, f.seqNum, f.message).value;
    DecodesIff(table, f.seqNum, f.message);
    forall t ensures Live(d.table, t) == LiveAfter(table, f.message, t) {
      DecodedLeaves(table, f.seqNum, f.message, t);
    }
    DecodedOk(table, f.seqNum, f.message);
  }

  lemma {:induction false} ReadingCons(
      table: Table, tables: seq<Table>, f: Frame, fs: seq<Frame>, u: MarketUpdate, us: seq<MarketUpdate>)
    requires IsReading(tables, fs, us) && Reads(table, f, u, tables[0])
    ensures IsReading([table] + tables, [f] + fs, [u] + us)
  {
    forall k: nat ensures ReadAt([table] + tables, [f] + fs, [u] + us, k) {
      if k > 0 { assert ReadAt(tables, fs, us, k - 1); }
    }
  }

  lemma {:induction false} DecodeAllReads(table: Table, fs: seq<Frame>) returns (tables: seq<Table>)
    requires TableOk(table) && Decodable(table, fs)
    ensures var p := DecodeAll(table, fs);
      && IsReading(tables, fs, p.outs) && tables[0] == table && tables[|fs|] == p.state && p.rest == []
    decreases |fs|
  {
    if fs == [] {
      tables := [table];
      forall k: nat ensures ReadAt(tables, fs, [], k) {}
    } else {
      var f, d := fs[0], Decode(table, fs[0].seqNum, fs[0].message).value;
      DecodeReads(table, f);
      var rest := DecodeAllReads(d.table, fs[1..]);
      ReadingCons(table, rest, f, fs[1..], d.update, DecodeAll(d.table, fs[1..]).outs);
      tables := [table] + rest;
      assert [f] + fs[1..] == fs;
    }
  }

  /** A stream of frames that can be sent and are known when they arrive is read back with nothing skipped
      or left over: one update per frame, which says what the frame means to the decoder at that point. */
  lemma {:induction false} StreamMeans(table: Table, fs: seq<Frame>) returns (tables: seq<Table>)
    requires Progresses(Act) && TableOk(table) && Decodable(table, fs)
    ensures var p := Parse(Act, table, WriteFrames(fs));
      && IsReading(tables, fs, p.outs) && tables[0] == table && tables[|fs|] == p.state && p.rest == []
  {
    StreamRoundTrip(table, fs);
    tables := DecodeAllReads(table, fs);
  }

  lemma {:induction false} DecodedOk(table: Table, seqNum: SeqNum, m: Message)
    requires TableOk(table) && Decode(table, seqNum, m).Some?
    ensures TableOk(Decode(table, seqNum, m).value.table)
  {
    AgreementIff(table, seqNum, m, 0, View(Live(table, 0), false));
  }

  // ---------------------------------------------------------------------------
  // Tokens and garbage

  /** The numbers whose first six bytes are the registration token, "NEXSUB". */
  const TOKEN_NUMBER := 0x4E45_5853_5542

  lemma {:induction false} FirstSix(n: nat)
    ensures Bytes(n, 8)[..6] == Bytes(n / 0x1_0000, 6)
  {
    assert Bytes(n, 8) == Bytes(n / 256, 7) + [n % 256];
    assert Bytes(n / 256, 7) == Bytes(n / 256 / 256, 6) + [n / 256 % 256];
    assert n / 256 / 256 == n / 0x1_0000;
  }

  lemma {:induction false} TokenSpells()
    ensures Bytes(TOKEN_NUMBER, 6) == MAGIC
  {
    assert Bytes(0x4E, 1) == Bytes(0, 0) + [0x4E];
    assert Bytes(0x4E45, 2) == Bytes(0x4E, 1) + [0x45];
    assert Bytes(0x4E_4558, 3) == Bytes(0x4E45, 2) + [0x58];
    assert Bytes(0x4E45_5853, 4) == Bytes(0x4E_4558, 3) + [0x53];
    assert Bytes(0x4E_4558_5355, 5) == Bytes(0x4E45_5853, 4) + [0x55];
    assert Bytes(TOKEN_NUMBER, 6) == Bytes(0x4E_4558_5355, 5) + [0x42];
  }

  lemma {:induction false} SixBytes()
    ensures Pow256(6) == 0x1_0000_0000_0000
  {
    Pow256Of4();
    assert Pow256(6) == 256 * Pow256(5) && Pow256(5) == 256 * Pow256(4);
  }

  /** A frame can be sent exactly when its numbers fit and its sequence number is not one of the 65536 that
      start like the token. */
  lemma {:induction false} SendableIff(f: Frame)
    ensures Sendable(f) <==> f.seqNum < TWO_64 && Fits(f.message) && f.seqNum / 0x1_0000 != TOKEN_NUMBER
  {
    if f.seqNum < TWO_64 {
      FirstSix(f.seqNum);
      TokenSpells();
      SixBytes();
      NumberOfBytes(f.seqNum / 0x1_0000, 6);
      NumberOfBytes(TOKEN_NUMBER, 6);
    }
  }

  /** A frame whose numbers fit and whose message is known is taken exactly when its sequence number does not
      start like the token.  Otherwise its first six bytes are dropped as one. */
  lemma {:induction false} FrameTakenIff(table: Table, f: Frame, rest: seq<Byte>)
    requires TableOk(table) && f.seqNum < TWO_64 && Fits(f.message) && Known(table, f.message)
    ensures Act(table, WriteFrame(f) + rest).Emit? <==> f.seqNum / 0x1_0000 != TOKEN_NUMBER
    ensures f.seqNum / 0x1_0000 == TOKEN_NUMBER ==> Act(table, WriteFrame(f) + rest) == Skip(6)
  {
    SendableIff(f);
    DecodesIff(table, f.seqNum, f.message);
    if Sendable(f) {
      ActOnFrame(table, f, rest);
    } else {
      assert (WriteFrame(f) + rest)[..|MAGIC|] == Bytes(f.seqNum, SEQ_SIZE)[..|MAGIC|];
    }
  }

  /** A token is dropped whole, and what follows is read as if it had not been there. */
  lemma {:induction false} TokenDropped(table: Table, a: seq<Byte>)
    requires Progresses(Act) && |a| >= 3
    ensures Parse(Act, table, MAGIC + a) == Parse(Act, table, a)
  {
    assert (MAGIC + a)[..|MAGIC|] == MAGIC && (MAGIC + a)[|MAGIC|..] == a;
  }

  /** Bytes that hold a number and the start of a message, and do not start with the token. */
  predicate Holds(a: seq<Byte>) {
    |a| > SEQ_SIZE && a[..|MAGIC|] != MAGIC
  }

  /** The frame at the front is there in full. */
  predicate Complete(a: seq<Byte>) {
    Holds(a) && 0 < PayloadSize(a[SEQ_SIZE]) <= |a| - SEQ_SIZE
  }

  /** What the loop does at each offset: it waits for the rest of a truncated frame, skips one byte of
      anything that is not a frame or that the decoder does not know, and otherwise takes the frame. */
  lemma {:induction false} ActIff(table: Table, a: seq<Byte>)
    requires TableOk(table) && Holds(a)
    ensures Act(table, a).Wait? <==> PayloadSize(a[SEQ_SIZE]) > |a| - SEQ_SIZE
    ensures Act(table, a).Emit? <==>
      Complete(a) && Known(table, ReadMessage(a[SEQ_SIZE..SEQ_SIZE + PayloadSize(a[SEQ_SIZE])]))
    ensures Act(table, a).Skip? ==> Act(table, a).n == 1
    ensures Act(table, a).Emit? ==>
      var end := SEQ_SIZE + PayloadSize(a[SEQ_SIZE]);
      Act(table, a).n == end && Says(table, U64(a, 0), ReadMessage(a[SEQ_SIZE..end]), Act(table, a).out)
  {
    if Complete(a) {
      DecodesIff(table, U64(a, 0), ReadMessage(a[SEQ_SIZE..SEQ_SIZE + PayloadSize(a[SEQ_SIZE])]));
    }
  }

  /** So one byte in front of a stream that cannot start a frame costs nothing but itself. */
  lemma {:induction false} GarbageDropped(table: Table, a: seq<Byte>)
    requires Progresses(Act) && TableOk(table) && Holds(a) && PayloadSize(a[SEQ_SIZE]) == 0
    ensures Parse(Act, table, a) == Parse(Act, table, a[1..])
  {
    ActIff(table, a);
  }
}
