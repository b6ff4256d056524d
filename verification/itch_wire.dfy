/** Writing ITCH frames, and the receive loop reading back exactly what was written. */
module ItchWire {
  import opened Types
  import opened Wire
  import opened Framing
  import opened ItchTable
  import opened ItchFramer

  /** Type, stock locate, tracking number and timestamp. */
  function Header(kind: Byte, locate: Locate): (p: seq<Byte>)
    ensures |p| == 11 && p[0] == kind
  {
    [kind] + Bytes(locate, 2) + Zeros(8)
  }

  predicate Fits(m: Message) {
    && (!m.SystemEvent? ==> m.ref < TWO_64)
    && (m.OrderExecuted? ==> m.matchNumber < TWO_64)
    && (m.OrderReplace? ==> m.newRef < TWO_64)
  }

  function SideByte(side: Side): Byte {
    if side == BUY then BUY_BYTE else SELL_BYTE
  }

  function WriteMessage(m: Message): (p: seq<Byte>)
    ensures IsPayload(p)
  {
    match m
    case SystemEvent => Header(SYSTEM_EVENT, 0) + [0]
    case AddOrder(mpid, locate, ref, side, shares, price) =>
      Header(if mpid then ADD_ORDER_MPID else ADD_ORDER, locate) + Bytes(ref, 8) + [SideByte(side)] + Bytes(shares, 4)
          + Zeros(8)
      + Bytes(PriceBits(price), 4) + Zeros(if mpid then 4 else 0)
    case OrderExecuted(locate, ref, shares, matchNumber) =>
      Header(ORDER_EXECUTED, locate) + Bytes(ref, 8) + Bytes(shares, 4) + Bytes(matchNumber, 8)
    case OrderCancel(locate, ref, shares) => Header(ORDER_CANCEL, locate) + Bytes(ref, 8) + Bytes(shares, 4)
    case OrderDelete(locate, ref) => Header(ORDER_DELETE, locate) + Bytes(ref, 8)
    case OrderReplace(locate, ref, newRef, shares, price) =>
      Header(ORDER_REPLACE, locate) + Bytes(ref, 8) + Bytes(newRef, 8) + Bytes(shares, 4) + Bytes(PriceBits(price), 4)
  }

  lemma {:induction false} ReadLocate(kind: Byte, locate: Locate, p: seq<Byte>)
    requires Header(kind, locate) <= p
    ensures U16(p, 1) == locate
  {
    assert p[1..3] == Bytes(locate, 2);
    Pow256Of2();
    NumberOfBytes(locate, 2);
  }

  lemma {:induction false} AddRoundTrip(m: Message)
    requires m.AddOrder? && Fits(m)
    ensures ReadMessage(WriteMessage(m)) == m
  {
    var p := WriteMessage(m);
    ReadLocate(p[0], m.locate, p);
    assert p[11..19] == Bytes(m.ref, 8);
    Read64(m.ref, p, 11);
    assert p[20..24] == Bytes(m.shares, 4);
    Read32(m.shares, p, 20);
    assert p[32..36] == Bytes(PriceBits(m.price), 4);
    Read32(PriceBits(m.price), p, 32);
  }

  lemma {:induction false} ExecutedRoundTrip(m: Message)
    requires m.OrderExecuted? && Fits(m)
    ensures ReadMessage(WriteMessage(m)) == m
  {
    var p := WriteMessage(m);
    ReadLocate(p[0], m.locate, p);
    assert p[11..19] == Bytes(m.ref, 8);
    Read64(m.ref, p, 11);
    assert p[19..23] == Bytes(m.shares, 4);
    Read32(m.shares, p, 19);
    assert p[23..31] == Bytes(m.matchNumber, 8);
    Read64(m.matchNumber, p, 23);
  }

  lemma {:induction false} CancelRoundTrip(m: Message)
    requires (m.OrderCancel? || m.OrderDelete?) && Fits(m)
    ensures ReadMessage(WriteMessage(m)) == m
  {
    var p := WriteMessage(m);
    ReadLocate(p[0], m.locate, p);
    Read64(m.ref, p, 11);
    if m.OrderCancel? {
      Read32(m.shares, p, 19);
    }
  }

  lemma {:induction false} ReplaceRoundTrip(m: Message)
    requires m.OrderReplace? && Fits(m)
    ensures ReadMessage(WriteMessage(m)) == m
  {
    var p := WriteMessage(m);
    ReadLocate(p[0], m.locate, p);
    assert p[11..19] == Bytes(m.ref, 8);
    Read64(m.ref, p, 11);
    assert p[19..27] == Bytes(m.newRef, 8);
    Read64(m.newRef, p, 19);
    assert p[27..31] == Bytes(m.shares, 4);
    Read32(m.shares, p, 27);
    assert p[31..35] == Bytes(PriceBits(m.price), 4);
    Read32(PriceBits(m.price), p, 31);
  }

  /** Every message whose numbers fit their fields is read back as written. */
  lemma {:induction false} MessageRoundTrip(m: Message)
    requires Fits(m)
    ensures ReadMessage(WriteMessage(m)) == m
  {
    match m
    case SystemEvent =>
    case AddOrder(_, _, _, _, _, _) => AddRoundTrip(m);
    case OrderExecuted(_, _, _, _) => ExecutedRoundTrip(m);
    case OrderCancel(_, _, _) => CancelRoundTrip(m);
    case OrderDelete(_, _) => CancelRoundTrip(m);
    case OrderReplace(_, _, _, _, _) => ReplaceRoundTrip(m);
  }

  datatype Frame = Frame(seqNum: SeqNum, message: Message)

  function WriteFrame(f: Frame): seq<Byte> {
    Bytes(f.seqNum, SEQ_SIZE) + WriteMessage(f.message)
  }

  function WriteFrames(fs: seq<Frame>): seq<Byte> {
    if fs == [] then [] else WriteFrame(fs[0]) + WriteFrames(fs[1..])
  }

  /** The frame's numbers fit, and its first six bytes are not the registration token. */
  predicate Sendable(f: Frame) {
    f.seqNum < TWO_64 && Fits(f.message) && Bytes(f.seqNum, SEQ_SIZE)[..|MAGIC|] != MAGIC
  }

  /** Every frame is sendable and refers to an order the decoder knows at that point. */
  predicate Decodable(table: Table, fs: seq<Frame>)
    decreases |fs|
  {
    fs == [] || (
      && Sendable(fs[0])
      && var d := Decode(table, fs[0].seqNum, fs[0].message);
      d.Some? && Decodable(d.value.table, fs[1..]))
  }

  /** What the frames mean, message by message. */
  function DecodeAll(table: Table, fs: seq<Frame>): Parsed<Table, MarketUpdate>
    requires Decodable(table, fs)
    decreases |fs|
  {
    if fs == [] then Parsed([], table, []) else
      var d := Decode(table, fs[0].seqNum, fs[0].message).value;
      var p := DecodeAll(d.table, fs[1..]);
      p.(outs := [d.update] + p.outs)
  }

  /** The loop, holding a whole frame and whatever follows it, emits that frame's update. */
  lemma {:induction false} ActOnFrame(table: Table, f: Frame, rest: seq<Byte>)
    requires Sendable(f) && Decode(table, f.seqNum, f.message).Some?
    ensures var d := Decode(table, f.seqNum, f.message).value;
      Act(table, WriteFrame(f) + rest) == Emit(|WriteFrame(f)|, d.update, d.table)
  {
    var w := WriteFrame(f);
    var p := WriteMessage(f.message);
    assert w[..|MAGIC|] == Bytes(f.seqNum, SEQ_SIZE)[..|MAGIC|];
    assert w[SEQ_SIZE] == p[0];
    assert w[SEQ_SIZE..SEQ_SIZE + |p|] == p;
    MessageRoundTrip(f.message);
    Read64(f.seqNum, w, 0);
    ActOnPrefix(table, w, rest);
  }

  /** A stream of decodable frames is read back update by update, with nothing skipped or left over. */
  lemma {:induction false} StreamRoundTrip(table: Table, fs: seq<Frame>)
    requires Progresses(Act)
    requires Decodable(table, fs)
    ensures Parse(Act, table, WriteFrames(fs)) == DecodeAll(table, fs)
    decreases |fs|
  {
    if fs != [] {
      var rest := WriteFrames(fs[1..]);
      var d := Decode(table, fs[0].seqNum, fs[0].message).value;
      ActOnFrame(table, fs[0], rest);
      assert (WriteFrame(fs[0]) + rest)[|WriteFrame(fs[0])|..] == rest;
      StreamRoundTrip(d.table, fs[1..]);
    }
  }
}
