/**
 The incremental receive loop: frames of an 8-byte sequence number and an ITCH message, registration
 tokens echoed among them, truncated frames and garbage (src/market_data/market_data_consumer.cpp).
 Field offsets are those of the Nasdaq TotalView-ITCH 5.0 messages.
 */
module ItchFramer {
  import opened Types
  import opened FeedBook
  import opened Wire
  import opened Framing
  import opened ItchTable

  const MAGIC: seq<Byte> := [0x4E, 0x45, 0x58, 0x53, 0x55, 0x42]

  const SEQ_SIZE := 8

  const SYSTEM_EVENT: Byte := 'S' as int
  const ADD_ORDER: Byte := 'A' as int
  const ADD_ORDER_MPID: Byte := 'F' as int
  const ORDER_EXECUTED: Byte := 'E' as int
  const ORDER_CANCEL: Byte := 'X' as int
  const ORDER_DELETE: Byte := 'D' as int
  const ORDER_REPLACE: Byte := 'U' as int
  const BUY_BYTE: Byte := 'B' as int
  const SELL_BYTE: Byte := 'S' as int

  /** Zero for an unknown type. */
  function PayloadSize(kind: Byte): nat {
    if kind == SYSTEM_EVENT then 12
    else if kind == ADD_ORDER then 36
    else if kind == ADD_ORDER_MPID then 40
    else if kind == ORDER_EXECUTED then 31
    else if kind == ORDER_CANCEL then 23
    else if kind == ORDER_DELETE then 19
    else if kind == ORDER_REPLACE then 35
    else 0
  }

  ghost predicate IsPayload(p: seq<Byte>) {
    |p| > 0 && |p| == PayloadSize(p[0])
  }

  function ReadMessage(p: seq<Byte>): Message
    requires IsPayload(p)
  {
    if p[0] == SYSTEM_EVENT then SystemEvent
    else if p[0] == ADD_ORDER || p[0] == ADD_ORDER_MPID then
      AddOrder(p[0] == ADD_ORDER_MPID, U16(p, 1), U64(p, 11), if p[19] == BUY_BYTE then BUY else SELL,
               U32(p, 20), AsPrice(U32(p, 32)))
    else if p[0] == ORDER_EXECUTED then OrderExecuted(U16(p, 1), U64(p, 11), U32(p, 19), U64(p, 23))
    else if p[0] == ORDER_CANCEL then OrderCancel(U16(p, 1), U64(p, 11), U32(p, 19))
    else if p[0] == ORDER_DELETE then OrderDelete(U16(p, 1), U64(p, 11))
    else OrderReplace(U16(p, 1), U64(p, 11), U64(p, 19), U32(p, 27), AsPrice(U32(p, 31)))
  }

  /** decode: truncated, unparseable at this offset, or an update and the new table. */
  function Attempt(table: Table, a: seq<Byte>): Action<Table, MarketUpdate> {
    if |a| < SEQ_SIZE + 1 then Wait
    else
      var size := PayloadSize(a[SEQ_SIZE]);
      if size == 0 then Skip(1)
      else if |a| < SEQ_SIZE + size then Wait
      else
        match Decode(table, U64(a, 0), ReadMessage(a[SEQ_SIZE..SEQ_SIZE + size]))
        case None => Skip(1)
        case Some(d) => Emit(SEQ_SIZE + size, d.update, d.table)
  }

  /** What the receive loop does with the bytes from its current offset on. */
  function Act(table: Table, a: seq<Byte>): Action<Table, MarketUpdate> {
    if |a| < SEQ_SIZE + 1 then Wait
    else if a[..|MAGIC|] == MAGIC then Skip(|MAGIC|)
    else Attempt(table, a)
  }

  lemma {:induction false} ActProgresses()
    ensures Progresses(Act)
  {
  }

  lemma {:induction false} ActOnPrefix(table: Table, a: seq<Byte>, b: seq<Byte>)
    requires !Act(table, a).Wait?
    ensures Act(table, a + b) == Act(table, a)
  {
    var c := a + b;
    assert c[..|MAGIC|] == a[..|MAGIC|];
    assert c[SEQ_SIZE] == a[SEQ_SIZE];
    var end := SEQ_SIZE + PayloadSize(a[SEQ_SIZE]);
    if end <= |a| {
      assert c[SEQ_SIZE..end] == a[SEQ_SIZE..end];
      assert c[0..8] == a[0..8];
    }
  }

  lemma {:induction false} ActStable()
    ensures Stable(Act)
  {
    forall table, a, b | !Act(table, a).Wait?
      ensures Act(table, a + b) == Act(table, a)
    {
      ActOnPrefix(table, a, b);
    }
  }

  /**
   However a byte stream is cut into deliveries, the updates, the decoder table and the bytes left in
   the buffer are those of one delivery of the whole stream.
   */
  lemma {:induction false} ItchChunkIndependence(table: Table, chunks: seq<seq<Byte>>)
    ensures Progresses(Act)
    ensures ParseChunks(Act, table, [], chunks) == Parse(Act, table, Concat(chunks))
  {
    ActProgresses();
    ActStable();
    ChunkIndependence(Act, table, [], chunks);
    assert [] + Concat(chunks) == Concat(chunks);
  }

  // ---------------------------------------------------------------------------
  // The decoder and the book along a stream

  /** Every update is clean for the table and the book that it meets. */
  ghost predicate CleanThroughout(t: TickerId, v: View, table: Table, a: seq<Byte>)
    requires Progresses(Act)
    decreases |a|
  {
    match Act(table, a)
    case Wait => true
    case Skip(n) => CleanThroughout(t, v, table, a[n..])
    case Emit(n, u, next) => Clean(table, t, v.orders, u) && CleanThroughout(t, Apply(t, v, u), next, a[n..])
  }

  /** Decoder table and book hold the same orders after every update of the stream. */
  ghost predicate AgreeThroughout(t: TickerId, v: View, table: Table, a: seq<Byte>)
    requires Progresses(Act)
    decreases |a|
  {
    match Act(table, a)
    case Wait => true
    case Skip(n) => AgreeThroughout(t, v, table, a[n..])
    case Emit(n, u, next) => Live(next, t) == Apply(t, v, u).orders && AgreeThroughout(t, Apply(t, v, u), next, a[n..])
  }

  /**
   On any byte stream: the decoder's live entries equal the plain map of a book fed by the decoded
   updates, after each of them, exactly when every update was clean for the table and the book it met.
   */
  lemma {:induction false} DecoderBookIff(t: TickerId, v: View, table: Table, a: seq<Byte>)
    requires Progresses(Act)
    requires TableOk(table) && Live(table, t) == v.orders
    ensures AgreeThroughout(t, v, table, a) <==> CleanThroughout(t, v, table, a)
    decreases |a|
  {
    match Act(table, a)
    case Wait =>
    case Skip(n) => DecoderBookIff(t, v, table, a[n..]);
    case Emit(n, u, next) =>
      AgreementIff(table, U64(a, 0), ReadMessage(a[SEQ_SIZE..n]), t, v);
      if Clean(table, t, v.orders, u) {
        DecoderBookIff(t, Apply(t, v, u), next, a[n..]);
      }
  }

  /** So a clean stream leaves the decoder holding the book of everything it emitted. */
  lemma {:induction false} CleanStreamAgrees(t: TickerId, v: View, table: Table, a: seq<Byte>)
    requires Progresses(Act)
    requires TableOk(table) && Live(table, t) == v.orders
    requires CleanThroughout(t, v, table, a)
    ensures Live(Parse(Act, table, a).state, t) == Fold(t, v, Parse(Act, table, a).outs).orders
    decreases |a|
  {
    match Act(table, a)
    case Wait =>
    case Skip(n) => CleanStreamAgrees(t, v, table, a[n..]);
    case Emit(n, u, next) =>
      AgreementIff(table, U64(a, 0), ReadMessage(a[SEQ_SIZE..n]), t, v);
      var outs := Parse(Act, next, a[n..]).outs;
      CleanStreamAgrees(t, Apply(t, v, u), next, a[n..]);
      FoldAppend(t, v, [u], outs);
      assert [u][..0] == [];
  }
}
