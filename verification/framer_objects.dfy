/**
 The decoder object and the two receive callbacks: loops that walk an offset through the socket's
 buffer and then move what is left to its front.
 */
module FramerObjects {
  import opened Types
  import Desk = TradingDesk
  import opened Wire
  import opened Framing
  import opened ItchTable
  import Itch = ItchFramer
  import Ouch = OuchFramer

  /** A socket's receive buffer: the first `valid` bytes are waiting to be read. */
  class Socket {
    const inbound: array<Byte>
    var valid: nat

    constructor (capacity: nat)
      ensures Valid() && fresh(inbound) && inbound.Length == capacity && Held() == []
    {
      inbound := new Byte[capacity];
      valid := 0;
    }

    ghost predicate Valid()
      reads this
    {
      valid <= inbound.Length
    }

    function Held(): seq<Byte>
      requires Valid()
      reads this, inbound
    {
      inbound[..valid]
    }

    /** memmove of everything behind offset `n` to the front. */
    method Compact(n: nat)
      requires Valid() && n <= valid
      modifies this, inbound
      ensures Valid() && Held() == old(Held())[n..]
    {
      if n > 0 {
        forall k | 0 <= k < valid - n {
          inbound[k] := inbound[n + k];
        }
        valid := valid - n;
      }
    }
  }

  class ItchDecoder {
    var table: Table
    var lastSize: nat
    var needMore: bool

    constructor ()
      ensures table == map[]
    {
      table, lastSize, needMore := map[], 0, false;
    }

    method Reset()
      modifies this
      ensures table == map[]
    {
      table := map[];
    }

    method Store(t: TickerId, ref: OrderId, s: OrderState)
      modifies `table
      ensures table == Assign(old(table), t, ref, s)
    {
      var v := if t in table then table[t] else Vector([], 0);
      if |v.states| <= ref {
        v := Resize(v, ref + 1);
      }
      table := table[t := v.(states := v.states[ref := s])];
    }

    method DecodeReduce(seqNum: SeqNum, kind: UpdateType, t: TickerId, ref: OrderId, shares: Quantity, newRef: OrderId)
      returns (ok: bool, u: MarketUpdate)
      modifies `table
      ensures ok == DecodeReduction(old(table), seqNum, kind, t, ref, shares, newRef).Some?
      ensures ok ==> DecodeReduction(old(table), seqNum, kind, t, ref, shares, newRef).value == Decoded(u, table)
      ensures !ok ==> table == old(table)
    {
      u := MarketUpdate(seqNum, TICKER_INVALID, kind, BUY, 0, shares, ref, newRef);
      if t !in table || |table[t].states| <= ref || table[t].states[ref].qty == 0 {
        return false, u;
      }
      var s := table[t].states[ref];
      u := u.(side := s.side, price := s.price, ticker := s.ticker);
      if shares >= s.qty {
        Store(t, ref, s.(qty := 0));
      } else {
        Store(t, ref, s.(qty := s.qty - shares));
      }
      return true, u;
    }

    method DecodeDelete(seqNum: SeqNum, m: Message) returns (ok: bool, u: MarketUpdate)
      requires m.OrderDelete?
      modifies `table
      ensures ok == ItchTable.Decode(old(table), seqNum, m).Some?
      ensures ok ==> ItchTable.Decode(old(table), seqNum, m).value == Decoded(u, table)
      ensures !ok ==> table == old(table)
    {
      var t: TickerId, ref := m.locate, m.ref;
      if m.locate == START_LOCATE {
        return true, Marker(seqNum, SNAPSHOT_START, TICKER_INVALID, ref);
      } else if m.locate == CLEAR_LOCATE {
        return true, Marker(seqNum, SNAPSHOT_CLEAR, ref % TWO_32, ref);
      } else if m.locate == END_LOCATE {
        return true, Marker(seqNum, SNAPSHOT_END, TICKER_INVALID, ref);
      }
      u := MarketUpdate(seqNum, TICKER_INVALID, DELETE, BUY, 0, 0, ref, 0);
      if t !in table || |table[t].states| <= ref || table[t].states[ref].qty == 0 {
        return false, u;
      }
      var s := table[t].states[ref];
      u := u.(side := s.side, price := s.price, ticker := s.ticker);
      Store(t, ref, s.(qty := 0));
      return true, u;
    }

    method DecodeReplace(seqNum: SeqNum, m: Message) returns (ok: bool, u: MarketUpdate)
      requires m.OrderReplace?
      modifies `table
      ensures ok == ItchTable.Decode(old(table), seqNum, m).Some?
      ensures ok ==> ItchTable.Decode(old(table), seqNum, m).value == Decoded(u, table)
      ensures !ok ==> table == old(table)
    {
      var t: TickerId, ref := m.locate, m.ref;
      u := MarketUpdate(seqNum, TICKER_INVALID, REPLACE, BUY, m.price, m.shares, ref, m.newRef);
      if t !in table || |table[t].states| <= ref || table[t].states[ref].qty == 0 {
        return false, u;
      }
      var s := table[t].states[ref];
      u := u.(side := s.side, ticker := s.ticker);
      var moved := Moves(table[t], m.newRef);
      Store(t, m.newRef, OrderState(s.side, m.price, m.shares, s.ticker));
      if !moved {
        Store(t, ref, table[t].states[ref].(qty := 0));
      }
      return true, u;
    }

    method DecodeMessage(seqNum: SeqNum, m: Message) returns (ok: bool, u: MarketUpdate)
      modifies `table
      ensures ok == ItchTable.Decode(old(table), seqNum, m).Some?
      ensures ok ==> ItchTable.Decode(old(table), seqNum, m).value == Decoded(u, table)
      ensures !ok ==> table == old(table)
    {
      match m
      case SystemEvent =>
        return false, Marker(seqNum, ADD, TICKER_INVALID, 0);
      case AddOrder(mpid, locate, ref, side, shares, price) =>
        u := MarketUpdate(seqNum, locate, if mpid then ADD_MPID else ADD, side, price, shares, ref, 0);
        Store(locate, ref, OrderState(side, price, shares, locate));
        return true, u;
      case OrderExecuted(locate, ref, shares, matchNumber) =>
        ok, u := DecodeReduce(seqNum, EXECUTE, locate, ref, shares, matchNumber);
      case OrderCancel(locate, ref, shares) =>
        ok, u := DecodeReduce(seqNum, CANCEL, locate, ref, shares, 0);
      case OrderDelete(_, _) =>
        ok, u := DecodeDelete(seqNum, m);
      case OrderReplace(_, _, _, _, _) =>
        ok, u := DecodeReplace(seqNum, m);
    }

    /** decode: an update, or a reason to wait, or a reason to resynchronise. */
    method Decode(wire: seq<Byte>) returns (ok: bool, u: MarketUpdate)
      modifies this
      ensures ok == Itch.Attempt(old(table), wire).Emit?
      ensures ok ==> Itch.Attempt(old(table), wire) == Emit(Itch.SEQ_SIZE + lastSize, u, table)
      ensures !ok ==> table == old(table) && needMore == Itch.Attempt(old(table), wire).Wait?
    {
      lastSize, needMore, u := 0, false, Marker(0, ADD, TICKER_INVALID, 0);
      if |wire| < Itch.SEQ_SIZE + 1 {
        needMore := true;
        return false, u;
      }
      var size := Itch.PayloadSize(wire[Itch.SEQ_SIZE]);
      if size == 0 {
        return false, u;
      }
      if |wire| < Itch.SEQ_SIZE + size {
        needMore := true;
        return false, u;
      }
      lastSize := size;
      ok, u := DecodeMessage(U64(wire, 0), Itch.ReadMessage(wire[Itch.SEQ_SIZE..Itch.SEQ_SIZE + size]));
    }
  }

  /** A loop at offset `i`, in state `s` and with `outs` emitted, will end in `whole`. */
  ghost predicate Reaches<S(!new), O(!new)>(
      f: Framer<S, O>, s: S, a: seq<Byte>, i: nat, outs: seq<O>, whole: Parsed<S, O>)
    requires Progresses(f) && i <= |a|
    decreases |a| - i
  {
    match f(s, a[i..])
    case Wait => whole == Parsed(outs, s, a[i..])
    case Skip(n) => Reaches(f, s, a, i + n, outs, whole)
    case Emit(n, out, next) => Reaches(f, next, a, i + n, outs + [out], whole)
  }

  /** Such a loop, begun at the front, computes Parse. */
  lemma {:induction false} ReachesParse<S(!new), O(!new)>(f: Framer<S, O>, s: S, a: seq<Byte>, i: nat, outs: seq<O>)
    requires Progresses(f) && i <= |a|
    ensures Reaches(f, s, a, i, outs, Before(outs, Parse(f, s, a[i..])))
    decreases |a| - i
  {
    var d := f(s, a[i..]);
    if !d.Wait? {
      var n := d.Consumed();
      assert a[i..][n..] == a[i + n..];
      if d.Skip? {
        ReachesParse(f, s, a, i + n, outs);
      } else {
        ReachesParse(f, d.next, a, i + n, outs + [d.out]);
        var q := Parse(f, d.next, a[i + n..]);
        assert outs + ([d.out] + q.outs) == (outs + [d.out]) + q.outs;
      }
    }
  }

  /** What the loop does at one offset: pass over `n` bytes, none when it must wait, with or without an update. */
  method ItchRead(data: seq<Byte>, decoder: ItchDecoder) returns (n: nat, update: Option<MarketUpdate>)
    modifies decoder
    ensures match Itch.Act(old(decoder.table), data)
      case Wait => n == 0 && update == None && decoder.table == old(decoder.table)
      case Skip(k) => n == k && update == None && decoder.table == old(decoder.table)
      case Emit(k, u, next) => n == k && update == Some(u) && decoder.table == next
  {
    if |data| < Itch.SEQ_SIZE + 1 {
      return 0, None;
    }
    if data[..|Itch.MAGIC|] == Itch.MAGIC {
      return |Itch.MAGIC|, None;
    }
    var ok, u := decoder.Decode(data);
    if ok {
      return Itch.SEQ_SIZE + decoder.lastSize, Some(u);
    } else if decoder.needMore {
      return 0, None;
    } else {
      return 1, None;
    }
  }

  /** The receive loop at offset `i`, with this table and `outs` emitted, will end in `whole`. */
  ghost predicate ItchReaches(
      table: Table, a: seq<Byte>, i: nat, outs: seq<MarketUpdate>, whole: Parsed<Table, MarketUpdate>)
  {
    Progresses(Itch.Act) && i <= |a| && Reaches(Itch.Act, table, a, i, outs, whole)
  }

  /** One turn of the loop, and its end. */
  lemma {:induction false} ItchTurn(
      table: Table, a: seq<Byte>, i: nat, outs: seq<MarketUpdate>, whole: Parsed<Table, MarketUpdate>)
    requires ItchReaches(table, a, i, outs, whole)
    ensures match Itch.Act(table, a[i..])
      case Wait => whole == Parsed(outs, table, a[i..])
      case Skip(n) => n > 0 && ItchReaches(table, a, i + n, outs, whole)
      case Emit(n, u, next) => n > 0 && ItchReaches(next, a, i + n, outs + [u], whole)
  {
  }

  /** The loop over the waiting bytes; `outs` are the updates it hands to processIncremental. */
  method ItchScan(a: seq<Byte>, decoder: ItchDecoder, ghost whole: Parsed<Table, MarketUpdate>)
    returns (outs: seq<MarketUpdate>, i: nat)
    requires ItchReaches(decoder.table, a, 0, [], whole)
    modifies decoder
    ensures i <= |a| && whole == Parsed(outs, decoder.table, a[i..])
  {
    outs, i := [], 0;
    while i + Itch.SEQ_SIZE + 1 <= |a|
      invariant ItchReaches(decoder.table, a, i, outs, whole)
      decreases |a| - i
    {
      ItchTurn(decoder.table, a, i, outs, whole);
      var n, update := ItchRead(a[i..], decoder);
      if n == 0 {
        return;
      }
      if update.Some? {
        outs := outs + [update.value];
      }
      i := i + n;
    }
    ItchTurn(decoder.table, a, i, outs, whole);
  }

  /** The incremental feed's callback. */
  method ItchReceive(socket: Socket, decoder: ItchDecoder) returns (outs: seq<MarketUpdate>)
    requires socket.Valid()
    modifies socket, socket.inbound, decoder
    ensures socket.Valid() && Progresses(Itch.Act)
    ensures Parsed(outs, decoder.table, socket.Held()) == Parse(Itch.Act, old(decoder.table), old(socket.Held()))
  {
    Itch.ActProgresses();
    ghost var whole := Parse(Itch.Act, decoder.table, socket.Held());
    assert socket.Held()[0..] == socket.Held() && whole == Before([], whole);
    ReachesParse(Itch.Act, decoder.table, socket.Held(), 0, []);
    var i;
    outs, i := ItchScan(socket.Held(), decoder, whole);
    socket.Compact(i);
  }

  /** The response queue between the gateway and the engine. */
  class ResponseQueue {
    var waiting: seq<Desk.OrderResponse>
    const capacity: nat

    constructor (capacity: nat)
      ensures this.capacity == capacity && waiting == []
    {
      this.capacity, waiting := capacity, [];
    }

    method Push(r: Desk.OrderResponse) returns (ok: bool)
      modifies this
      ensures ok == (|old(waiting)| < capacity)
      ensures waiting == if ok then old(waiting) + [r] else old(waiting)
    {
      ok := |waiting| < capacity;
      if ok {
        waiting := waiting + [r];
      }
    }
  }

  /** As much of `rs` as still fits behind `queue`. */
  function Queued(queue: seq<Desk.OrderResponse>, capacity: nat, rs: seq<Desk.OrderResponse>): seq<Desk.OrderResponse> {
    if |queue| + |rs| <= capacity then queue + rs
    else if |queue| >= capacity then queue
    else queue + rs[..capacity - |queue|]
  }

  lemma {:induction false} QueuedPush(
      queue: seq<Desk.OrderResponse>, capacity: nat, rs: seq<Desk.OrderResponse>, r: Desk.OrderResponse)
    ensures var q := Queued(queue, capacity, rs);
      Queued(queue, capacity, rs + [r]) == if |q| < capacity then q + [r] else q
  {
    if |queue| + |rs| >= capacity > |queue| {
      assert (rs + [r])[..capacity - |queue|] == rs[..capacity - |queue|];
      assert rs[..|rs|] == rs;
    }
  }

  /** What there is at `offset`: how many bytes to pass over, if any, and the response they hold. */
  ghost predicate Reads(data: seq<Byte>, offset: nat, size: nat, r: Option<Desk.OrderResponse>)
    requires offset < |data|
  {
    match Ouch.Act(Ouch.Nothing, data[offset..])
    case Wait => size == 0 && r == None
    case Skip(n) => size == n && r == None
    case Emit(n, out, _) => size == n && r == Some(out)
  }

  method OuchRead(data: seq<Byte>, offset: nat) returns (size: nat, r: Option<Desk.OrderResponse>)
    requires offset < |data|
    ensures Reads(data, offset, size, r)
  {
    size := Ouch.MessageSize(data[offset]);
    if size == 0 {
      return 1, None;
    }
    if |data| - offset < size {
      return 0, None;
    }
    return size, Some(Ouch.ReadResponse(data[offset..][..size]));
  }

  /** The response loop at `offset`, with `outs` read, will end in `whole`. */
  ghost predicate OuchReaches(
      data: seq<Byte>, offset: nat, outs: seq<Desk.OrderResponse>, whole: Parsed<Ouch.Nothing, Desk.OrderResponse>)
  {
    Progresses(Ouch.Act) && offset <= |data| && Reaches(Ouch.Act, Ouch.Nothing, data, offset, outs, whole)
  }

  /** One turn of the loop, and its end. */
  lemma {:induction false} OuchTurn(
      data: seq<Byte>, offset: nat, outs: seq<Desk.OrderResponse>, whole: Parsed<Ouch.Nothing, Desk.OrderResponse>,
      size: nat, r: Option<Desk.OrderResponse>)
    requires offset < |data| && Reads(data, offset, size, r) && OuchReaches(data, offset, outs, whole)
    ensures size == 0 ==> whole == Parsed(outs, Ouch.Nothing, data[offset..])
    ensures size > 0 ==> OuchReaches(data, offset + size, if r.Some? then outs + [r.value] else outs, whole)
  {
  }

  lemma {:induction false} OuchEnd(
      data: seq<Byte>, outs: seq<Desk.OrderResponse>, whole: Parsed<Ouch.Nothing, Desk.OrderResponse>)
    requires OuchReaches(data, |data|, outs, whole)
    ensures whole == Parsed(outs, Ouch.Nothing, data[|data|..])
  {
  }

  /** The loop over the waiting bytes, pushing each response as it is read. */
  method OuchScan(data: seq<Byte>, queue: ResponseQueue, ghost whole: Parsed<Ouch.Nothing, Desk.OrderResponse>)
    returns (offset: nat)
    requires OuchReaches(data, 0, [], whole)
    modifies queue
    ensures offset <= |data| && data[offset..] == whole.rest
    ensures queue.waiting == Queued(old(queue.waiting), queue.capacity, whole.outs)
  {
    ghost var outs := [];
    offset := 0;
    while offset < |data|
      invariant OuchReaches(data, offset, outs, whole)
      invariant queue.waiting == Queued(old(queue.waiting), queue.capacity, outs)
      decreases |data| - offset
    {
      var size, r := OuchRead(data, offset);
      OuchTurn(data, offset, outs, whole, size, r);
      if size == 0 {
        return;
      }
      if r.Some? {
        QueuedPush(old(queue.waiting), queue.capacity, outs, r.value);
        var _ := queue.Push(r.value);
        outs := outs + [r.value];
      }
      offset := offset + size;
    }
    OuchEnd(data, outs, whole);
  }

  /** The gateway's callback: responses are queued in order until the queue is full; the rest are dropped. */
  method OuchReceive(socket: Socket, queue: ResponseQueue)
    requires socket.Valid()
    modifies socket, socket.inbound, queue
    ensures socket.Valid() && Progresses(Ouch.Act)
    ensures var p := Parse(Ouch.Act, Ouch.Nothing, old(socket.Held()));
      socket.Held() == p.rest && queue.waiting == Queued(old(queue.waiting), queue.capacity, p.outs)
  {
    Ouch.ActProgresses();
    ghost var whole := Parse(Ouch.Act, Ouch.Nothing, socket.Held());
    assert socket.Held()[0..] == socket.Held() && whole == Before([], whole);
    ReachesParse(Ouch.Act, Ouch.Nothing, socket.Held(), 0, []);
    var offset := OuchScan(socket.Held(), queue, whole);
    socket.Compact(offset);
  }
}
