/**
 The gateway's response loop: OUCH responses of fixed size by type, with unknown bytes skipped
 (src/order_gateway/order_gateway.cpp).
 */
module OuchFramer {
  import opened TradingDesk
  import opened Wire
  import opened Framing

  const ORDER_ACCEPTED: Byte := 'A' as int
  const ORDER_EXECUTED: Byte := 'E' as int
  const ORDER_CANCELED: Byte := 'C' as int
  const ORDER_REPLACED: Byte := 'U' as int
  const CANCEL_REFUSED: Byte := 'J' as int

  /** messageSize: zero for an unknown type. */
  function MessageSize(kind: Byte): nat {
    if kind == ORDER_ACCEPTED || kind == ORDER_REPLACED then 61
    else if kind == ORDER_EXECUTED then 39
    else if kind == ORDER_CANCELED then 28
    else if kind == CANCEL_REFUSED then 23
    else 0
  }

  ghost predicate IsMessage(p: seq<Byte>) {
    |p| > 0 && |p| == MessageSize(p[0])
  }

  /** The token follows the type and an 8-byte timestamp; a replacement answers under its new token. */
  function ReadResponse(p: seq<Byte>): OrderResponse
    requires IsMessage(p)
  {
    var id := ParseToken(p[9..23]);
    if p[0] == ORDER_ACCEPTED || p[0] == ORDER_REPLACED then OrderResponse(id, ACCEPTED, 0, 0, 0)
    else if p[0] == ORDER_EXECUTED then OrderResponse(id, EXECUTED, U32(p, 23), AsPrice(U32(p, 27)), 0)
    else if p[0] == ORDER_CANCELED then OrderResponse(id, CANCELED, 0, 0, U32(p, 23))
    else OrderResponse(id, CANCEL_REJECTED, 0, 0, 0)
  }

  /** The loop keeps nothing but its buffer from one message to the next. */
  datatype Nothing = Nothing

  function Act(s: Nothing, a: seq<Byte>): Action<Nothing, OrderResponse> {
    if a == [] then Wait
    else if MessageSize(a[0]) == 0 then Skip(1)
    else if |a| < MessageSize(a[0]) then Wait
    else Emit(MessageSize(a[0]), ReadResponse(a[..MessageSize(a[0])]), s)
  }

  lemma {:induction false} ActProgresses()
    ensures Progresses(Act)
  {
  }

  lemma {:induction false} ActOnPrefix(s: Nothing, a: seq<Byte>, b: seq<Byte>)
    requires !Act(s, a).Wait?
    ensures Act(s, a + b) == Act(s, a)
  {
    if |a| >= MessageSize(a[0]) {
      assert (a + b)[..MessageSize(a[0])] == a[..MessageSize(a[0])];
    }
  }

  lemma {:induction false} ActStable()
    ensures Stable(Act)
  {
    forall s, a, b | !Act(s, a).Wait?
      ensures Act(s, a + b) == Act(s, a)
    {
      ActOnPrefix(s, a, b);
    }
  }

  /** Any split or coalescing of the response bytes gives the same responses and the same leftover. */
  lemma {:induction false} OuchChunkIndependence(chunks: seq<seq<Byte>>)
    ensures Progresses(Act)
    ensures ParseChunks(Act, Nothing, [], chunks) == Parse(Act, Nothing, Concat(chunks))
  {
    ActProgresses();
    ActStable();
    ChunkIndependence(Act, Nothing, [], chunks);
    assert [] + Concat(chunks) == Concat(chunks);
  }

  // ---------------------------------------------------------------------------
  // What an exchange writes is what the engine is handed

  /** The fields that the status calls for; an acceptance may answer an entry or a replacement. */
  predicate Writable(r: OrderResponse) {
    && r.id < TWO_64
    && !r.status.REJECTED?
    && (!r.status.EXECUTED? ==> r.executedQty == 0 && r.executionPrice == 0)
    && (!r.status.CANCELED? ==> r.canceledQty == 0)
  }

  function WriteResponse(r: OrderResponse, replacement: bool): (p: seq<Byte>)
    requires Writable(r)
    ensures IsMessage(p)
  {
    match r.status
    case ACCEPTED => [if replacement then ORDER_REPLACED else ORDER_ACCEPTED] + Zeros(8) + MakeToken(r.id) + Zeros(38)
    case EXECUTED => [ORDER_EXECUTED] + Zeros(8) + MakeToken(r.id) + Bytes(r.executedQty, 4)
        + Bytes(PriceBits(r.executionPrice), 4) + Zeros(8)
    case CANCELED => [ORDER_CANCELED] + Zeros(8) + MakeToken(r.id) + Bytes(r.canceledQty, 4) + Zeros(1)
    case CANCEL_REJECTED => [CANCEL_REFUSED] + Zeros(8) + MakeToken(r.id)
  }

  lemma {:induction false} ResponseRoundTrip(r: OrderResponse, replacement: bool)
    requires Writable(r)
    ensures ReadResponse(WriteResponse(r, replacement)) == r
  {
    var p := WriteResponse(r, replacement);
    assert p[9..23] == MakeToken(r.id);
    TokenRoundTrip(r.id);
    if r.status.EXECUTED? {
      Read32(r.executedQty, p, 23);
      Read32(PriceBits(r.executionPrice), p, 27);
    } else if r.status.CANCELED? {
      Read32(r.canceledQty, p, 23);
    }
  }

  function WriteResponses(rs: seq<OrderResponse>, replacements: seq<bool>): seq<Byte>
    requires |rs| == |replacements| && forall r :: r in rs ==> Writable(r)
  {
    Concat(seq(|rs|, i requires 0 <= i < |rs| => WriteResponse(rs[i], replacements[i])))
  }

  lemma {:induction false} OneMore(p: seq<Byte>, r: OrderResponse, rest: seq<Byte>, rs: seq<OrderResponse>)
    requires Progresses(Act) && IsMessage(p) && ReadResponse(p) == r
    requires Parse(Act, Nothing, rest) == Parsed(rs, Nothing, [])
    ensures Parse(Act, Nothing, p + rest) == Parsed([r] + rs, Nothing, [])
  {
    assert p[..|p|] == p;
    ActOnPrefix(Nothing, p, rest);
    assert (p + rest)[|p|..] == rest;
  }

  lemma {:induction false} MessagesRoundTrip(ps: seq<seq<Byte>>, rs: seq<OrderResponse>)
    requires Progresses(Act) && |ps| == |rs|
    requires forall i :: 0 <= i < |ps| ==> IsMessage(ps[i]) && ReadResponse(ps[i]) == rs[i]
    ensures Parse(Act, Nothing, Concat(ps)) == Parsed(rs, Nothing, [])
    decreases |ps|
  {
    if ps != [] {
      MessagesRoundTrip(ps[1..], rs[1..]);
      OneMore(ps[0], rs[0], Concat(ps[1..]), rs[1..]);
      assert [rs[0]] + rs[1..] == rs;
    }
  }

  /** A stream of complete responses is read back in order, each exactly once, with nothing left over. */
  lemma {:induction false} ResponsesRoundTrip(rs: seq<OrderResponse>, replacements: seq<bool>)
    requires |rs| == |replacements| && forall r :: r in rs ==> Writable(r)
    requires Progresses(Act)
    ensures Parse(Act, Nothing, WriteResponses(rs, replacements)) == Parsed(rs, Nothing, [])
  {
    var ps := seq(|rs|, i requires 0 <= i < |rs| => WriteResponse(rs[i], replacements[i]));
    forall i | 0 <= i < |ps| ensures IsMessage(ps[i]) && ReadResponse(ps[i]) == rs[i] {
      ResponseRoundTrip(rs[i], replacements[i]);
    }
    MessagesRoundTrip(ps, rs);
  }

  /** A byte that starts no response is dropped, and what follows is read as if it had not been there. */
  lemma {:induction false} GarbageDropped(b: Byte, a: seq<Byte>)
    requires Progresses(Act) && MessageSize(b) == 0
    ensures Parse(Act, Nothing, [b] + a) == Parse(Act, Nothing, a)
  {
    assert ([b] + a)[1..] == a;
  }

  /** The gateway never reports a rejection: no response type maps to that status. */
  lemma {:induction false} NeverRejected(a: seq<Byte>, i: nat)
    requires Progresses(Act)
    requires i < |Parse(Act, Nothing, a).outs|
    ensures !Parse(Act, Nothing, a).outs[i].status.REJECTED?
    decreases |a|
  {
    match Act(Nothing, a)
    case Wait =>
    case Skip(n) => NeverRejected(a[n..], i);
    case Emit(n, r, _) =>
      if i > 0 {
        NeverRejected(a[n..], i - 1);
      }
  }
}
