/**
 Streaming framers.  A framer looks at the bytes it holds and waits for more, skips some, or emits a
 message; what it makes of a stream must not depend on how the stream was cut into deliveries.
 */
module Framing {
  import opened Wire

  datatype Action<S, O> = Wait | Skip(n: nat) | Emit(n: nat, out: O, next: S)
  {
    function Consumed(): nat {
      match this
      case Wait => 0
      case Skip(n) => n
      case Emit(n, _, _) => n
    }
  }

  type Framer<!S, !O> = (S, seq<Byte>) -> Action<S, O>

  /** A decision consumes at least one and at most all of the bytes seen. */
  ghost predicate Progresses<S(!new), O(!new)>(f: Framer<S, O>) {
    forall s, a :: f(s, a).Wait? || 1 <= f(s, a).Consumed() <= |a|
  }

  /** A decision, once made, does not depend on bytes that arrive later. */
  ghost predicate Stable<S(!new), O(!new)>(f: Framer<S, O>) {
    forall s, a, b :: !f(s, a).Wait? ==> f(s, a + b) == f(s, a)
  }

  /** Messages out, state after, bytes kept for the next delivery. */
  datatype Parsed<S, O> = Parsed(outs: seq<O>, state: S, rest: seq<Byte>)

  ghost function Parse<S(!new), O(!new)>(f: Framer<S, O>, s: S, a: seq<Byte>): Parsed<S, O>
    requires Progresses(f)
    decreases |a|
  {
    match f(s, a)
    case Wait => Parsed([], s, a)
    case Skip(n) => Parse(f, s, a[n..])
    case Emit(n, out, next) =>
      var p := Parse(f, next, a[n..]);
      p.(outs := [out] + p.outs)
  }

  /** The same outputs put before a later parse. */
  ghost function Before<S, O>(outs: seq<O>, q: Parsed<S, O>): Parsed<S, O> {
    q.(outs := outs + q.outs)
  }

  /** What one delivery leaves behind is what the next one needs. */
  lemma {:induction false} ParseSplit<S(!new), O(!new)>(f: Framer<S, O>, s: S, a: seq<Byte>, b: seq<Byte>)
    requires Progresses(f) && Stable(f)
    ensures Parse(f, s, a + b) == Before(Parse(f, s, a).outs, Parse(f, Parse(f, s, a).state, Parse(f, s, a).rest + b))
    decreases |a|
  {
    match f(s, a)
    case Wait =>
    case Skip(n) =>
      assert f(s, a + b) == f(s, a);
      assert (a + b)[n..] == a[n..] + b;
      ParseSplit(f, s, a[n..], b);
    case Emit(n, out, next) =>
      assert f(s, a + b) == f(s, a);
      assert (a + b)[n..] == a[n..] + b;
      ParseSplit(f, next, a[n..], b);
      var p := Parse(f, next, a[n..]);
      var q := Parse(f, p.state, p.rest + b);
      assert [out] + (p.outs + q.outs) == ([out] + p.outs) + q.outs;
  }

  /** The receive callback once per delivery, keeping leftover bytes in between. */
  ghost function ParseChunks<S(!new), O(!new)>(
      f: Framer<S, O>, s: S, held: seq<Byte>, chunks: seq<seq<Byte>>): Parsed<S, O>
    requires Progresses(f)
    decreases |chunks|
  {
    if chunks == [] then Parsed([], s, held)
    else
      var p := Parse(f, s, held + chunks[0]);
      var q := ParseChunks(f, p.state, p.rest, chunks[1..]);
      q.(outs := p.outs + q.outs)
  }

  function Concat(chunks: seq<seq<Byte>>): seq<Byte> {
    if chunks == [] then [] else chunks[0] + Concat(chunks[1..])
  }

  /** Any way of cutting a stream gives the messages, state and leftover of one delivery. */
  lemma {:induction false} ChunkIndependence<S(!new), O(!new)>(
      f: Framer<S, O>, s: S, held: seq<Byte>, chunks: seq<seq<Byte>>)
    requires Progresses(f) && Stable(f) && f(s, held).Wait?
    ensures ParseChunks(f, s, held, chunks) == Parse(f, s, held + Concat(chunks))
    decreases |chunks|
  {
    if chunks == [] {
      assert held + Concat(chunks) == held;
    } else {
      var p := Parse(f, s, held + chunks[0]);
      RestWaits(f, s, held + chunks[0]);
      ChunkIndependence(f, p.state, p.rest, chunks[1..]);
      ParseSplit(f, s, held + chunks[0], Concat(chunks[1..]));
      assert held + Concat(chunks) == (held + chunks[0]) + Concat(chunks[1..]);
    }
  }

  lemma {:induction false} RestWaits<S(!new), O(!new)>(f: Framer<S, O>, s: S, a: seq<Byte>)
    requires Progresses(f)
    ensures var p := Parse(f, s, a); f(p.state, p.rest).Wait? && |p.rest| <= |a|
    ensures var p := Parse(f, s, a); p.rest == a[|a| - |p.rest|..]
    decreases |a|
  {
    var d := f(s, a);
    if !d.Wait? {
      RestWaits(f, if d.Emit? then d.next else s, a[d.Consumed()..]);
    }
  }
}
