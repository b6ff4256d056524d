/**
 MarketDataConsumer as the object it is: fields updated in place, an ordered map walked from its
 least key up, and two passes over it at the end of a recovery.  Every method is proved to
 compute the transition of `Recovery` that the run theorems are about.
 */
module ConsumerObject {
  import opened Types
  import opened FeedBook
  import opened Recovery
  import Runs = RecoveryRuns
  import opened RecoveryTheorems

  lemma {:induction false} LeastExists(s: set<SeqNum>)
    requires s != {}
    ensures exists k :: k in s && forall j :: j in s ==> k <= j
  {
    var a :| a in s;
    var k := LeastBelow(s, a);
  }

  lemma {:induction false} LeastBelow(s: set<SeqNum>, a: SeqNum) returns (k: SeqNum)
    requires a in s
    ensures k in s && forall j :: j in s ==> k <= j
    decreases a
  {
    k := a;
    if b :| b in s && b < a {
      k := LeastBelow(s, b);
    }
  }

  lemma {:induction false} InOrderStops(last: SeqNum, frames: seq<MarketUpdate>, i: nat)
    requires i < |frames| && frames[i].seqNum != last + 1 + i && Consecutive(last, frames[..i])
    ensures InOrder(last, frames) == i && !Consecutive(last, frames)
    decreases i
  {
    if i > 0 {
      assert frames[..i][0] == frames[0];
      assert frames[1..][..i - 1] == frames[..i][1..];
      InOrderStops(last + 1, frames[1..], i - 1);
    }
  }

  /** The first pass over the queued updates, in ascending order. */
  method CheckQueued(queued: map<SeqNum, MarketUpdate>, resume: SeqNum) returns (ok: bool, expected: SeqNum)
    ensures ok <==> Contiguous(queued, resume)
    ensures ok ==> expected == resume + |Tail(queued, resume)|
  {
    var rest := queued.Keys;
    ok, expected := true, resume;
    while rest != {}
      invariant rest <= queued.Keys
      invariant forall k, j :: k in queued && k !in rest && j in rest ==> k < j
      invariant expected >= resume
      invariant forall k :: k in queued && k !in rest && k >= resume ==> k < expected
      invariant forall j :: resume <= j < expected ==> j in queued && j !in rest
      decreases |rest|
    {
      LeastExists(rest);
      var k :| k in rest && forall j :: j in rest ==> k <= j;
      rest := rest - {k};
      if k >= expected {
        if k != expected {
          assert expected !in queued;
          ok := false;
          return;
        }
        expected := expected + 1;
      }
    }
    TailMembers(queued, resume);
    assert expected !in queued;
  }

  /** Midway through the second pass: `out` is pushed, `left` still in the map. */
  ghost predicate Flushing(
      queued: map<SeqNum, MarketUpdate>, resume: SeqNum, left: map<SeqNum, MarketUpdate>, out: seq<MarketUpdate>)
  {
    && out <= Tail(queued, resume)
    && (forall k :: k in left ==> k in queued && left[k] == queued[k] && (k >= resume ==> k >= resume + |out|))
    && (forall k :: k in queued && k >= resume + |out| ==> k in left)
  }

  lemma {:induction false} FlushOne(
      queued: map<SeqNum, MarketUpdate>, resume: SeqNum, left: map<SeqNum, MarketUpdate>, out: seq<MarketUpdate>,
      k: SeqNum)
    requires Contiguous(queued, resume) && Flushing(queued, resume, left, out)
    requires k in left && forall j :: j in left ==> k <= j
    ensures Flushing(queued, resume, left - {k}, if k >= resume then out + [left[k]] else out)
  {
    if k >= resume {
      NextOfTail(queued, resume, left, out, k);
    }
  }

  /** The least number left is the one the tail goes on with. */
  lemma {:induction false} NextOfTail(
      queued: map<SeqNum, MarketUpdate>, resume: SeqNum, left: map<SeqNum, MarketUpdate>, out: seq<MarketUpdate>,
      k: SeqNum)
    requires Contiguous(queued, resume) && Flushing(queued, resume, left, out)
    requires k in left && k >= resume && forall j :: j in left ==> k <= j
    ensures k == resume + |out| && |out| < |Tail(queued, resume)|
    ensures out + [left[k]] == Tail(queued, resume)[..|out| + 1]
  {
    var tail := Tail(queued, resume);
    TailMembers(queued, resume);
    ContiguousIffTailIsAll(queued, resume);
    assert k > resume + |out| ==> resume + |out| in queued;
    assert tail[k - resume] == queued[k];
    assert out + [tail[|out|]] == tail[..|out| + 1];
  }

  /** The second pass: push what continues the recovered updates, erase everything. */
  method FlushQueued(queued: map<SeqNum, MarketUpdate>, resume: SeqNum)
    returns (out: seq<MarketUpdate>, left: map<SeqNum, MarketUpdate>)
    requires Contiguous(queued, resume)
    ensures left == map[]
    ensures out == Tail(queued, resume)
  {
    out, left := [], queued;
    while left != map[]
      invariant Flushing(queued, resume, left, out)
      decreases |left|
    {
      LeastExists(left.Keys);
      var k :| k in left.Keys && forall j :: j in left.Keys ==> k <= j;
      FlushOne(queued, resume, left, out, k);
      if k >= resume {
        out := out + [left[k]];
      }
      assert (left - {k}).Keys == left.Keys - {k};
      left := left - {k};
    }
    TailMembers(queued, resume);
    assert resume + |out| in queued ==> resume + |out| in left;
  }

  /** The replay loop: how many frames continue `last` before one does not. */
  method TakeFrames(last: SeqNum, frames: seq<MarketUpdate>) returns (n: nat)
    ensures n <= |frames| && n == InOrder(last, frames)
    ensures n == |frames| <==> Consecutive(last, frames)
  {
    n := 0;
    while n < |frames|
      invariant n <= |frames| && Consecutive(last, frames[..n])
    {
      if frames[n].seqNum != last + n + 1 {
        InOrderStops(last, frames, n);
        return;
      }
      n := n + 1;
    }
    assert frames[..n] == frames;
    InOrderAll(last, frames);
  }

  lemma {:induction false} InOrderAll(last: SeqNum, frames: seq<MarketUpdate>)
    requires Consecutive(last, frames)
    ensures InOrder(last, frames) == |frames|
    decreases |frames|
  {
    if frames != [] {
      InOrderAll(last + 1, frames[1..]);
    }
  }

  lemma {:induction false} PushedMeans(x: Runs.Exchange, states: seq<Runs.System>, events: seq<Event>, i: nat)
    requires Runs.IsTruthful(x) && Runs.IsRun(x, states, events) && i < |states|
    ensures var c := states[i].c;
      if c.nextExp == 0 then c.pushed == []
      else forall t :: HoldsEntries(t, x.h, Baseline(c.pushed), c.nextExp - 1, Fold(t, EMPTY, c.pushed))
  {
    var c := states[i].c;
    PushedBookIsTrue(x, states, events, i, 0);
    if c.nextExp > 0 {
      forall t ensures HoldsEntries(t, x.h, Baseline(c.pushed), c.nextExp - 1, Fold(t, EMPTY, c.pushed)) {
        PushedBookIsTrue(x, states, events, i, t);
      }
    }
  }

  datatype Flags = Flags(inRecovery: bool, haveStart: bool, mode: Mode, statusRead: bool, leftover: bool, synced: bool)

  datatype Link = Link(conn: Option<nat>, openCount: nat, closedLog: seq<nat>)

  /** Before an exchange, the event keeps the invariant of runs and leads to `c`. */
  ghost predicate KeepsRun(x: Runs.Exchange, s: Runs.System, e: Event, c: Consumer)
    requires Enabled(s.c, e)
  {
    Runs.IsExchange(x) && Runs.Inv(x, s) && Runs.Legal(x, s, e) ==>
      Runs.Inv(x, Runs.Step(s, e)) && Runs.Step(s, e).c == c
  }

  lemma {:induction false} EventKeeps(x: Runs.Exchange, s: Runs.System, e: Event)
    requires Enabled(s.c, e) && Runs.Coherent(s.c)
    ensures Runs.Coherent(Next(s.c, e)) && KeepsRun(x, s, e, Next(s.c, e))
  {
    Runs.StepCoherent(s.c, e);
    if Runs.IsExchange(x) && Runs.Inv(x, s) && Runs.Legal(x, s, e) {
      Runs.StepKeepsInv(x, s, e);
    }
  }

  class MarketDataConsumer {
    var nextExp: SeqNum
    var lastApplied: SeqNum
    var flags: Flags
    var queued: map<SeqNum, MarketUpdate>
    var staged: seq<MarketUpdate>
    var link: Link
    var pushed: seq<MarketUpdate>

    ghost function State(): Consumer
      reads this
    {
      Consumer(nextExp, flags.inRecovery, flags.haveStart, flags.mode, flags.statusRead, lastApplied, queued,
               staged, flags.leftover, flags.synced, link.conn, link.openCount, link.closedLog, pushed)
    }

    constructor ()
      ensures State() == INITIAL
    {
      nextExp, lastApplied, flags := 0, 0, Flags(false, false, NoRecovery, false, false, false);
      queued, staged, link, pushed := map[], [], Link(None, 0, []), [];
    }

    method OpenConnection()
      modifies this`link
      ensures State() == Open(old(State()))
    {
      link := link.(conn := Some(link.openCount), openCount := link.openCount + 1);
    }

    method CloseConnection()
      modifies this`link
      ensures State() == Close(old(State()))
    {
      if link.conn.Some? {
        link := link.(conn := None, closedLog := link.closedLog + [link.conn.value]);
      }
    }

    method StartSnapshotSync()
      modifies this
      ensures State() == StartSnapshot(old(State()))
    {
      flags := flags.(synced := false, inRecovery := true, mode := Snapshot, haveStart := false, leftover := false);
      queued, staged := map[], [];
      OpenConnection();
    }

    method StartReplaySync(clientSeq: SeqNum, anew: bool)
      modifies this
      ensures State() == StartReplay(old(State()), clientSeq, anew)
    {
      flags := flags.(synced := false, inRecovery := true, mode := Replay, statusRead := false, leftover := false);
      lastApplied := clientSeq;
      if anew {
        queued, staged := map[], [];
      }
      OpenConnection();
    }

    method AbortSnapshotSync()
      modifies this
      ensures State() == Abort(old(State()))
    {
      queued, staged := map[], [];
      flags := flags.(haveStart := false, inRecovery := false, synced := false, mode := NoRecovery);
      CloseConnection();
    }

    /** The common end of both finish functions once the first pass has succeeded. */
    method Install(resume: SeqNum, expected: SeqNum)
      requires Contiguous(queued, resume) && expected == resume + |Tail(queued, resume)|
      modifies this
      ensures State() == Deliver(old(State()), resume)
    {
      var out, left := FlushQueued(queued, resume);
      pushed, queued := pushed + staged + out, left;
      nextExp, staged := expected, [];
      flags := flags.(inRecovery := false, synced := true, mode := NoRecovery);
      CloseConnection();
    }

    method FinishSnapshotSync(resume: SeqNum)
      modifies this
      ensures State() == FinishSnapshot(old(State()), resume)
    {
      var ok, expected := CheckQueued(queued, resume);
      if !ok {
        staged := [];
        return;
      }
      Install(resume, expected);
    }

    method FinishReplaySync()
      modifies this
      ensures State() == FinishReplay(old(State()))
    {
      var resume := lastApplied + 1;
      var ok, expected := CheckQueued(queued, resume);
      if !ok {
        AbortSnapshotSync();
        return;
      }
      Install(resume, expected);
      flags := flags.(leftover := false);
    }

    method ProcessSnapshotMessage(u: MarketUpdate)
      modifies this
      ensures State() == ProcessSnapshot(old(State()), u)
    {
      if !flags.inRecovery {
        return;
      }
      if u.kind.SNAPSHOT_START? {
        flags, staged := flags.(haveStart := true), [u];
        return;
      }
      if !flags.haveStart {
        return;
      }
      staged := staged + [u];
      if u.kind.SNAPSHOT_END? {
        flags := flags.(haveStart := false);
        FinishSnapshotSync(u.orderRef + 1);
      }
    }

    method ReadSnapshot(msgs: seq<MarketUpdate>, rest: bool)
      modifies this
      ensures State() == ProcessSnapshots(old(State()).(leftover := rest), msgs)
    {
      flags := flags.(leftover := rest);
      ghost var c := State();
      for i := 0 to |msgs|
        invariant State() == ProcessSnapshots(c, msgs[..i])
      {
        assert msgs[..i + 1][..i] == msgs[..i];
        ProcessSnapshotMessage(msgs[i]);
      }
      assert msgs[..|msgs|] == msgs;
    }

    method ApplyReplayFrames(frames: seq<MarketUpdate>)
      modifies this
      ensures State() == ApplyFrames(old(State()), frames)
    {
      var n := TakeFrames(lastApplied, frames);
      lastApplied := lastApplied + n;
      if n < |frames| {
        AbortSnapshotSync();
        return;
      }
      staged := staged + frames;
    }

    method ReadReplay(status: ReplayStatus, frames: seq<MarketUpdate>, rest: bool)
      modifies this
      ensures State() == ProcessReplay(old(State()).(leftover := rest), status, frames)
    {
      flags := flags.(leftover := rest);
      if !flags.statusRead {
        flags := flags.(statusRead := true);
        match status {
          case Granted =>
          case Denied =>
            CloseConnection();
            StartSnapshotSync();
            return;
          case Current =>
            CloseConnection();
            FinishReplaySync();
            return;
          case Unexpected =>
            AbortSnapshotSync();
            return;
        }
      }
      ApplyReplayFrames(frames);
    }

    method OnEof()
      modifies this
      ensures State() == ProcessEof(old(State()))
    {
      if flags.mode.Replay? && flags.statusRead && !flags.leftover {
        FinishReplaySync();
      } else if flags.mode.Replay? && flags.statusRead {
        CloseConnection();
        StartReplaySync(lastApplied, false);
      } else {
        AbortSnapshotSync();
      }
    }

    method QueueIncremental(u: MarketUpdate)
      modifies this`queued
      ensures State() == Enqueue(old(State()), u)
    {
      queued := queued[u.seqNum := u];
    }

    method GapDetected(received: SeqNum)
      requires nextExp >= 1 && received > nextExp
      modifies this
      ensures State() == DetectGap(old(State()), received)
    {
      if !flags.inRecovery {
        flags := flags.(inRecovery := true, synced := false);
        if received - nextExp <= REPLAY_CAPACITY {
          StartReplaySync(nextExp - 1, true);
        } else {
          StartSnapshotSync();
        }
      }
    }

    method ProcessLive(u: MarketUpdate)
      modifies this
      ensures State() == ProcessIncremental(old(State()), u)
    {
      if flags.inRecovery {
        QueueIncremental(u);
        return;
      }
      var expected := nextExp;
      if expected == 0 {
        nextExp := u.seqNum + 1;
        pushed := pushed + [u];
        return;
      }
      if u.seqNum == expected {
        pushed := pushed + [u];
        nextExp := nextExp + 1;
        return;
      }
      if u.seqNum > expected {
        GapDetected(u.seqNum);
        QueueIncremental(u);
      }
    }

    /** One action of the consumer thread.  Flags, connection and buffers stay coherent whatever
        happens; before an exchange x, with `sent` delivered on the connection, so does the invariant of runs. */
    method Handle(e: Event, ghost x: Runs.Exchange, ghost sent: seq<MarketUpdate>)
      requires Enabled(State(), e) && Runs.Coherent(State())
      modifies this
      ensures State() == Next(old(State()), e)
      ensures Runs.Coherent(State())
      ensures KeepsRun(x, Runs.System(old(State()), sent), e, State())
    {
      EventKeeps(x, Runs.System(State(), sent), e);
      match e
      case Live(u) => ProcessLive(u);
      case SnapshotRead(msgs, rest) => ReadSnapshot(msgs, rest);
      case ReplayRead(status, frames, rest) => ReadReplay(status, frames, rest);
      case Eof => OnEof();
    }

    /** The consumer thread's loop, from start-up: whatever the network did, what the object has pushed
        means exactly the orders of the history from its baseline up to the number it expects next. */
    method Serve(events: seq<Event>, ghost x: Runs.Exchange, ghost states: seq<Runs.System>)
      requires State() == Runs.BOOT.c && Runs.IsTruthful(x) && Runs.IsRun(x, states, events)
      modifies this
      ensures State() == states[|events|].c && Runs.Coherent(State())
      ensures nextExp == 0 ==> pushed == []
      ensures nextExp > 0 ==> forall t :: HoldsEntries(t, x.h, Baseline(pushed), nextExp - 1, Fold(t, EMPTY, pushed))
    {
      assert Runs.Coherent(State());
      var n := 0;
      while n < |events|
        invariant n <= |events| && State() == states[n].c && Runs.Coherent(State())
      {
        assert Runs.StepAt(x, states, events, n);
        Handle(events[n], x, states[n].sent);
        n := n + 1;
      }
      PushedMeans(x, states, events, |events|);
    }
  }
}
