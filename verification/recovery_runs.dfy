/**
 Safety of the recovery protocol over whole runs: every interleaving of lost, duplicated or
 reordered live updates, replays, denials, cuts, aborts and snapshots.
 */
module RecoveryRuns {
  import opened Types
  import opened FeedBook
  import opened Recovery

  // ---------------------------------------------------------------------------
  // The environment

  /** The messages since the last START on a connection, when no END followed it. */
  function OpenBlock(sent: seq<MarketUpdate>): seq<MarketUpdate> {
    if sent == [] then [] else
      var b, u := OpenBlock(sent[..|sent| - 1]), sent[|sent| - 1];
      if u.kind.SNAPSHOT_START? then [u]
      else if b == [] || u.kind.SNAPSHOT_END? then []
      else b + [u]
  }

  /** The exchange: what it publishes, and the snapshot blocks its server may complete. */
  datatype Exchange = Exchange(h: History, blocks: iset<seq<MarketUpdate>>)

  /** A block's END names a point of the history.  Nothing is said of what the block holds. */
  ghost predicate IsExchange(x: Exchange) {
    && IsHistory(x.h)
    && forall b: seq<MarketUpdate> :: b in x.blocks ==> b != [] && b[|b| - 1].orderRef <= |x.h|
  }

  /** Loading the block leaves every ticker with the orders of updates 1..END.ref. */
  ghost predicate Faithful(h: History, b: seq<MarketUpdate>)
    requires b != [] && b[|b| - 1].orderRef <= |h|
  {
    forall t :: Fold(t, EMPTY, b) == TrueView(t, h, b[|b| - 1].orderRef)
  }

  /** An exchange whose snapshots are all faithful. */
  ghost predicate IsTruthful(x: Exchange) {
    IsExchange(x) && forall b: seq<MarketUpdate> :: b in x.blocks ==> Faithful(x.h, b)
  }

  /** A snapshot server sends anything it likes, restarts included, but the blocks it
      completes are the exchange's. */
  ghost predicate Serves(x: Exchange, sent: seq<MarketUpdate>) {
    forall n :: ServesAt(x, sent, n)
  }

  ghost predicate ServesAt(x: Exchange, sent: seq<MarketUpdate>, n: nat) {
    n < |sent| && sent[n].kind.SNAPSHOT_END? && OpenBlock(sent[..n]) != [] ==>
      OpenBlock(sent[..n]) + [sent[n]] in x.blocks
  }

  /** `sent` is what the current connection has delivered in snapshot mode. */
  datatype System = System(c: Consumer, sent: seq<MarketUpdate>)

  ghost predicate FromHistory(h: History, u: MarketUpdate) {
    1 <= u.seqNum <= |h| && u == h[u.seqNum - 1]
  }

  /** Live updates arrive in any order, any number of times or never; replay frames likewise. */
  ghost predicate Legal(x: Exchange, s: System, e: Event) {
    && Enabled(s.c, e)
    && match e
       case Live(u) => FromHistory(x.h, u)
       case SnapshotRead(msgs, _) => Serves(x, s.sent + msgs)
       case ReplayRead(_, frames, _) => forall i :: 0 <= i < |frames| ==> FromHistory(x.h, frames[i])
       case Eof => true
  }

  ghost function Step(s: System, e: Event): System
    requires Enabled(s.c, e)
  {
    var c := Next(s.c, e);
    System(c,
           if c.openCount != s.c.openCount then []
           else if e.SnapshotRead? then s.sent + e.msgs
           else s.sent)
  }

  /** The consumer as `start()` leaves it: asking for a first snapshot. */
  const BOOT := System(StartSnapshot(INITIAL), [])

  ghost predicate IsRun(x: Exchange, states: seq<System>, events: seq<Event>) {
    && |states| == |events| + 1
    && states[0] == BOOT
    && forall k :: StepAt(x, states, events, k)
  }

  ghost predicate StepAt(x: Exchange, states: seq<System>, events: seq<Event>, k: nat)
    requires |states| == |events| + 1
  {
    k < |events| ==> Follows(x, states[k], events[k], states[k + 1])
  }

  ghost predicate Follows(x: Exchange, s: System, e: Event, s': System) {
    Legal(x, s, e) && s' == Step(s, e)
  }

  // ---------------------------------------------------------------------------
  // A reader of the pushed updates

  /** Where a reader of the queue stands: nothing read, inside a snapshot block, holding the
      orders of history entries base..next-1, or faced with an update that cannot be right
      (a number out of sequence, a marker out of place, a false snapshot). */
  datatype Reader = Fresh | InBlock(block: seq<MarketUpdate>) | At(base: SeqNum, next: SeqNum) | Broken

  ghost function ReadOne(x: Exchange, r: Reader, u: MarketUpdate): Reader {
    if r.Broken? then Broken
    else if r.InBlock? then
      if u.kind.SNAPSHOT_START? then Broken
      else if !u.kind.SNAPSHOT_END? then InBlock(r.block + [u])
      else if r.block + [u] in x.blocks then At(1, u.orderRef + 1)
      else Broken
    else if u.kind.SNAPSHOT_START? then InBlock([u])
    else if !FromHistory(x.h, u) || u.IsMarker() then Broken
    else if r.Fresh? then At(u.seqNum, u.seqNum + 1)
    else if u.seqNum == r.next then At(r.base, u.seqNum + 1)
    else Broken
  }

  ghost function Read(x: Exchange, r: Reader, us: seq<MarketUpdate>): Reader {
    if us == [] then r else ReadOne(x, Read(x, r, us[..|us| - 1]), us[|us| - 1])
  }

  lemma {:induction false} ReadSnoc(x: Exchange, r: Reader, us: seq<MarketUpdate>, u: MarketUpdate)
    ensures Read(x, r, us + [u]) == ReadOne(x, Read(x, r, us), u)
  {
    assert (us + [u])[..|us|] == us;
  }

  lemma {:induction false} ReadAppend(x: Exchange, r: Reader, a: seq<MarketUpdate>, b: seq<MarketUpdate>)
    ensures Read(x, r, a + b) == Read(x, Read(x, r, a), b)
    decreases |b|
  {
    if b == [] {
      assert a + b == a;
    } else {
      var c := b[..|b| - 1];
      assert (a + b)[..|a + b| - 1] == a + c;
      ReadAppend(x, r, a, c);
    }
  }

  lemma {:induction false} ReadRange(x: Exchange, b: SeqNum, n: SeqNum, m: nat)
    requires IsExchange(x) && 1 <= n <= m + 1 <= |x.h| + 1
    ensures Read(x, At(b, n), x.h[n - 1..m]) == At(b, m + 1)
    decreases m
  {
    if n <= m {
      ReadRange(x, b, n, m - 1);
      assert x.h[n - 1..m] == x.h[n - 1..m - 1] + [x.h[m - 1]];
      ReadSnoc(x, At(b, n), x.h[n - 1..m - 1], x.h[m - 1]);
      ReadEntry(x, b, m);
    }
  }

  lemma {:induction false} ReadEntry(x: Exchange, b: SeqNum, m: nat)
    requires IsHistory(x.h) && 1 <= m <= |x.h|
    ensures ReadOne(x, At(b, m), x.h[m - 1]) == At(b, m + 1)
  {
    assert IsEntry(x.h, m);
  }

  /** An open block: a START and no further START or END. */
  predicate IsOpenBlock(b: seq<MarketUpdate>) {
    && b != []
    && b[0].kind.SNAPSHOT_START?
    && forall i :: 1 <= i < |b| ==> !b[i].kind.SNAPSHOT_START? && !b[i].kind.SNAPSHOT_END?
  }

  lemma {:induction false} ReadOpenBlock(x: Exchange, r: Reader, b: seq<MarketUpdate>)
    requires (r.Fresh? || r.At?) && IsOpenBlock(b)
    ensures Read(x, r, b) == InBlock(b)
    decreases |b|
  {
    var c, u := b[..|b| - 1], b[|b| - 1];
    if c == [] {
      assert b == [u];
    } else {
      ReadOpenBlock(x, r, c);
      assert b == c + [u];
    }
  }

  lemma {:induction false} ReadBlock(x: Exchange, r: Reader, b: seq<MarketUpdate>, end: MarketUpdate)
    requires (r.Fresh? || r.At?) && IsOpenBlock(b) && end.kind.SNAPSHOT_END? && b + [end] in x.blocks
    ensures Read(x, r, b + [end]) == At(1, end.orderRef + 1)
  {
    ReadOpenBlock(x, r, b);
    assert (b + [end])[..|b|] == b;
  }

  // ---------------------------------------------------------------------------
  // Invariants

  /** Recovery flag, mode and connection coincide; connections are closed in the order they
      were opened, each once; outside recovery nothing is staged or queued. */
  predicate Coherent(c: Consumer) {
    && (c.inRecovery <==> c.mode != NoRecovery)
    && (c.inRecovery <==> c.conn.Some?)
    && (c.conn.Some? ==> c.conn.value == |c.closedLog|)
    && c.openCount == |c.closedLog| + (if c.conn.Some? then 1 else 0)
    && (forall i :: 0 <= i < |c.closedLog| ==> c.closedLog[i] == i)
    && (c.synced ==> !c.inRecovery)
    && (!c.inRecovery ==> c.queued == map[] && c.staged == [])
    && (c.haveStart ==> c.mode == Snapshot)
    && (c.mode == Snapshot && !c.haveStart ==> c.staged == [])
    && (c.mode == Replay ==> c.nextExp >= 1)
  }

  /** In replay mode the staged frames are exactly updates nextExp..lastApplied. */
  ghost predicate ReplayStaged(h: History, c: Consumer) {
    c.mode == Replay ==>
      && 1 <= c.nextExp <= c.lastApplied + 1 <= |h| + 1
      && c.staged == h[c.nextExp - 1..c.lastApplied]
  }

  /** What is queued is the history's. */
  ghost predicate TrueQueue(h: History, q: map<SeqNum, MarketUpdate>) {
    forall k :: k in q ==> 1 <= k <= |h| && q[k] == h[k - 1]
  }

  ghost predicate QueueTrue(h: History, c: Consumer) {
    TrueQueue(h, c.queued)
  }

  ghost predicate SnapshotStaged(s: System) {
    s.c.mode == Snapshot && s.c.haveStart ==> s.c.staged == OpenBlock(s.sent) && IsOpenBlock(s.c.staged)
  }

  /** The reader of the queue expects what the consumer expects. */
  ghost predicate Logged(x: Exchange, c: Consumer) {
    var r := Read(x, Fresh, c.pushed);
    c.nextExp <= |x.h| + 1 && if c.nextExp == 0 then r.Fresh? else r.At? && r.next == c.nextExp
  }

  ghost predicate Inv(x: Exchange, s: System) {
    && Coherent(s.c)
    && ReplayStaged(x.h, s.c)
    && QueueTrue(x.h, s.c)
    && SnapshotStaged(s)
    && Logged(x, s.c)
    && Serves(x, s.sent)
  }

  // ---------------------------------------------------------------------------
  // Recovery flag, mode and connection

  lemma {:induction false} AbortCoherent(c: Consumer)
    requires Coherent(c)
    ensures Coherent(Abort(c))
  {
  }

  lemma {:induction false} DeliverCoherent(c: Consumer, resume: SeqNum)
    requires Coherent(c) && !c.haveStart
    ensures Coherent(Deliver(c, resume))
  {
  }

  lemma {:induction false} FinishReplayCoherent(c: Consumer)
    requires Coherent(c) && c.mode == Replay
    ensures Coherent(FinishReplay(c)) && Coherent(FinishReplay(Close(c)))
  {
    AbortCoherent(c);
    DeliverCoherent(c, c.lastApplied + 1);
  }

  lemma {:induction false} SnapshotMessageCoherent(c: Consumer, u: MarketUpdate)
    requires Coherent(c) && c.mode != Replay
    ensures var d := ProcessSnapshot(c, u); Coherent(d) && d.mode != Replay && d.openCount == c.openCount
  {
    if c.inRecovery && c.haveStart && u.kind.SNAPSHOT_END? {
      EndCoherent(c.(staged := c.staged + [u], haveStart := false), u.orderRef + 1);
    }
  }

  lemma {:induction false} EndCoherent(c: Consumer, resume: SeqNum)
    requires Coherent(c.(staged := [])) && c.mode == Snapshot && !c.haveStart
    ensures var d := FinishSnapshot(c, resume); Coherent(d) && d.mode != Replay && d.openCount == c.openCount
  {
    if Contiguous(c.queued, resume) {
      DeliverCoherent(c.(staged := []), resume);
    }
  }

  lemma {:induction false} SnapshotsCoherent(c: Consumer, msgs: seq<MarketUpdate>)
    requires Coherent(c) && c.mode != Replay
    ensures var d := ProcessSnapshots(c, msgs); Coherent(d) && d.mode != Replay && d.openCount == c.openCount
    decreases |msgs|
  {
    if msgs != [] {
      SnapshotsCoherent(c, msgs[..|msgs| - 1]);
      SnapshotMessageCoherent(ProcessSnapshots(c, msgs[..|msgs| - 1]), msgs[|msgs| - 1]);
    }
  }

  lemma {:induction false} ReplayCoherent(c: Consumer, status: ReplayStatus, frames: seq<MarketUpdate>)
    requires Coherent(c) && c.mode == Replay
    ensures Coherent(ProcessReplay(c, status, frames))
  {
    var d := c.(statusRead := true);
    if c.statusRead || status == Granted {
      FramesCoherent(if c.statusRead then c else d, frames);
    } else if status == Current {
      FinishReplayCoherent(d);
    } else if status == Unexpected {
      AbortCoherent(d);
    }
  }

  lemma {:induction false} FramesCoherent(c: Consumer, frames: seq<MarketUpdate>)
    requires Coherent(c) && c.mode == Replay
    ensures Coherent(ApplyFrames(c, frames))
  {
    if !Consecutive(c.lastApplied, frames) {
      AbortCoherent(c.(lastApplied := c.lastApplied + InOrder(c.lastApplied, frames)));
    }
  }

  /** Holds of every step, whatever the network and the server do. */
  lemma {:induction false} StepCoherent(c: Consumer, e: Event)
    requires Coherent(c) && Enabled(c, e)
    ensures Coherent(Next(c, e))
  {
    match e
    case Live(u) =>
    case SnapshotRead(msgs, rest) => SnapshotsCoherent(c.(leftover := rest), msgs);
    case ReplayRead(status, frames, rest) => ReplayCoherent(c.(leftover := rest), status, frames);
    case Eof =>
      AbortCoherent(c);
      if c.mode == Replay { FinishReplayCoherent(c); }
  }

  // ---------------------------------------------------------------------------
  // The log of pushes

  lemma {:induction false} TailIsRange(h: History, q: map<SeqNum, MarketUpdate>, resume: SeqNum)
    requires TrueQueue(h, q) && 1 <= resume <= |h| + 1
    ensures var n := |Tail(q, resume)|; resume - 1 + n <= |h| && Tail(q, resume) == h[resume - 1..resume - 1 + n]
  {
    TailMembers(q, resume);
    var t := Tail(q, resume);
    if t != [] {
      assert resume + |t| - 1 in q;
    }
    forall i | 0 <= i < |t| ensures t[i] == h[resume - 1..][i] {
      var k := resume + i;
      assert k in q && t[k - resume] == q[k];
    }
  }

  /** `d` has pushed what `c` staged and the queued updates that continue it, or nothing. */
  predicate Delivered(c: Consumer, resume: SeqNum, d: Consumer) {
    if Contiguous(c.queued, resume)
    then d.pushed == c.pushed + c.staged + Tail(c.queued, resume) && d.nextExp == resume + |Tail(c.queued, resume)|
    else d.pushed == c.pushed && d.nextExp == c.nextExp
  }

  /** Delivering staged updates that take the reader to `resume`, and the queued ones after them. */
  lemma {:induction false} DeliverLogged(x: Exchange, c: Consumer, resume: SeqNum, b: SeqNum, d: Consumer)
    requires 1 <= resume <= |x.h| + 1 && IsExchange(x) && QueueTrue(x.h, c)
    requires Read(x, Read(x, Fresh, c.pushed), c.staged) == At(b, resume)
    requires Contiguous(c.queued, resume) && Delivered(c, resume, d)
    ensures Logged(x, d)
  {
    TailIsRange(x.h, c.queued, resume);
    ReadDelivery(x, c.pushed, c.staged, b, resume, d.nextExp - 1, d.pushed);
  }

  lemma {:induction false} ReadDelivery(
      x: Exchange, pushed: seq<MarketUpdate>, staged: seq<MarketUpdate>, b: SeqNum, n: SeqNum, m: nat,
      all: seq<MarketUpdate>)
    requires IsExchange(x) && 1 <= n <= m + 1 <= |x.h| + 1 && all == pushed + staged + x.h[n - 1..m]
    requires Read(x, Read(x, Fresh, pushed), staged) == At(b, n)
    ensures Read(x, Fresh, all) == At(b, m + 1)
  {
    ReadAppend(x, Fresh, pushed, staged);
    ReadAppend(x, Fresh, pushed + staged, x.h[n - 1..m]);
    ReadRange(x, b, n, m);
  }

  lemma {:induction false} FinishReplayDelivers(c: Consumer)
    ensures Delivered(c, c.lastApplied + 1, FinishReplay(c))
  {
  }

  lemma {:induction false} FinishReplayLogged(x: Exchange, c: Consumer)
    requires IsExchange(x) && QueueTrue(x.h, c) && ReplayStaged(x.h, c) && c.mode == Replay && Logged(x, c)
    ensures Logged(x, FinishReplay(c))
  {
    FinishReplayDelivers(c);
    ReplayDelivered(x, c, FinishReplay(c));
  }

  lemma {:induction false} ReplayDelivered(x: Exchange, c: Consumer, d: Consumer)
    requires IsExchange(x) && QueueTrue(x.h, c) && ReplayStaged(x.h, c) && c.mode == Replay && Logged(x, c)
    requires Delivered(c, c.lastApplied + 1, d)
    ensures Logged(x, d)
  {
    if Contiguous(c.queued, c.lastApplied + 1) {
      var b := Read(x, Fresh, c.pushed).base;
      ReadRange(x, b, c.nextExp, c.lastApplied);
      DeliverLogged(x, c, c.lastApplied + 1, b, d);
    }
  }

  lemma {:induction false} FinishSnapshotLogged(x: Exchange, c: Consumer, b: seq<MarketUpdate>, end: MarketUpdate)
    requires IsExchange(x) && QueueTrue(x.h, c) && Logged(x, c)
    requires IsOpenBlock(b) && end.kind.SNAPSHOT_END? && b + [end] in x.blocks && c.staged == b + [end]
    ensures Logged(x, FinishSnapshot(c, end.orderRef + 1))
  {
    BlockDelivered(x, c, b, end, FinishSnapshot(c, end.orderRef + 1));
  }

  lemma {:induction false} BlockDelivered(
      x: Exchange, c: Consumer, b: seq<MarketUpdate>, end: MarketUpdate, d: Consumer)
    requires IsExchange(x) && QueueTrue(x.h, c) && Logged(x, c) && Delivered(c, end.orderRef + 1, d)
    requires IsOpenBlock(b) && end.kind.SNAPSHOT_END? && b + [end] in x.blocks && c.staged == b + [end]
    ensures Logged(x, d)
  {
    if Contiguous(c.queued, end.orderRef + 1) {
      assert (b + [end])[|b|] == end;
      ReadBlock(x, Read(x, Fresh, c.pushed), b, end);
      DeliverLogged(x, c, end.orderRef + 1, 1, d);
    }
  }

  lemma {:induction false} LiveLogged(x: Exchange, c: Consumer, u: MarketUpdate)
    requires IsExchange(x) && FromHistory(x.h, u) && Logged(x, c)
    ensures Logged(x, ProcessIncremental(c, u))
  {
    LivePushes(c, u);
    LivePushLogged(x, c, u, ProcessIncremental(c, u));
  }

  /** A live update is pushed when it is the expected one, or the first. */
  predicate PushedLive(c: Consumer, u: MarketUpdate, d: Consumer) {
    if !c.inRecovery && (c.nextExp == 0 || u.seqNum == c.nextExp)
    then d.pushed == c.pushed + [u] && d.nextExp == u.seqNum + 1
    else d.pushed == c.pushed && d.nextExp == c.nextExp
  }

  lemma {:induction false} LivePushes(c: Consumer, u: MarketUpdate)
    ensures PushedLive(c, u, ProcessIncremental(c, u))
  {
  }

  lemma {:induction false} LivePushLogged(x: Exchange, c: Consumer, u: MarketUpdate, d: Consumer)
    requires IsExchange(x) && FromHistory(x.h, u) && Logged(x, c) && PushedLive(c, u, d)
    ensures Logged(x, d)
  {
    if !c.inRecovery && (c.nextExp == 0 || u.seqNum == c.nextExp) {
      assert IsEntry(x.h, u.seqNum);
      ReadSnoc(x, Fresh, c.pushed, u);
    }
  }

  // ---------------------------------------------------------------------------
  // Every step keeps the invariant

  lemma {:induction false} LiveKeepsInv(x: Exchange, s: System, u: MarketUpdate)
    requires IsExchange(x) && Inv(x, s) && FromHistory(x.h, u)
    ensures Inv(x, Step(s, Live(u)))
  {
    LiveLogged(x, s.c, u);
    StepCoherent(s.c, Live(u));
    LiveBuffered(x, s, u);
  }

  lemma {:induction false} LiveBuffered(x: Exchange, s: System, u: MarketUpdate)
    requires Inv(x, s) && FromHistory(x.h, u)
    ensures var s' := Step(s, Live(u));
      ReplayStaged(x.h, s'.c) && QueueTrue(x.h, s'.c) && SnapshotStaged(s') && Serves(x, s'.sent)
  {
    forall n ensures ServesAt(x, [], n) {}
    if !s.c.inRecovery && s.c.nextExp != 0 && u.seqNum > s.c.nextExp {
      GapBuffered(x.h, s.c, u);
    }
  }

  lemma {:induction false} GapBuffered(h: History, c: Consumer, u: MarketUpdate)
    requires FromHistory(h, u) && !c.inRecovery && 1 <= c.nextExp < u.seqNum && c.queued == map[]
    ensures var d := Enqueue(DetectGap(c, u.seqNum), u);
      ReplayStaged(h, d) && QueueTrue(h, d) && (d.mode == Snapshot ==> !d.haveStart) && d.openCount > c.openCount
  {
  }

  lemma {:induction false} FramesAreRange(h: History, c: Consumer, frames: seq<MarketUpdate>)
    requires ReplayStaged(h, c) && c.mode == Replay && Consecutive(c.lastApplied, frames)
    requires forall i :: 0 <= i < |frames| ==> FromHistory(h, frames[i])
    ensures c.lastApplied + |frames| <= |h|
    ensures c.staged + frames == h[c.nextExp - 1..c.lastApplied + |frames|]
  {
    if frames != [] {
      assert FromHistory(h, frames[|frames| - 1]);
    }
    assert frames == h[c.lastApplied..c.lastApplied + |frames|];
  }

  lemma {:induction false} ReplayLogged(x: Exchange, c: Consumer, status: ReplayStatus, frames: seq<MarketUpdate>)
    requires IsExchange(x) && QueueTrue(x.h, c) && ReplayStaged(x.h, c) && c.mode == Replay && Logged(x, c)
    ensures Logged(x, ProcessReplay(c, status, frames))
  {
    if !c.statusRead && status == Current {
      FinishReplayLogged(x, Close(c.(statusRead := true)));
    } else {
      ReplayPushesNothing(c, status, frames);
      SameLog(x, c, ProcessReplay(c, status, frames));
    }
  }

  lemma {:induction false} ReplayPushesNothing(c: Consumer, status: ReplayStatus, frames: seq<MarketUpdate>)
    requires c.statusRead || status != Current
    ensures var d := ProcessReplay(c, status, frames); d.pushed == c.pushed && d.nextExp == c.nextExp
  {
  }

  lemma {:induction false} SameLog(x: Exchange, c: Consumer, d: Consumer)
    requires Logged(x, c) && d.pushed == c.pushed && d.nextExp == c.nextExp
    ensures Logged(x, d)
  {
  }

  lemma {:induction false} ReplayBuffered(h: History, c: Consumer, status: ReplayStatus, frames: seq<MarketUpdate>)
    requires Coherent(c) && QueueTrue(h, c) && ReplayStaged(h, c) && c.mode == Replay
    requires forall i :: 0 <= i < |frames| ==> FromHistory(h, frames[i])
    ensures var d := ProcessReplay(c, status, frames);
      ReplayStaged(h, d) && QueueTrue(h, d) && !d.haveStart
  {
    if (c.statusRead || status == Granted) && Consecutive(c.lastApplied, frames) {
      FramesAreRange(h, c, frames);
    }
  }

  lemma {:induction false} ReplayKeepsInv(
      x: Exchange, s: System, status: ReplayStatus, frames: seq<MarketUpdate>, rest: bool)
    requires IsExchange(x) && Inv(x, s) && Legal(x, s, ReplayRead(status, frames, rest))
    ensures Inv(x, Step(s, ReplayRead(status, frames, rest)))
  {
    var c := s.c.(leftover := rest);
    ReplayCoherent(c, status, frames);
    ReplayLogged(x, c, status, frames);
    ReplayBuffered(x.h, c, status, frames);
  }

  lemma {:induction false} EofKeepsInv(x: Exchange, s: System)
    requires IsExchange(x) && Inv(x, s) && s.c.inRecovery
    ensures Inv(x, Step(s, Eof))
  {
    StepCoherent(s.c, Eof);
    if s.c.mode == Replay && s.c.statusRead && !s.c.leftover {
      FinishReplayLogged(x, s.c);
    }
  }

  lemma {:induction false} SnapshotMessageLogged(x: Exchange, s: System, u: MarketUpdate)
    requires IsExchange(x) && Inv(x, s) && s.c.mode != Replay && Serves(x, s.sent + [u])
    ensures Logged(x, ProcessSnapshot(s.c, u))
  {
    var c, sent := s.c, s.sent + [u];
    if c.inRecovery && c.haveStart && u.kind.SNAPSHOT_END? {
      assert sent[..|s.sent|] == s.sent;
      assert ServesAt(x, sent, |s.sent|);
      FinishSnapshotLogged(x, c.(staged := c.staged + [u], haveStart := false), c.staged, u);
    }
  }

  lemma {:induction false} SnapshotMessageBuffered(h: History, s: System, u: MarketUpdate)
    requires Coherent(s.c) && s.c.mode != Replay && QueueTrue(h, s.c) && SnapshotStaged(s)
    ensures var d := ProcessSnapshot(s.c, u);
      QueueTrue(h, d) && SnapshotStaged(System(d, s.sent + [u]))
  {
    assert (s.sent + [u])[..|s.sent|] == s.sent;
  }

  lemma {:induction false} SnapshotMessageKeepsInv(x: Exchange, s: System, u: MarketUpdate)
    requires IsExchange(x) && Inv(x, s) && s.c.mode != Replay && Serves(x, s.sent + [u])
    ensures Inv(x, System(ProcessSnapshot(s.c, u), s.sent + [u]))
  {
    SnapshotMessageCoherent(s.c, u);
    SnapshotMessageLogged(x, s, u);
    SnapshotMessageBuffered(x.h, s, u);
  }

  lemma {:induction false} SnapshotReadKeepsInv(x: Exchange, s: System, msgs: seq<MarketUpdate>)
    requires IsExchange(x) && Inv(x, s) && s.c.mode != Replay && Serves(x, s.sent + msgs)
    ensures Inv(x, System(ProcessSnapshots(s.c, msgs), s.sent + msgs))
    decreases |msgs|
  {
    if msgs == [] {
      assert s.sent + msgs == s.sent;
    } else {
      var init, u := msgs[..|msgs| - 1], msgs[|msgs| - 1];
      assert s.sent + msgs == (s.sent + init) + [u];
      ServesPrefix(x, s.sent + init, u);
      SnapshotReadKeepsInv(x, s, init);
      SnapshotsCoherent(s.c, init);
      SnapshotMessageKeepsInv(x, System(ProcessSnapshots(s.c, init), s.sent + init), u);
    }
  }

  lemma {:induction false} ServesPrefix(x: Exchange, sent: seq<MarketUpdate>, u: MarketUpdate)
    requires Serves(x, sent + [u])
    ensures Serves(x, sent)
  {
    forall n: nat ensures ServesAt(x, sent, n) {
      if n < |sent| {
        assert ServesAt(x, sent + [u], n);
        assert (sent + [u])[..n] == sent[..n] && (sent + [u])[n] == sent[n];
      }
    }
  }

  lemma {:induction false} StepKeepsInv(x: Exchange, s: System, e: Event)
    requires IsExchange(x) && Inv(x, s) && Legal(x, s, e)
    ensures Inv(x, Step(s, e))
  {
    match e
    case Live(u) => LiveKeepsInv(x, s, u);
    case SnapshotRead(msgs, rest) =>
      SnapshotReadKeepsInv(x, s.(c := s.c.(leftover := rest)), msgs);
      SnapshotsCoherent(s.c.(leftover := rest), msgs);
    case ReplayRead(status, frames, rest) => ReplayKeepsInv(x, s, status, frames, rest);
    case Eof => EofKeepsInv(x, s);
  }

  lemma {:induction false} BootInv(x: Exchange)
    ensures Inv(x, BOOT)
  {
    forall n ensures ServesAt(x, [], n) {}
  }

  lemma {:induction false} NextKeepsInv(x: Exchange, states: seq<System>, events: seq<Event>, k: nat)
    requires IsExchange(x) && IsRun(x, states, events) && k < |events| && Inv(x, states[k])
    ensures Inv(x, states[k + 1])
  {
    assert StepAt(x, states, events, k);
    StepKeepsInv(x, states[k], events[k]);
  }

  lemma {:induction false} RunKeepsInv(x: Exchange, states: seq<System>, events: seq<Event>, i: nat)
    requires IsExchange(x) && IsRun(x, states, events) && i < |states|
    ensures Inv(x, states[i])
  {
    if i == 0 {
      BootInv(x);
    } else {
      RunKeepsInv(x, states, events, i - 1);
      NextKeepsInv(x, states, events, i - 1);
    }
  }
}
