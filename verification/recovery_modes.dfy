/**
 Which way each event takes the recovery: the mode it leads to, what happens to the connection, what the
 next request asks for, and when the synchronized flag goes up or down
 (src/market_data/market_data_incremental.cpp:5-44, src/market_data/market_data_recovery.cpp:7-265).
 */
module RecoveryModes {
  import opened Types
  import opened FeedBook
  import opened Recovery
  import opened RecoveryRuns
  import opened RecoveryOutcomes

  /** The live update leaves a gap behind the number expected next. */
  predicate IsGap(c: Consumer, u: MarketUpdate) {
    c.mode == NoRecovery && 0 < c.nextExp < u.seqNum
  }

  /** A gap of up to this many numbers is asked for as a replay. */
  const WINDOW := 8192

  /** The mode that the event leads to. */
  ghost function ModeAfter(c: Consumer, e: Event): Mode {
    match e
    case Live(u) =>
      if !IsGap(c, u) then c.mode else if u.seqNum <= c.nextExp + WINDOW then Replay else Snapshot
    case SnapshotRead(msgs, _) => if exists n: nat :: Completes(c, msgs, n) then NoRecovery else Snapshot
    case ReplayRead(status, frames, _) =>
      if c.statusRead || status == Granted then (if Consecutive(c.lastApplied, frames) then Replay else NoRecovery)
      else if status == Denied then Snapshot
      else NoRecovery
    case Eof => if c.mode == Replay && c.statusRead && c.leftover then Replay else NoRecovery
  }

  /** A recovery goes on over a new connection: its replay was denied, or cut inside a frame. */
  predicate AsksAgain(c: Consumer, e: Event) {
    c.mode == Replay &&
    match e
    case ReplayRead(status, _, _) => !c.statusRead && status == Denied
    case Eof => c.statusRead && c.leftover
    case _ => false
  }

  /** The old connection, if there was one, is the next to be closed; the new one, if there is one, is the
      next to be opened. */
  predicate Connected(c: Consumer, closes: bool, opens: bool, d: Consumer) {
    && d.closedLog == c.closedLog + (if closes && c.conn.Some? then [c.conn.value] else [])
    && d.openCount == c.openCount + (if opens then 1 else 0)
    && d.conn == if opens then Some(c.openCount) else if closes then None else c.conn
  }

  /** Where the event leads, apart from what is staged, queued and pushed. */
  ghost predicate LeadsTo(c: Consumer, e: Event, d: Consumer) {
    && d.mode == ModeAfter(c, e) && (d.inRecovery <==> d.mode != NoRecovery)
    && Connected(c, c.inRecovery && (!d.inRecovery || AsksAgain(c, e)),
                 d.inRecovery && (!c.inRecovery || AsksAgain(c, e)), d)
  }

  lemma {:induction false} LiveLeadsTo(c: Consumer, u: MarketUpdate)
    requires Coherent(c)
    ensures LeadsTo(c, Live(u), Next(c, Live(u)))
  {
    assert c.closedLog + [] == c.closedLog;
  }

  lemma {:induction false} SnapshotLeadsTo(c: Consumer, msgs: seq<MarketUpdate>, rest: bool)
    requires Coherent(c) && c.mode == Snapshot
    ensures LeadsTo(c, SnapshotRead(msgs, rest), Next(c, SnapshotRead(msgs, rest)))
  {
    var b := c.(leftover := rest);
    SnapshotSucceedsIff(c, msgs, rest);
    SnapshotsCoherent(b, msgs);
    SnapshotsConnected(b, msgs);
  }

  lemma {:induction false} SnapshotConnected(c: Consumer, u: MarketUpdate)
    requires Coherent(c) && c.mode != Replay
    ensures var d := ProcessSnapshot(c, u);
      Connected(c, !d.inRecovery, false, d) && (!c.inRecovery ==> d == c) && (d.inRecovery || !c.inRecovery || d.synced)
  {
    assert c.closedLog + [] == c.closedLog;
  }

  lemma {:induction false} SnapshotsConnected(c: Consumer, msgs: seq<MarketUpdate>)
    requires Coherent(c) && c.mode == Snapshot
    ensures var d := ProcessSnapshots(c, msgs); Connected(c, !d.inRecovery, false, d) && (d.inRecovery || d.synced)
    decreases |msgs|
  {
    assert c.closedLog + [] == c.closedLog;
    if msgs != [] {
      var init := msgs[..|msgs| - 1];
      SnapshotsConnected(c, init);
      SnapshotsCoherent(c, init);
      SnapshotConnected(ProcessSnapshots(c, init), msgs[|msgs| - 1]);
    }
  }

  lemma {:induction false} ReplayLeadsTo(c: Consumer, status: ReplayStatus, frames: seq<MarketUpdate>, rest: bool)
    requires Coherent(c) && c.mode == Replay
    ensures LeadsTo(c, ReplayRead(status, frames, rest), Next(c, ReplayRead(status, frames, rest)))
  {
    assert c.closedLog + [] == c.closedLog;
    if c.statusRead || status == Granted {
      FramesLeadTo(c, status, frames, rest);
    } else {
      match status
      case Denied =>
      case Current => CurrentLeadsTo(c, frames, rest);
      case Unexpected =>
    }
  }

  lemma {:induction false} FramesLeadTo(c: Consumer, status: ReplayStatus, frames: seq<MarketUpdate>, rest: bool)
    requires Coherent(c) && c.mode == Replay && (c.statusRead || status == Granted)
    ensures LeadsTo(c, ReplayRead(status, frames, rest), Next(c, ReplayRead(status, frames, rest)))
  {
    assert c.closedLog + [] == c.closedLog;
  }

  lemma {:induction false} CurrentLeadsTo(c: Consumer, frames: seq<MarketUpdate>, rest: bool)
    requires Coherent(c) && c.mode == Replay && !c.statusRead
    ensures LeadsTo(c, ReplayRead(Current, frames, rest), Next(c, ReplayRead(Current, frames, rest)))
  {
  }

  lemma {:induction false} EofLeadsTo(c: Consumer)
    requires Coherent(c) && c.inRecovery
    ensures LeadsTo(c, Eof, Next(c, Eof))
  {
    if c.mode == Replay && c.statusRead && !c.leftover {
      FinishLeadsTo(c);
    }
  }

  lemma {:induction false} FinishLeadsTo(c: Consumer)
    requires Coherent(c) && c.mode == Replay && c.statusRead && !c.leftover
    ensures LeadsTo(c, Eof, Next(c, Eof))
  {
  }

  /** Event by event, from any coherent consumer, whatever the server sends: the mode afterwards, and which
      connection is closed and which opened. */
  lemma {:induction false} EventLeadsTo(c: Consumer, e: Event)
    requires Coherent(c) && Enabled(c, e)
    ensures LeadsTo(c, e, Next(c, e))
  {
    match e
    case Live(u) => LiveLeadsTo(c, u);
    case SnapshotRead(msgs, rest) => SnapshotLeadsTo(c, msgs, rest);
    case ReplayRead(status, frames, rest) => ReplayLeadsTo(c, status, frames, rest);
    case Eof => EofLeadsTo(c);
  }

  // ---------------------------------------------------------------------------
  // Denials, gaps and old updates

  /** A denied replay is escalated: the consumer goes on recovering, asking for a snapshot on the next
      connection, and nothing is pushed. */
  lemma {:induction false} DenialEscalates(c: Consumer, frames: seq<MarketUpdate>, rest: bool)
    requires Coherent(c) && c.mode == Replay && !c.statusRead
    ensures var d := Next(c, ReplayRead(Denied, frames, rest));
      && d.inRecovery && d.mode == Snapshot && !d.haveStart && d.staged == [] && d.queued == map[]
      && c.conn.Some? && d.closedLog == c.closedLog + [c.conn.value]
      && d.conn == Some(c.openCount) && d.openCount == c.openCount + 1
      && d.pushed == c.pushed && d.nextExp == c.nextExp
  {
    EventLeadsTo(c, ReplayRead(Denied, frames, rest));
  }

  /** A gap asks for what follows the last update taken, or for a snapshot when it is too wide, and keeps the
      update that showed it. */
  lemma {:induction false} GapAsks(c: Consumer, u: MarketUpdate)
    requires Coherent(c) && IsGap(c, u)
    ensures var d := Next(c, Live(u));
      && d.queued == map[u.seqNum := u] && d.staged == [] && d.pushed == c.pushed && d.nextExp == c.nextExp
      && (u.seqNum - c.nextExp <= WINDOW ==> d.mode == Replay && !d.statusRead && d.lastApplied == c.nextExp - 1)
      && (u.seqNum - c.nextExp > WINDOW ==> d.mode == Snapshot && !d.haveStart)
  {
    EventLeadsTo(c, Live(u));
  }

  /** Outside recovery an update that was taken before changes nothing; during recovery an update only joins
      the queue, in place of an earlier one of its number. */
  lemma {:induction false} LiveIsHarmless(c: Consumer, u: MarketUpdate)
    requires Coherent(c)
    ensures !c.inRecovery && u.seqNum < c.nextExp ==> Next(c, Live(u)) == c
    ensures c.inRecovery ==> var d := Next(c, Live(u));
      && d.(queued := c.queued) == c && u.seqNum in d.queued && d.queued[u.seqNum] == u
      && d.queued - {u.seqNum} == c.queued - {u.seqNum}
  {
  }

  // ---------------------------------------------------------------------------
  // The synchronized flag

  /** The event ends a recovery with success. */
  ghost predicate Succeeds(c: Consumer, e: Event) {
    match e
    case Live(_) => false
    case SnapshotRead(msgs, _) => exists n: nat :: Completes(c, msgs, n)
    case ReplayRead(_, _, _) => Finishes(c, e) && Contiguous(c.queued, c.lastApplied + 1)
    case Eof => c.mode == Replay && Finishes(c, e) && Contiguous(c.queued, c.lastApplied + 1)
  }

  /** Whatever happens, the flag is up after an event exactly when the event ended a recovery with success,
      or when it was up and no gap opened. */
  lemma {:induction false} SyncedIff(c: Consumer, e: Event)
    requires Coherent(c) && Enabled(c, e)
    ensures Next(c, e).synced <==> Succeeds(c, e) || (c.synced && ModeAfter(c, e) == NoRecovery)
  {
    match e
    case Live(u) =>
    case SnapshotRead(msgs, rest) => SnapshotSucceedsIff(c, msgs, rest);
    case ReplayRead(status, frames, rest) => ReplaySyncedIff(c, e);
    case Eof => EofSyncedIff(c);
  }

  lemma {:induction false} ReplaySyncedIff(c: Consumer, e: Event)
    requires Coherent(c) && c.mode == Replay && e.ReplayRead?
    ensures Next(c, e).synced <==> Succeeds(c, e)
  {
    if Finishes(c, e) {
      FinishEnds(c, e);
    }
  }

  lemma {:induction false} EofSyncedIff(c: Consumer)
    requires Coherent(c) && c.inRecovery
    ensures Next(c, Eof).synced <==> Succeeds(c, Eof)
  {
    if c.mode == Replay && Finishes(c, Eof) {
      FinishEnds(c, Eof);
    }
  }
}
