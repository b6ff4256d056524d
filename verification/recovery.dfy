/**
 The gap-recovery protocol of the market-data consumer, as a state machine over
 already-decoded updates (src/market_data/market_data_incremental.cpp and
 src/market_data/market_data_recovery.cpp).  Module `ConsumerObject` holds the
 imperative form and proves it computes these transitions.
 */
module Recovery {
  import opened Types

  const REPLAY_CAPACITY: nat := 8192

  datatype Mode = NoRecovery | Snapshot | Replay

  /** `conn` is the open TCP connection; `openCount` and `closedLog` record every connection of the
      run.  `pushed` is everything ever pushed to the engine's queue.  `leftover` says that
      undecoded bytes remain in the TCP buffer. */
  datatype Consumer = Consumer(
    nextExp: SeqNum,
    inRecovery: bool,
    haveStart: bool,
    mode: Mode,
    statusRead: bool,
    lastApplied: SeqNum,
    queued: map<SeqNum, MarketUpdate>,
    staged: seq<MarketUpdate>,
    leftover: bool,
    synced: bool,
    conn: Option<nat>,
    openCount: nat,
    closedLog: seq<nat>,
    pushed: seq<MarketUpdate>)

  /** The first byte of a replay response: 'R', 'N', 'C' or anything else. */
  datatype ReplayStatus = Granted | Denied | Current | Unexpected

  /** One action of the consumer thread.  A TCP read carries the messages its bytes decode
      to; the status byte is looked at only when none was read on this connection. */
  datatype Event =
    | Live(u: MarketUpdate)
    | SnapshotRead(msgs: seq<MarketUpdate>, rest: bool)
    | ReplayRead(status: ReplayStatus, frames: seq<MarketUpdate>, rest: bool)
    | Eof

  const INITIAL := Consumer(0, false, false, NoRecovery, false, 0, map[], [], false, false, None, 0, [], [])

  function Open(c: Consumer): Consumer {
    c.(conn := Some(c.openCount), openCount := c.openCount + 1)
  }

  function Close(c: Consumer): Consumer {
    if c.conn.None? then c else c.(conn := None, closedLog := c.closedLog + [c.conn.value])
  }

  function StartSnapshot(c: Consumer): Consumer {
    Open(c.(synced := false, inRecovery := true, mode := Snapshot, haveStart := false,
            queued := map[], staged := [], leftover := false))
  }

  function StartReplay(c: Consumer, clientSeq: SeqNum, anew: bool): Consumer {
    var d := c.(synced := false, inRecovery := true, mode := Replay, statusRead := false,
                lastApplied := clientSeq, leftover := false);
    Open(if anew then d.(queued := map[], staged := []) else d)
  }

  function Abort(c: Consumer): Consumer {
    Close(c.(haveStart := false, queued := map[], staged := [], inRecovery := false,
             synced := false, mode := NoRecovery))
  }

  /** The queued numbers from `resume` on have no hole. */
  predicate Contiguous(q: map<SeqNum, MarketUpdate>, resume: SeqNum) {
    forall k :: k in q && k >= resume ==> forall j :: resume <= j < k ==> j in q
  }

  /** The queued updates numbered resume, resume+1, ... up to the first missing one. */
  function Tail(q: map<SeqNum, MarketUpdate>, resume: SeqNum): seq<MarketUpdate>
    decreases |q|
  {
    if resume !in q then [] else
      assert |q - {resume}| < |q| by { assert (q - {resume}).Keys == q.Keys - {resume}; }
      [q[resume]] + Tail(q - {resume}, resume + 1)
  }

  /** A successful end of recovery: push the staged updates and then the queued ones. */
  function Deliver(c: Consumer, resume: SeqNum): Consumer {
    var tail := Tail(c.queued, resume);
    Close(c.(pushed := c.pushed + c.staged + tail, nextExp := resume + |tail|, queued := map[],
             staged := [], inRecovery := false, synced := true, mode := NoRecovery))
  }

  function FinishSnapshot(c: Consumer, resume: SeqNum): Consumer {
    if Contiguous(c.queued, resume) then Deliver(c, resume) else c.(staged := [])
  }

  function FinishReplay(c: Consumer): Consumer {
    if Contiguous(c.queued, c.lastApplied + 1)
    then Deliver(c, c.lastApplied + 1).(leftover := false)
    else Abort(c)
  }

  function ProcessSnapshot(c: Consumer, u: MarketUpdate): Consumer {
    if !c.inRecovery then c
    else if u.kind.SNAPSHOT_START? then c.(haveStart := true, staged := [u])
    else if !c.haveStart then c
    else
      var d := c.(staged := c.staged + [u]);
      if u.kind.SNAPSHOT_END? then FinishSnapshot(d.(haveStart := false), u.orderRef + 1) else d
  }

  function ProcessSnapshots(c: Consumer, us: seq<MarketUpdate>): Consumer {
    if us == [] then c
    else ProcessSnapshot(ProcessSnapshots(c, us[..|us| - 1]), us[|us| - 1])
  }

  /** The frames are numbered last+1, last+2, ... */
  predicate Consecutive(last: SeqNum, frames: seq<MarketUpdate>) {
    forall i :: 0 <= i < |frames| ==> frames[i].seqNum == last + 1 + i
  }

  /** How many frames come before the first out-of-order one. */
  function InOrder(last: SeqNum, frames: seq<MarketUpdate>): nat
    decreases |frames|
  {
    if frames == [] || frames[0].seqNum != last + 1 then 0 else 1 + InOrder(last + 1, frames[1..])
  }

  function ApplyFrames(c: Consumer, frames: seq<MarketUpdate>): Consumer {
    if Consecutive(c.lastApplied, frames)
    then c.(staged := c.staged + frames, lastApplied := c.lastApplied + |frames|)
    else Abort(c.(lastApplied := c.lastApplied + InOrder(c.lastApplied, frames)))
  }

  function ProcessReplay(c: Consumer, status: ReplayStatus, frames: seq<MarketUpdate>): Consumer {
    if c.statusRead then ApplyFrames(c, frames)
    else
      var d := c.(statusRead := true);
      match status
      case Granted => ApplyFrames(d, frames)
      case Denied => StartSnapshot(Close(d))
      case Current => FinishReplay(Close(d))
      case Unexpected => Abort(d)
  }

  function ProcessEof(c: Consumer): Consumer {
    if c.mode.Replay? && c.statusRead then
      if !c.leftover then FinishReplay(c) else StartReplay(Close(c), c.lastApplied, false)
    else Abort(c)
  }

  function Enqueue(c: Consumer, u: MarketUpdate): Consumer {
    c.(queued := c.queued[u.seqNum := u])
  }

  function DetectGap(c: Consumer, received: SeqNum): Consumer
    requires c.nextExp >= 1 && received > c.nextExp
  {
    if c.inRecovery then c
    else if received - c.nextExp <= REPLAY_CAPACITY
    then StartReplay(c, c.nextExp - 1, true)
    else StartSnapshot(c)
  }

  function ProcessIncremental(c: Consumer, u: MarketUpdate): Consumer {
    if c.inRecovery then Enqueue(c, u)
    else if c.nextExp == 0 || u.seqNum == c.nextExp
    then c.(pushed := c.pushed + [u], nextExp := u.seqNum + 1)
    else if u.seqNum > c.nextExp then Enqueue(DetectGap(c, u.seqNum), u)
    else c
  }

  /** The TCP connection is read only during recovery, and its bytes mean what the mode says. */
  predicate Enabled(c: Consumer, e: Event) {
    match e
    case Live(_) => true
    case SnapshotRead(_, _) => c.mode.Snapshot?
    case ReplayRead(_, _, _) => c.mode.Replay?
    case Eof => c.inRecovery
  }

  function Next(c: Consumer, e: Event): Consumer
    requires Enabled(c, e)
  {
    match e
    case Live(u) => ProcessIncremental(c, u)
    case SnapshotRead(msgs, rest) => ProcessSnapshots(c.(leftover := rest), msgs)
    case ReplayRead(status, frames, rest) => ProcessReplay(c.(leftover := rest), status, frames)
    case Eof => ProcessEof(c)
  }

  // ---------------------------------------------------------------------------
  // The two-pass merge

  lemma {:induction false} TailMembers(q: map<SeqNum, MarketUpdate>, resume: SeqNum)
    ensures var t := Tail(q, resume);
      && (forall k :: resume <= k < resume + |t| ==> k in q && t[k - resume] == q[k])
      && resume + |t| !in q
    decreases |q|
  {
    if resume in q {
      assert (q - {resume}).Keys == q.Keys - {resume};
      TailMembers(q - {resume}, resume + 1);
      var t, r := Tail(q, resume), Tail(q - {resume}, resume + 1);
      forall k | resume <= k < resume + |t| ensures k in q && t[k - resume] == q[k] {
        if k > resume {
          assert k in q - {resume} && r[k - (resume + 1)] == (q - {resume})[k];
        }
      }
    }
  }

  /** The merge succeeds exactly when everything queued at or above `resume` is what it emits,
      so that no queued update is lost or delivered out of order. */
  lemma {:induction false} ContiguousIffTailIsAll(q: map<SeqNum, MarketUpdate>, resume: SeqNum)
    ensures Contiguous(q, resume) <==>
            (forall k :: k in q && k >= resume ==> k < resume + |Tail(q, resume)|)
  {
    TailMembers(q, resume);
    var n := |Tail(q, resume)|;
    if forall k :: k in q && k >= resume ==> k < resume + n {
      forall k, j | k in q && k >= resume && resume <= j < k ensures j in q {
      }
    }
  }
}
