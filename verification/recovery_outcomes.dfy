/**
 How a recovery ends: when a broken replay is asked for again and when it is given up, and when a
 replay or a snapshot succeeds (src/market_data/market_data_recovery.cpp:76-265).
 */
module RecoveryOutcomes {
  import opened Types
  import opened FeedBook
  import opened Recovery
  import opened RecoveryRuns
  import opened RecoveryBoot

  // ---------------------------------------------------------------------------
  // Broken replays

  /** The replay is truncated or out of order: the stream ends before its status, inside a frame or
      short of the queued updates, or a frame does not carry the next number. */
  predicate Breaks(c: Consumer, e: Event) {
    match e
    case Live(_) => false
    case SnapshotRead(_, _) => false
    case ReplayRead(status, frames, _) => (c.statusRead || status == Granted) && !Consecutive(c.lastApplied, frames)
    case Eof => !c.statusRead || c.leftover || !Contiguous(c.queued, c.lastApplied + 1)
  }

  /** A new connection asks for what follows the last applied update, and nothing received is lost. */
  predicate Restarts(c: Consumer, d: Consumer) {
    && d.mode == Replay && d.conn == Some(c.openCount) && d.openCount == c.openCount + 1 && !d.statusRead
    && d.lastApplied == c.lastApplied && d.staged == c.staged && d.queued == c.queued
  }

  /** The recovery ends without success, and the frames and live updates it held are gone. */
  predicate GivesUp(c: Consumer, d: Consumer) {
    && !d.inRecovery && !d.synced && d.conn == None && d.openCount == c.openCount
    && d.staged == [] && d.queued == map[] && d.nextExp == c.nextExp && d.pushed == c.pushed
  }

  /** The documentation says that a truncated or out-of-order replay restarts from the last applied
      number.  A step restarts exactly when the stream ends inside a frame; every other broken replay
      is given up. */
  lemma {:induction false} RestartsIff(c: Consumer, e: Event)
    requires Coherent(c) && Enabled(c, e) && c.mode == Replay
    ensures Restarts(c, Next(c, e)) <==> e.Eof? && c.statusRead && c.leftover
    ensures Breaks(c, e) && !Restarts(c, Next(c, e)) ==> GivesUp(c, Next(c, e))
  {
    match e
    case Live(u) =>
    case SnapshotRead(msgs, rest) =>
    case ReplayRead(status, frames, rest) => ReadNeverRestarts(c, status, frames, rest);
    case Eof =>
  }

  lemma {:induction false} ReadNeverRestarts(c: Consumer, status: ReplayStatus, frames: seq<MarketUpdate>, rest: bool)
    requires Coherent(c) && c.mode == Replay
    ensures var e := ReplayRead(status, frames, rest);
      !Restarts(c, Next(c, e)) && (Breaks(c, e) ==> GivesUp(c, Next(c, e)))
  {
    match status
    case Granted =>
    case Denied =>
    case Current =>
    case Unexpected =>
  }

  const SIX: History := [AddEntry(1), AddEntry(2), AddEntry(3), AddEntry(4), AddEntry(5), AddEntry(6)]
  const SIX_FEED := Exchange(SIX, iset{})

  /** Update 6 arrived where 3 was expected, and a replay from 2 on was asked for. */
  const WAITING := System(
    Consumer(3, true, false, Replay, false, 2, map[6 := AddEntry(6)], [], false, false, Some(1), 2, [0],
             [AddEntry(2)]), [])
  const PART := WAITING.(c := WAITING.c.(statusRead := true, lastApplied := 3, staged := [AddEntry(3)]))
  const GIVEN_UP := System(
    Consumer(3, false, false, NoRecovery, true, 3, map[], [], false, false, None, 2, [0, 1], [AddEntry(2)]), [])

  lemma {:induction false} SixIsTruthful()
    ensures IsTruthful(SIX_FEED)
  {
    forall k ensures IsEntry(SIX, k) {}
  }

  lemma {:induction false} StepsToWaiting()
    ensures Follows(SIX_FEED, BOOT, Eof, CUT)
    ensures Follows(SIX_FEED, CUT, Live(AddEntry(2)), TOOK2)
    ensures Follows(SIX_FEED, TOOK2, Live(AddEntry(6)), WAITING)
  {
  }

  lemma {:induction false} RunExtends(x: Exchange, states: seq<System>, events: seq<Event>, e: Event, s: System)
    requires IsRun(x, states, events) && Follows(x, states[|events|], e, s)
    ensures IsRun(x, states + [s], events + [e])
  {
    forall k: nat ensures StepAt(x, states + [s], events + [e], k) {
      assert StepAt(x, states, events, k);
    }
  }

  lemma {:induction false} RunToWaiting() returns (states: seq<System>, events: seq<Event>)
    ensures IsRun(SIX_FEED, states, events) && |events| == 3 && states[3] == WAITING
  {
    StepsToWaiting();
    events := [Eof, Live(AddEntry(2)), Live(AddEntry(6))];
    states := [BOOT, CUT, TOOK2, WAITING];
    forall k: nat ensures StepAt(SIX_FEED, states, events, k) {
      assert k < 3 ==> k == 0 || k == 1 || k == 2;
    }
  }

  lemma {:induction false} PartOfReplay()
    ensures Follows(SIX_FEED, WAITING, ReplayRead(Granted, [AddEntry(3)], false), PART)
  {
  }

  lemma {:induction false} CutAtFrame()
    ensures Follows(SIX_FEED, PART, Eof, GIVEN_UP)
  {
    assert 6 in PART.c.queued && 4 !in PART.c.queued;
    assert !Contiguous(PART.c.queued, 4);
  }

  lemma {:induction false} FrameOutOfOrder()
    ensures Follows(SIX_FEED, WAITING, ReplayRead(Granted, [AddEntry(3), AddEntry(5)], false), GIVEN_UP)
  {
    OneInOrder();
  }

  lemma {:induction false} OneInOrder()
    ensures var frames := [AddEntry(3), AddEntry(5)]; !Consecutive(2, frames) && InOrder(2, frames) == 1
  {
    var frames := [AddEntry(3), AddEntry(5)];
    assert frames[1].seqNum == 5;
    assert frames[1..] == [AddEntry(5)];
  }

  lemma {:induction false} BothGiveUp()
    ensures Breaks(PART.c, Eof) && GivesUp(PART.c, GIVEN_UP.c)
    ensures Breaks(WAITING.c, ReplayRead(Granted, [AddEntry(3), AddEntry(5)], false)) && GivesUp(WAITING.c, GIVEN_UP.c)
  {
    assert 6 in PART.c.queued && 4 !in PART.c.queued;
    assert [AddEntry(3), AddEntry(5)][1].seqNum == 5;
  }

  /** Of 3, 4 and 5 only 3 comes before the stream ends, between two frames: frame 3 and the queued
      update 6 are dropped and no further replay is asked for. */
  lemma {:induction false} TruncatedReplayGivesUp() returns (states: seq<System>, events: seq<Event>)
    ensures IsTruthful(SIX_FEED) && IsRun(SIX_FEED, states, events) && |events| == 5 && events[4] == Eof
    ensures Breaks(states[4].c, Eof) && GivesUp(states[4].c, states[5].c)
    ensures states[4].c.staged == [AddEntry(3)] && states[4].c.queued == map[6 := AddEntry(6)]
    ensures states[4].c.nextExp == 3 && states[4].c.lastApplied == 3
  {
    SixIsTruthful();
    PartOfReplay();
    CutAtFrame();
    BothGiveUp();
    states, events := RunToWaiting();
    RunExtends(SIX_FEED, states, events, ReplayRead(Granted, [AddEntry(3)], false), PART);
    states, events := states + [PART], events + [ReplayRead(Granted, [AddEntry(3)], false)];
    RunExtends(SIX_FEED, states, events, Eof, GIVEN_UP);
    states, events := states + [GIVEN_UP], events + [Eof];
  }

  /** The same when frame 5 follows frame 3. */
  lemma {:induction false} DisorderedReplayGivesUp() returns (states: seq<System>, events: seq<Event>)
    ensures IsTruthful(SIX_FEED) && IsRun(SIX_FEED, states, events) && |events| == 4
    ensures events[3] == ReplayRead(Granted, [AddEntry(3), AddEntry(5)], false)
    ensures Breaks(states[3].c, events[3]) && GivesUp(states[3].c, states[4].c)
    ensures states[3].c.queued == map[6 := AddEntry(6)] && states[3].c.nextExp == 3 && states[4].c.lastApplied == 3
  {
    SixIsTruthful();
    FrameOutOfOrder();
    BothGiveUp();
    states, events := RunToWaiting();
    var e := ReplayRead(Granted, [AddEntry(3), AddEntry(5)], false);
    RunExtends(SIX_FEED, states, events, e, GIVEN_UP);
    states, events := states + [GIVEN_UP], events + [e];
  }

  // ---------------------------------------------------------------------------
  // Replays that succeed

  /** The replay stays on course: live updates, frames in order, and cuts inside a frame. */
  predicate Proceeds(c: Consumer, e: Event) {
    match e
    case Live(_) => true
    case SnapshotRead(_, _) => false
    case ReplayRead(status, frames, _) => (c.statusRead || status == Granted) && Consecutive(c.lastApplied, frames)
    case Eof => c.statusRead && c.leftover
  }

  /** The end of the stream between frames, or the server saying that there is nothing to send. */
  predicate Finishes(c: Consumer, e: Event) {
    match e
    case Live(_) => false
    case SnapshotRead(_, _) => false
    case ReplayRead(status, _, _) => !c.statusRead && status == Current
    case Eof => c.statusRead && !c.leftover
  }

  /** The frames a replay was sent, over all its connections. */
  function FramesOf(events: seq<Event>): seq<MarketUpdate> {
    if events == [] then []
    else
      var e := events[|events| - 1];
      FramesOf(events[..|events| - 1]) + if e.ReplayRead? then e.frames else []
  }

  /** What is queued after the live updates among the events. */
  function QueueAfter(q: map<SeqNum, MarketUpdate>, events: seq<Event>): map<SeqNum, MarketUpdate> {
    if events == [] then q
    else
      var before, e := QueueAfter(q, events[..|events| - 1]), events[|events| - 1];
      if e.Live? then before[e.u.seqNum := e.u] else before
  }

  /** The consumer at the end of a replay that started in `c` and stayed on course. */
  predicate OnCourse(c: Consumer, events: seq<Event>, d: Consumer) {
    && d.mode == Replay && d.inRecovery && !d.synced && d.nextExp == c.nextExp && d.pushed == c.pushed
    && d.queued == QueueAfter(c.queued, events)
    && d.lastApplied == c.lastApplied + |FramesOf(events)|
  }

  lemma {:induction false} ProceedsOnCourse(c: Consumer, events: seq<Event>, d: Consumer, e: Event)
    requires OnCourse(c, events, d) && Enabled(d, e) && Proceeds(d, e)
    ensures OnCourse(c, events + [e], Next(d, e))
  {
    assert (events + [e])[..|events|] == events;
  }

  lemma {:induction false} FollowsOnCourse(x: Exchange, a: System, events: seq<Event>, s: System, e: Event, s': System)
    requires OnCourse(a.c, events, s.c) && Follows(x, s, e, s') && Proceeds(s.c, e)
    ensures OnCourse(a.c, events + [e], s'.c)
  {
    ProceedsOnCourse(a.c, events, s.c, e);
  }

  lemma {:induction false} StaysOnCourse(x: Exchange, states: seq<System>, events: seq<Event>, i: nat, j: nat)
    requires IsExchange(x) && IsRun(x, states, events) && i <= j <= |events| && states[i].c.mode == Replay
    requires forall k {:trigger events[k]} :: i <= k < j ==> Proceeds(states[k].c, events[k])
    ensures OnCourse(states[i].c, events[i..j], states[j].c)
    decreases j
  {
    if i < j {
      StaysOnCourse(x, states, events, i, j - 1);
      assert StepAt(x, states, events, j - 1);
      assert events[i..j] == events[i..j - 1] + [events[j - 1]];
      FollowsOnCourse(x, states[i], events[i..j - 1], states[j - 1], events[j - 1], states[j]);
    } else {
      RunKeepsInv(x, states, events, i);
    }
  }

  /** `next` is one past `last` and everything queued. */
  predicate Past(q: map<SeqNum, MarketUpdate>, last: SeqNum, next: SeqNum) {
    && last < next && (next == last + 1 || next - 1 in q)
    && forall k :: k in q ==> k < next
  }

  lemma {:induction false} TailIsPast(q: map<SeqNum, MarketUpdate>, last: SeqNum)
    requires Contiguous(q, last + 1)
    ensures Past(q, last, last + 1 + |Tail(q, last + 1)|)
  {
    TailMembers(q, last + 1);
    ContiguousIffTailIsAll(q, last + 1);
  }

  /** The replay of `c` ended in `d`: all that was staged and queued was pushed and the flag is up, or not. */
  predicate Ended(c: Consumer, d: Consumer) {
    && Delivered(c, c.lastApplied + 1, d) && !d.inRecovery
    && (d.synced <==> Contiguous(c.queued, c.lastApplied + 1))
  }

  lemma {:induction false} FinishReplayEnds(c: Consumer)
    ensures Ended(c, FinishReplay(c))
  {
    FinishReplayDelivers(c);
  }

  lemma {:induction false} FinishEnds(c: Consumer, e: Event)
    requires Enabled(c, e) && c.mode == Replay && Finishes(c, e)
    ensures Ended(c, Next(c, e))
  {
    if e.Eof? {
      FinishReplayEnds(c);
    } else {
      var b := Close(c.(leftover := e.rest, statusRead := true));
      FinishReplayEnds(b);
      SameEnd(c, b, FinishReplay(b));
    }
  }

  lemma {:induction false} SameEnd(c: Consumer, b: Consumer, d: Consumer)
    requires b.queued == c.queued && b.staged == c.staged && b.pushed == c.pushed
    requires b.lastApplied == c.lastApplied && b.nextExp == c.nextExp && Ended(b, d)
    ensures Ended(c, d)
  {
  }

  /** However often a replay is cut inside a frame and asked for again, and whatever arrives live in
      the meantime: when it finishes, the consumer is synchronized exactly when the queued updates
      continue the frames without a hole.  It then expects the number after all of them, and has pushed
      every update from the one it had been missing up to there. */
  lemma {:induction false} ReplaySucceedsIff(x: Exchange, states: seq<System>, events: seq<Event>, i: nat, j: nat)
    requires IsExchange(x) && IsRun(x, states, events) && i <= j < |events| && states[i].c.mode == Replay
    requires forall k {:trigger events[k]} :: i <= k < j ==> Proceeds(states[k].c, events[k])
    requires Finishes(states[j].c, events[j])
    ensures SucceedsIff(x.h, states[i].c, events[i..j], states[j + 1].c)
  {
    StaysOnCourse(x, states, events, i, j);
    RunKeepsInv(x, states, events, j);
    assert StepAt(x, states, events, j);
    FinishFollows(x, states[i], events[i..j], states[j], events[j], states[j + 1]);
  }

  /** `d` is how a replay ends that was asked for in `c`. */
  predicate SucceedsIff(h: History, c: Consumer, events: seq<Event>, d: Consumer) {
    var q, last := QueueAfter(c.queued, events), c.lastApplied + |FramesOf(events)|;
    && (d.synced <==> Contiguous(q, last + 1))
    && (d.synced ==>
          && !d.inRecovery && Past(q, last, d.nextExp) && 1 <= c.nextExp <= d.nextExp <= |h| + 1
          && d.pushed == c.pushed + h[c.nextExp - 1..d.nextExp - 1])
  }

  lemma {:induction false} FinishFollows(x: Exchange, a: System, events: seq<Event>, s: System, e: Event, s': System)
    requires Inv(x, s) && OnCourse(a.c, events, s.c) && Follows(x, s, e, s') && Finishes(s.c, e)
    ensures SucceedsIff(x.h, a.c, events, s'.c)
  {
    FinishEnds(s.c, e);
    EndedSucceeds(x.h, a.c, events, s.c, s'.c);
  }

  lemma {:induction false} EndedSucceeds(h: History, a: Consumer, events: seq<Event>, c: Consumer, d: Consumer)
    requires QueueTrue(h, c) && ReplayStaged(h, c) && OnCourse(a, events, c) && Ended(c, d)
    ensures SucceedsIff(h, a, events, d)
  {
    if d.synced {
      TailIsPast(c.queued, c.lastApplied);
      PushedRange(h, c, d);
    }
  }

  lemma {:induction false} PushedRange(h: History, c: Consumer, d: Consumer)
    requires QueueTrue(h, c) && ReplayStaged(h, c) && c.mode == Replay
    requires Ended(c, d) && d.synced
    ensures 1 <= c.nextExp <= d.nextExp <= |h| + 1 && d.pushed == c.pushed + h[c.nextExp - 1..d.nextExp - 1]
  {
    TailIsRange(h, c.queued, c.lastApplied + 1);
    TwoRanges(h, c.nextExp - 1, c.lastApplied, d.nextExp - 1, c.pushed);
  }

  lemma {:induction false} TwoRanges(h: History, a: nat, b: nat, n: nat, before: seq<MarketUpdate>)
    requires a <= b <= n <= |h|
    ensures before + h[a..b] + h[b..n] == before + h[a..n]
  {
    assert h[a..b] + h[b..n] == h[a..n];
  }

  // ---------------------------------------------------------------------------
  // Snapshots that succeed

  /** A block is open after the messages. */
  predicate OpenAfter(open: bool, msgs: seq<MarketUpdate>) {
    if msgs == [] then open
    else
      var u := msgs[|msgs| - 1];
      u.kind.SNAPSHOT_START? || (!u.kind.SNAPSHOT_END? && OpenAfter(open, msgs[..|msgs| - 1]))
  }

  /** Message n is the END of an open block, and the queued updates continue it without a hole. */
  predicate Completes(c: Consumer, msgs: seq<MarketUpdate>, n: nat) {
    && n < |msgs| && msgs[n].kind.SNAPSHOT_END?
    && OpenAfter(c.haveStart, msgs[..n])
    && Contiguous(c.queued, msgs[n].orderRef + 1)
  }

  /** The consumer among the messages of a read: still recovering, or done with message n. */
  ghost predicate Loading(c: Consumer, msgs: seq<MarketUpdate>, d: Consumer) {
    d.inRecovery && !d.synced && d.queued == c.queued && d.haveStart == OpenAfter(c.haveStart, msgs)
    && forall n :: !Completes(c, msgs, n)
  }

  predicate Loaded(c: Consumer, msgs: seq<MarketUpdate>, d: Consumer, n: nat) {
    !d.inRecovery && d.synced && Completes(c, msgs, n) && Past(c.queued, msgs[n].orderRef, d.nextExp)
  }

  lemma {:induction false} CompletesPrefix(c: Consumer, msgs: seq<MarketUpdate>, u: MarketUpdate, n: nat)
    ensures n < |msgs| ==> (Completes(c, msgs + [u], n) <==> Completes(c, msgs, n))
    ensures Completes(c, msgs + [u], |msgs|) <==>
            u.kind.SNAPSHOT_END? && OpenAfter(c.haveStart, msgs) && Contiguous(c.queued, u.orderRef + 1)
  {
    assert (msgs + [u])[..|msgs|] == msgs;
    if n < |msgs| {
      assert (msgs + [u])[..n] == msgs[..n] && (msgs + [u])[n] == msgs[n];
    }
  }

  lemma {:induction false} LoadOne(c: Consumer, msgs: seq<MarketUpdate>, d: Consumer, u: MarketUpdate)
    requires Loading(c, msgs, d)
    ensures var e := ProcessSnapshot(d, u);
      Loading(c, msgs + [u], e) || Loaded(c, msgs + [u], e, |msgs|)
  {
    assert (msgs + [u])[..|msgs|] == msgs;
    CompletesPrefix(c, msgs, u, 0);
    if Completes(c, msgs + [u], |msgs|) {
      TailIsPast(c.queued, u.orderRef);
    } else {
      forall n: nat ensures !Completes(c, msgs + [u], n) { CompletesPrefix(c, msgs, u, n); }
    }
  }

  lemma {:induction false} LoadAll(c: Consumer, msgs: seq<MarketUpdate>) returns (n: nat)
    requires c.inRecovery && !c.synced
    ensures var d := ProcessSnapshots(c, msgs); Loading(c, msgs, d) || Loaded(c, msgs, d, n)
    decreases |msgs|
  {
    n := 0;
    if msgs != [] {
      var init, u := msgs[..|msgs| - 1], msgs[|msgs| - 1];
      assert msgs == init + [u];
      n := LoadAll(c, init);
      var d := ProcessSnapshots(c, init);
      if Loading(c, init, d) {
        LoadOne(c, init, d, u);
        n := |init|;
      } else {
        CompletesPrefix(c, init, u, n);
      }
    }
  }

  /** A read of snapshot messages ends the recovery exactly when one of them is the END of an open block
      that the queued updates continue without a hole; the consumer then expects the number after that
      END and everything queued. */
  lemma {:induction false} SnapshotSucceedsIff(c: Consumer, msgs: seq<MarketUpdate>, rest: bool)
    requires Coherent(c) && c.mode == Snapshot
    ensures var d := Next(c, SnapshotRead(msgs, rest));
      && (d.synced <==> exists n: nat :: Completes(c, msgs, n))
      && (d.synced ==> exists n: nat :: Completes(c, msgs, n) && Past(c.queued, msgs[n].orderRef, d.nextExp))
  {
    var b := c.(leftover := rest);
    var n := LoadAll(b, msgs);
    forall m: nat ensures Completes(b, msgs, m) <==> Completes(c, msgs, m) {}
  }
}
