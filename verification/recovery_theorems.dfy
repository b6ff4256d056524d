/**
 What the recovery protocol guarantees, run by run, and exactly where it falls short of what
 the design promises.
 */
module RecoveryTheorems {
  import opened Types
  import opened FeedBook
  import opened Recovery
  import opened RecoveryRuns

  // ---------------------------------------------------------------------------
  // What the reader of the queue knows

  predicate HasStart(us: seq<MarketUpdate>) {
    exists i :: 0 <= i < |us| && us[i].kind.SNAPSHOT_START?
  }

  /** The first history entry the pushed updates account for: 1 once a snapshot was delivered. */
  function Baseline(us: seq<MarketUpdate>): SeqNum {
    if us == [] || HasStart(us) then 1 else us[0].seqNum
  }

  /** What position `r` says about the view `v` of ticker `t`. */
  ghost predicate Means(t: TickerId, h: History, r: Reader, v: View) {
    match r
    case Fresh => v == EMPTY
    case InBlock(b) => b != [] && b[0].kind.SNAPSHOT_START? && v == Fold(t, EMPTY, b) && v.inSnapshot
    case At(b, n) => 1 <= b <= n <= |h| + 1 && v == Fold(t, EMPTY, h[b - 1..n - 1]) && !v.inSnapshot
    case Broken => true
  }

  lemma {:induction false} FoldSnoc(t: TickerId, v: View, us: seq<MarketUpdate>, u: MarketUpdate)
    ensures Fold(t, v, us + [u]) == Apply(t, Fold(t, v, us), u)
  {
    assert (us + [u])[..|us|] == us;
  }

  lemma {:induction false} EndMeans(t: TickerId, x: Exchange, b: seq<MarketUpdate>, u: MarketUpdate)
    requires IsTruthful(x) && u.kind.SNAPSHOT_END? && b + [u] in x.blocks
    ensures Means(t, x.h, At(1, u.orderRef + 1), Apply(t, Fold(t, EMPTY, b), u))
  {
    FoldSnoc(t, EMPTY, b, u);
    assert (b + [u])[|b|] == u;
    assert Faithful(x.h, b + [u]);
    assert x.h[0..u.orderRef] == x.h[..u.orderRef];
  }

  lemma {:induction false} EntryMeans(t: TickerId, h: History, b: SeqNum, n: SeqNum, v: View)
    requires IsHistory(h) && 1 <= b <= n <= |h| && v == Fold(t, EMPTY, h[b - 1..n - 1]) && !v.inSnapshot
    ensures Means(t, h, At(b, n + 1), Apply(t, v, h[n - 1]))
  {
    assert IsEntry(h, n);
    FoldNext(t, h, b, n - 1);
  }

  lemma {:induction false} StartMeans(t: TickerId, h: History, v: View, u: MarketUpdate)
    requires u.kind.SNAPSHOT_START?
    ensures Means(t, h, InBlock([u]), Apply(t, v, u))
  {
    FoldSnoc(t, EMPTY, [], u);
    assert [] + [u] == [u];
  }

  lemma {:induction false} InsideMeans(t: TickerId, h: History, b: seq<MarketUpdate>, v: View, u: MarketUpdate)
    requires Means(t, h, InBlock(b), v) && !u.kind.SNAPSHOT_START? && !u.kind.SNAPSHOT_END?
    ensures Means(t, h, InBlock(b + [u]), Apply(t, v, u))
  {
    FoldSnoc(t, EMPTY, b, u);
  }

  lemma {:induction false} FirstMeans(t: TickerId, h: History, n: SeqNum)
    requires IsHistory(h) && 1 <= n <= |h|
    ensures Means(t, h, At(n, n + 1), Apply(t, EMPTY, h[n - 1]))
  {
    assert h[n - 1..n - 1] == [];
    EntryMeans(t, h, n, n, EMPTY);
  }

  lemma {:induction false} ReadOneMeans(
      t: TickerId, x: Exchange, r: Reader, v: View, u: MarketUpdate, r': Reader, v': View)
    requires IsTruthful(x) && Means(t, x.h, r, v)
    requires r' == ReadOne(x, r, u) && v' == Apply(t, v, u)
    ensures Means(t, x.h, r', v')
  {
    if r.InBlock? {
      ReadInsideMeans(t, x, r, v, u, r', v');
    } else if !r.Broken? {
      ReadOutsideMeans(t, x, r, v, u, r', v');
    }
  }

  lemma {:induction false} ReadInsideMeans(
      t: TickerId, x: Exchange, r: Reader, v: View, u: MarketUpdate, r': Reader, v': View)
    requires IsTruthful(x) && Means(t, x.h, r, v) && r.InBlock?
    requires r' == ReadOne(x, r, u) && v' == Apply(t, v, u)
    ensures Means(t, x.h, r', v')
  {
    if r'.InBlock? {
      InsideMeans(t, x.h, r.block, v, u);
    } else if r'.At? {
      EndMeans(t, x, r.block, u);
    }
  }

  lemma {:induction false} ReadOutsideMeans(
      t: TickerId, x: Exchange, r: Reader, v: View, u: MarketUpdate, r': Reader, v': View)
    requires IsTruthful(x) && Means(t, x.h, r, v) && (r.Fresh? || r.At?)
    requires r' == ReadOne(x, r, u) && v' == Apply(t, v, u)
    ensures Means(t, x.h, r', v')
  {
    if r'.InBlock? {
      StartMeans(t, x.h, v, u);
    } else if r'.At? {
      ReadsEntry(x, r, u);
      if r.Fresh? {
        FirstMeans(t, x.h, u.seqNum);
      } else {
        EntryMeans(t, x.h, r.base, r.next, v);
      }
    }
  }

  lemma {:induction false} ReadsEntry(x: Exchange, r: Reader, u: MarketUpdate)
    requires (r.Fresh? || r.At?) && ReadOne(x, r, u).At?
    ensures 1 <= u.seqNum <= |x.h| && u == x.h[u.seqNum - 1] && (r.At? ==> u.seqNum == r.next)
    ensures ReadOne(x, r, u) == At(if r.At? then r.base else u.seqNum, u.seqNum + 1)
  {
  }

  lemma {:induction false} ReadMeans(t: TickerId, x: Exchange, us: seq<MarketUpdate>)
    requires IsTruthful(x)
    ensures Means(t, x.h, Read(x, Fresh, us), Fold(t, EMPTY, us))
    decreases |us|
  {
    if us != [] {
      var vs, u := us[..|us| - 1], us[|us| - 1];
      ReadMeans(t, x, vs);
      ReadOneMeans(t, x, Read(x, Fresh, vs), Fold(t, EMPTY, vs), u, Read(x, Fresh, us), Fold(t, EMPTY, us));
    }
  }

  lemma {:induction false} ReadPrefix(x: Exchange, us: seq<MarketUpdate>, p: nat)
    requires p <= |us| && !Read(x, Fresh, us).Broken?
    ensures !Read(x, Fresh, us[..p]).Broken?
    decreases |us|
  {
    if p == |us| {
      assert us[..p] == us;
    } else {
      ReadPrefix(x, us[..|us| - 1], p);
      assert us[..|us| - 1][..p] == us[..p];
    }
  }

  lemma {:induction false} ReadBase(x: Exchange, us: seq<MarketUpdate>)
    requires us != []
    ensures Read(x, Fresh, us).At? ==> Read(x, Fresh, us).base == Baseline(us)
    ensures Read(x, Fresh, us).InBlock? ==> HasStart(us)
    decreases |us|
  {
    var vs, u := us[..|us| - 1], us[|us| - 1];
    if vs == [] {
      assert us[0] == u && Read(x, Fresh, us) == ReadOne(x, Fresh, u);
      assert u.kind.SNAPSHOT_START? ==> HasStart(us);
    } else {
      ReadBase(x, vs);
      assert HasStart(us) <==> HasStart(vs) || u.kind.SNAPSHOT_START? by {
        if HasStart(vs) {
          var i :| 0 <= i < |vs| && vs[i].kind.SNAPSHOT_START?;
          assert us[i].kind.SNAPSHOT_START?;
        }
        if HasStart(us) {
          var i :| 0 <= i < |us| && us[i].kind.SNAPSHOT_START?;
          assert i < |vs| ==> vs[i].kind.SNAPSHOT_START?;
        }
      }
    }
  }

  // ---------------------------------------------------------------------------
  // The main theorem

  /** In every reachable state, for every ticker: reading everything pushed so far gives exactly
      the orders of history entries Baseline..nextExp-1, and reading any part of it outside a
      snapshot block gives the orders of Baseline'..k for some k. */
  lemma {:induction false} PushedBookIsTrue(x: Exchange, states: seq<System>, events: seq<Event>, i: nat, t: TickerId)
    requires IsTruthful(x) && IsRun(x, states, events) && i < |states|
    ensures var c := states[i].c; var b := Baseline(c.pushed);
      if c.nextExp == 0 then c.pushed == []
      else 1 <= b <= c.nextExp <= |x.h| + 1 && Fold(t, EMPTY, c.pushed) == Fold(t, EMPTY, x.h[b - 1..c.nextExp - 1])
  {
    RunKeepsInv(x, states, events, i);
    var us := states[i].c.pushed;
    ReadMeans(t, x, us);
    if us != [] {
      ReadBase(x, us);
      NotFreshAgain(x, us);
    }
  }

  lemma {:induction false} NotFreshAgain(x: Exchange, us: seq<MarketUpdate>)
    requires us != []
    ensures !Read(x, Fresh, us).Fresh?
  {
  }

  /** The view is the orders of history entries b..k. */
  ghost predicate HoldsEntries(t: TickerId, h: History, b: SeqNum, k: nat, v: View) {
    1 <= b <= k + 1 <= |h| + 1 && v == Fold(t, EMPTY, h[b - 1..k])
  }

  /** Whatever prefix of the queue the engine has consumed, outside a snapshot block its book is
      the orders of the history from the prefix's baseline up to some entry: the exchange's own book
      as soon as the prefix holds a snapshot or began with update 1. */
  lemma {:induction false} EveryPrefixIsTrue(
      x: Exchange, states: seq<System>, events: seq<Event>, i: nat, t: TickerId, p: nat)
    requires IsTruthful(x) && IsRun(x, states, events) && i < |states|
    requires p <= |states[i].c.pushed|
    ensures var us := states[i].c.pushed[..p]; var v := Fold(t, EMPTY, us);
      v.inSnapshot || exists k :: HoldsEntries(t, x.h, Baseline(us), k, v)
    ensures var us := states[i].c.pushed[..p]; var v := Fold(t, EMPTY, us);
      Baseline(us) == 1 && !v.inSnapshot ==> exists k :: 0 <= k <= |x.h| && v == TrueView(t, x.h, k)
  {
    var us := states[i].c.pushed;
    RunKeepsInv(x, states, events, i);
    ReadPrefix(x, us, p);
    PrefixMeans(x, us[..p], t);
  }

  lemma {:induction false} PrefixMeans(x: Exchange, us: seq<MarketUpdate>, t: TickerId)
    requires IsTruthful(x) && !Read(x, Fresh, us).Broken?
    ensures var v := Fold(t, EMPTY, us);
      v.inSnapshot || exists k :: HoldsEntries(t, x.h, Baseline(us), k, v)
    ensures var v := Fold(t, EMPTY, us);
      Baseline(us) == 1 && !v.inSnapshot ==> exists k :: 0 <= k <= |x.h| && v == TrueView(t, x.h, k)
  {
    ReadMeans(t, x, us);
    if us == [] {
      assert x.h[0..0] == [] && x.h[..0] == [];
      assert Fold(t, EMPTY, us) == TrueView(t, x.h, 0) && HoldsEntries(t, x.h, Baseline(us), 0, Fold(t, EMPTY, us));
    } else {
      ReadBase(x, us);
      NotFreshAgain(x, us);
      var r := Read(x, Fresh, us);
      if r.At? {
        assert HoldsEntries(t, x.h, r.base, r.next - 1, Fold(t, EMPTY, us));
        assert r.base == 1 ==> x.h[0..r.next - 1] == x.h[..r.next - 1];
        assert r.base == 1 ==> Fold(t, EMPTY, us) == TrueView(t, x.h, r.next - 1);
      }
    }
  }

  // ---------------------------------------------------------------------------
  // Properties that need no trust in the network or the server

  ghost predicate IsAnyRun(states: seq<Consumer>, events: seq<Event>) {
    && |states| == |events| + 1
    && states[0] == BOOT.c
    && forall i {:trigger events[i]} :: 0 <= i < |events| ==>
       Enabled(states[i], events[i]) && states[i + 1] == Next(states[i], events[i])
  }

  lemma {:induction false} AnyRunCoherent(states: seq<Consumer>, events: seq<Event>, i: nat)
    requires IsAnyRun(states, events) && i < |states|
    ensures Coherent(states[i])
  {
    if i > 0 {
      AnyRunCoherent(states, events, i - 1);
      StepCoherent(states[i - 1], events[i - 1]);
    }
  }

  /** What a step may do to the queue: append, and only by completing a recovery. */
  predicate PushesOnSuccess(c: Consumer, d: Consumer) {
    && c.pushed <= d.pushed
    && (d.inRecovery ==> d.pushed == c.pushed && d.nextExp == c.nextExp)
    && (!d.inRecovery && !d.synced ==> d.pushed == c.pushed && d.nextExp == c.nextExp)
  }

  lemma {:induction false} DeliverExtends(c: Consumer, resume: SeqNum)
    ensures PushesOnSuccess(c, Deliver(c, resume))
  {
    assert c.pushed + c.staged + Tail(c.queued, resume) == c.pushed + (c.staged + Tail(c.queued, resume));
  }

  lemma {:induction false} FinishSnapshotExtends(c: Consumer, resume: SeqNum)
    requires c.inRecovery
    ensures var d := FinishSnapshot(c, resume); PushesOnSuccess(c, d) && (!d.inRecovery ==> d.synced)
  {
    DeliverExtends(c, resume);
  }

  lemma {:induction false} SnapshotPushesOnSuccess(c: Consumer, u: MarketUpdate)
    requires c.inRecovery
    ensures var d := ProcessSnapshot(c, u); PushesOnSuccess(c, d) && (!d.inRecovery ==> d.synced)
  {
    if c.haveStart && u.kind.SNAPSHOT_END? {
      FinishSnapshotExtends(c.(staged := c.staged + [u], haveStart := false), u.orderRef + 1);
    }
  }

  lemma {:induction false} SnapshotsPushOnSuccess(c: Consumer, msgs: seq<MarketUpdate>)
    requires c.inRecovery
    ensures var d := ProcessSnapshots(c, msgs); PushesOnSuccess(c, d) && (!d.inRecovery ==> d.synced)
    decreases |msgs|
  {
    if msgs != [] {
      var d, u := ProcessSnapshots(c, msgs[..|msgs| - 1]), msgs[|msgs| - 1];
      SnapshotsPushOnSuccess(c, msgs[..|msgs| - 1]);
      if d.inRecovery {
        SnapshotPushesOnSuccess(d, u);
      }
    }
  }

  lemma {:induction false} FinishReplayPushOnSuccess(c: Consumer)
    ensures PushesOnSuccess(c, FinishReplay(c))
  {
    DeliverExtends(c, c.lastApplied + 1);
  }

  lemma {:induction false} ReplayPushOnSuccess(c: Consumer, status: ReplayStatus, frames: seq<MarketUpdate>)
    requires c.inRecovery
    ensures PushesOnSuccess(c, ProcessReplay(c, status, frames))
  {
    if !c.statusRead && status == Current {
      FinishReplayPushOnSuccess(Close(c.(statusRead := true)));
    }
  }

  /** Aborts, denials, cuts, restarts and failed merges push nothing and leave the expected
      number alone: during recovery the queue grows, or the number moves, only when the
      recovery completes. */
  lemma {:induction false} PushOnlyOnSuccess(c: Consumer, e: Event)
    requires Enabled(c, e) && c.inRecovery
    ensures PushesOnSuccess(c, Next(c, e))
  {
    match e
    case Live(u) =>
    case SnapshotRead(msgs, rest) => SnapshotsPushOnSuccess(c.(leftover := rest), msgs);
    case ReplayRead(status, frames, rest) => ReplayPushOnSuccess(c.(leftover := rest), status, frames);
    case Eof => FinishReplayPushOnSuccess(c);
  }

  /** Reading a START without its END. */
  predicate Inside(us: seq<MarketUpdate>) {
    if us == [] then false
    else
      var u := us[|us| - 1];
      u.kind.SNAPSHOT_START? || (!u.kind.SNAPSHOT_END? && Inside(us[..|us| - 1]))
  }

  function After(u: MarketUpdate): SeqNum {
    if u.kind.SNAPSHOT_END? then u.orderRef + 1 else u.seqNum + 1
  }

  /** Update p of the log is in place: no START inside a block, no other marker outside one, and
      an incremental continues the number before it or the END just delivered. */
  predicate InPlace(us: seq<MarketUpdate>, p: nat)
    requires p < |us|
  {
    var u, inside := us[p], Inside(us[..p]);
    && (u.kind.SNAPSHOT_START? ==> !inside)
    && (u.kind.SNAPSHOT_CLEAR? || u.kind.SNAPSHOT_END? ==> inside)
    && (p > 0 && !u.IsMarker() && !inside ==> u.seqNum == After(us[p - 1]))
  }

  lemma {:induction false} ReadInPlace(x: Exchange, us: seq<MarketUpdate>, p: nat)
    requires !Read(x, Fresh, us).Broken? && p <= |us|
    ensures Read(x, Fresh, us).InBlock? == Inside(us)
    ensures us != [] ==> Read(x, Fresh, us).At? || Read(x, Fresh, us).InBlock?
    ensures us != [] && Read(x, Fresh, us).At? ==> Read(x, Fresh, us).next == After(us[|us| - 1])
    ensures p < |us| ==> InPlace(us, p)
    decreases |us|
  {
    if us != [] {
      var vs := us[..|us| - 1];
      ReadInPlace(x, vs, if p < |vs| then p else 0);
      if p < |vs| {
        assert us[..p] == vs[..p];
      }
    }
  }

  /** All or nothing: whatever the server sends, snapshots enter the queue only as complete
      blocks, and incrementals outside them are consecutive. */
  lemma {:induction false} LogIsInPlace(x: Exchange, states: seq<System>, events: seq<Event>, i: nat, p: nat)
    requires IsExchange(x) && IsRun(x, states, events) && i < |states|
    ensures !Inside(states[i].c.pushed)
    ensures p < |states[i].c.pushed| ==> InPlace(states[i].c.pushed, p)
  {
    RunKeepsInv(x, states, events, i);
    var us := states[i].c.pushed;
    ReadInPlace(x, us, if p < |us| then p else 0);
  }

  // ---------------------------------------------------------------------------
  // Live data received during recovery

  /** Every queued update is still queued or accounted for. */
  predicate Kept(c: Consumer, d: Consumer) {
    forall k :: k in c.queued ==> k in d.queued || k < d.nextExp
  }

  /** The branches that clear the queue: a denial, an unexpected status, a frame out of order,
      a stream that ends too early, a replay that ends before the queue continues it. */
  predicate Discards(c: Consumer, e: Event) {
    match e
    case Live(_) => false
    case SnapshotRead(_, _) => false
    case ReplayRead(status, frames, _) =>
      if c.statusRead || status == Granted then !Consecutive(c.lastApplied, frames)
      else if status == Current then !Contiguous(c.queued, c.lastApplied + 1)
      else true
    case Eof =>
      if c.mode.Replay? && c.statusRead then !c.leftover && !Contiguous(c.queued, c.lastApplied + 1)
      else true
  }

  lemma {:induction false} DeliverKeeps(c: Consumer, resume: SeqNum)
    requires Contiguous(c.queued, resume)
    ensures Kept(c, Deliver(c, resume))
  {
    ContiguousIffTailIsAll(c.queued, resume);
  }

  /** Nothing queued is lost, and while the recovery lasts nothing queued changes. */
  predicate Holds(c: Consumer, d: Consumer) {
    Kept(c, d) && (d.inRecovery ==> d.queued == c.queued && d.nextExp == c.nextExp)
  }

  lemma {:induction false} EndKeeps(c: Consumer, resume: SeqNum)
    ensures Holds(c, FinishSnapshot(c, resume))
  {
    if Contiguous(c.queued, resume) {
      DeliverKeeps(c, resume);
    }
  }

  lemma {:induction false} SnapshotKeeps(c: Consumer, u: MarketUpdate)
    requires c.inRecovery
    ensures Holds(c, ProcessSnapshot(c, u))
  {
    if c.haveStart && u.kind.SNAPSHOT_END? {
      EndKeeps(c.(staged := c.staged + [u], haveStart := false), u.orderRef + 1);
    }
  }

  lemma {:induction false} SnapshotsKeep(c: Consumer, msgs: seq<MarketUpdate>)
    requires c.inRecovery
    ensures Holds(c, ProcessSnapshots(c, msgs))
    decreases |msgs|
  {
    if msgs != [] {
      var d, u := ProcessSnapshots(c, msgs[..|msgs| - 1]), msgs[|msgs| - 1];
      SnapshotsKeep(c, msgs[..|msgs| - 1]);
      if d.inRecovery {
        SnapshotKeeps(d, u);
      }
    }
  }

  /** Everything queued has been accounted for, so that there is nothing to lose. */
  predicate NothingToLose(c: Consumer) {
    forall k :: k in c.queued ==> k < c.nextExp
  }

  lemma {:induction false} ReplayReadKeptIff(c: Consumer, status: ReplayStatus, frames: seq<MarketUpdate>, rest: bool)
    requires Coherent(c) && c.mode == Replay
    ensures var e := ReplayRead(status, frames, rest); Kept(c, Next(c, e)) <==> !Discards(c, e) || NothingToLose(c)
  {
    if !c.statusRead && status == Current {
      var d := Close(c.(leftover := rest, statusRead := true));
      if Contiguous(c.queued, c.lastApplied + 1) {
        DeliverKeeps(d, d.lastApplied + 1);
      }
    }
  }

  lemma {:induction false} EofKeptIff(c: Consumer)
    requires Coherent(c) && c.inRecovery
    ensures Kept(c, Next(c, Eof)) <==> !Discards(c, Eof) || NothingToLose(c)
  {
    if c.mode.Replay? && c.statusRead && !c.leftover && Contiguous(c.queued, c.lastApplied + 1) {
      DeliverKeeps(c, c.lastApplied + 1);
    }
  }

  /** The design promises that updates received during recovery are never dropped.  A step keeps
      them all exactly when it takes none of the discarding branches, or had nothing to lose. */
  lemma {:induction false} LiveDataKeptIff(c: Consumer, e: Event)
    requires Coherent(c) && Enabled(c, e)
    ensures Kept(c, Next(c, e)) <==> !Discards(c, e) || NothingToLose(c)
  {
    match e
    case Live(u) =>
    case SnapshotRead(msgs, rest) => SnapshotsKeep(c.(leftover := rest), msgs);
    case ReplayRead(status, frames, rest) => ReplayReadKeptIff(c, status, frames, rest);
    case Eof => EofKeptIff(c);
  }
}
