/**
 The boot baseline.  When the first snapshot fails, the consumer accepts any live update as its
 starting point, and a later replay then raises the synchronized flag without an authoritative
 book.  `RecoveryTheorems.PushedBookIsTrue` says what the queue holds then; here is an instance.
 */
module RecoveryBoot {
  import opened Types
  import opened FeedBook
  import opened Recovery
  import opened RecoveryRuns
  import opened RecoveryTheorems

  function AddEntry(k: SeqNum): MarketUpdate {
    MarketUpdate(k, 0, ADD, BUY, 100, 10, k, 0)
  }

  const FOUR: History := [AddEntry(1), AddEntry(2), AddEntry(3), AddEntry(4)]

  /** The consumer of the run below: after the cut, update 2, the gap at 4, the replay of 3. */
  const CUT := System(Consumer(0, false, false, NoRecovery, false, 0, map[], [], false, false, None, 1, [0], []), [])
  const TOOK2 := CUT.(c := CUT.c.(nextExp := 3, pushed := [AddEntry(2)]))
  const GAP := System(
    Consumer(3, true, false, Replay, false, 2, map[4 := AddEntry(4)], [], false, false, Some(1), 2, [0],
             [AddEntry(2)]), [])
  const REPLAYED := GAP.(c := GAP.c.(statusRead := true, lastApplied := 3, staged := [AddEntry(3)]))
  const SYNCED := System(Consumer(5, false, false, NoRecovery, true, 3, map[], [], false, true, None, 2, [0, 1],
                                  [AddEntry(2), AddEntry(3), AddEntry(4)]), [])

  lemma {:induction false} FinishOfRun()
    ensures Follows(FEED, REPLAYED, Eof, SYNCED)
  {
    var q := map[4 := AddEntry(4)];
    TailMembers(q, 4);
    var tail := Tail(q, 4);
    assert 4 in q && 5 !in q;
    assert |tail| == 1;
    assert [AddEntry(2)] + [AddEntry(3)] + tail == [AddEntry(2), AddEntry(3), AddEntry(4)];
  }

  lemma {:induction false} StepsOfRun()
    ensures Follows(FEED, BOOT, Eof, CUT)
    ensures Follows(FEED, CUT, Live(AddEntry(2)), TOOK2)
    ensures Follows(FEED, TOOK2, Live(AddEntry(4)), GAP)
  {
  }

  lemma {:induction false} ReplayOfRun()
    ensures Follows(FEED, GAP, ReplayRead(Granted, [AddEntry(3)], false), REPLAYED)
  {
  }

  /** Snapshot cut at boot, update 1 lost, update 3 lost and replayed: the consumer declares
      itself synchronized although order 1 is missing from every book built from its queue. */
  lemma {:induction false} SynchronizedWithoutSnapshot() returns (x: Exchange, states: seq<System>, events: seq<Event>)
    ensures IsTruthful(x) && |x.h| == 4 && IsRun(x, states, events)
    ensures var c := states[|states| - 1].c;
      && c.synced && c.nextExp == 5 && Baseline(c.pushed) == 2
      && 1 !in Fold(0, EMPTY, c.pushed).orders && 1 in TrueView(0, x.h, 4).orders
  {
    x := FEED;
    events, states := LateStart();
    FeedIsTruthful();
    MissingOrder();
  }

  lemma {:induction false} LateStart() returns (events: seq<Event>, states: seq<System>)
    ensures IsRun(FEED, states, events) && |states| == 6 && states[3] == GAP && states[5] == SYNCED
  {
    StepsOfRun();
    ReplayOfRun();
    FinishOfRun();
    events := [Eof, Live(AddEntry(2)), Live(AddEntry(4)), ReplayRead(Granted, [AddEntry(3)], false), Eof];
    states := [BOOT, CUT, TOOK2, GAP, REPLAYED, SYNCED];
    forall k: nat ensures StepAt(FEED, states, events, k) {
      assert k < 5 ==> k == 0 || k == 1 || k == 2 || k == 3 || k == 4;
    }
  }

  const FEED := Exchange(FOUR, iset{})

  lemma {:induction false} FeedIsTruthful()
    ensures IsTruthful(FEED)
  {
    forall k ensures IsEntry(FOUR, k) {}
  }

  lemma {:induction false} MissingOrder()
    ensures 1 !in Fold(0, EMPTY, SYNCED.c.pushed).orders && 1 in TrueView(0, FOUR, 4).orders
  {
    FoldLacks(0, EMPTY, SYNCED.c.pushed, 1);
    assert FOUR[..4] == [FOUR[0]] + SYNCED.c.pushed;
    FoldAppend(0, EMPTY, [FOUR[0]], SYNCED.c.pushed);
    FoldSnoc(0, EMPTY, [], FOUR[0]);
    assert [] + [FOUR[0]] == [FOUR[0]];
    FoldKeeps(0, Fold(0, EMPTY, [FOUR[0]]), SYNCED.c.pushed, 1);
  }

  /** An order nobody refers to again stays. */
  lemma {:induction false} FoldKeeps(t: TickerId, v: View, us: seq<MarketUpdate>, ref: OrderId)
    requires ref in v.orders
    requires forall u :: u in us ==> !u.IsMarker() && u.orderRef != ref
    ensures ref in Fold(t, v, us).orders
    decreases |us|
  {
    if us != [] {
      FoldKeeps(t, v, us[..|us| - 1], ref);
    }
  }

  /** An order nobody enters does not appear. */
  lemma {:induction false} FoldLacks(t: TickerId, v: View, us: seq<MarketUpdate>, ref: OrderId)
    requires ref !in v.orders
    requires forall u :: u in us ==> u.orderRef != ref && u.newRef != ref
    ensures ref !in Fold(t, v, us).orders
    decreases |us|
  {
    if us != [] {
      FoldLacks(t, v, us[..|us| - 1], ref);
    }
  }

  // ---------------------------------------------------------------------------
  // Dropped live data

  /** In the run above, waiting for a replay of 3 with update 4 queued: a denial starts a snapshot and forgets
      update 4. */
  lemma {:induction false} DenialDropsQueued() returns (states: seq<System>, events: seq<Event>)
    ensures IsRun(FEED, states, events) && |states| == 6
    ensures var c := states[3].c;
      && Enabled(c, ReplayRead(Denied, [], false)) && c.nextExp == 3 && 4 in c.queued
      && !Kept(c, Next(c, ReplayRead(Denied, [], false)))
  {
    events, states := LateStart();
    AnyStateCoherent(states, events, 3);
    LiveDataKeptIff(GAP.c, ReplayRead(Denied, [], false));
  }

  lemma {:induction false} AnyStateCoherent(states: seq<System>, events: seq<Event>, i: nat)
    requires IsRun(FEED, states, events) && i < |states|
    ensures Coherent(states[i].c)
  {
    FeedIsTruthful();
    RunKeepsInv(FEED, states, events, i);
  }
}
