/**
 When the engine lets strategies act: never on a book that is loading a snapshot, and otherwise exactly as
 they ask; and who is told of what (src/trading/trade_engine.h:191-227).
 */
module EngineOrders {
  import opened Types
  import opened Pnl
  import opened TradingDesk
  import opened DeskOrders
  import opened TradingFloor
  import opened DeskRequests
  import opened BookRuns
  import opened Engine

  // ---------------------------------------------------------------------------
  // Notices while a snapshot is loading

  /** Nothing but positions differs. */
  ghost predicate OnlyMarked(f: Floor, g: Floor) {
    && g.counter == f.counter && g.outbox == f.outbox && g.taken == f.taken && |g.desks| == |f.desks|
    && forall s :: 0 <= s < |f.desks| ==> g.desks[s].(positions := f.desks[s].positions) == f.desks[s]
  }

  /** A notice of a book that is loading a snapshot sends nothing and draws nothing: counter, queue, orders
      and reservations of every slot stay as they were. */
  lemma {:induction false} SnapshotNoticeIsQuiet(rules: Rules, f: Floor, x: Told)
    requires x.notice.book.inSnapshot
    ensures OnlyMarked(f, Tell(rules, f, x))
  {
    if x.answer.mark != PRICE_INVALID && x.notice.slot < |f.desks| {
      MarkIsMove(rules, f, x.notice.slot, x.notice.ticker, x.answer.mark);
    }
  }

  /** The mark is the notified slot's, on the notified ticker, at the price the features give; so while a
      snapshot is loading, and when a called strategy makes no calls. */
  lemma {:induction false} NoticeMarks(rules: Rules, f: Floor, x: Told)
    requires (x.notice.book.inSnapshot || x.answer.acts == []) && x.notice.slot < |f.desks|
    requires x.notice.ticker in f.desks[x.notice.slot].positions
    ensures var s, t := x.notice.slot, x.notice.ticker;
      var p, g := f.desks[s].positions[t], Tell(rules, f, x);
      && t in g.desks[s].positions
      && g.desks[s].positions[t].mark == (if Markable(p, x.answer.mark) then x.answer.mark else p.mark)
      && (forall i :: 0 <= i < |f.desks| && i != s ==> g.desks[i] == f.desks[i])
      && (forall t' :: t' in f.desks[s].positions && t' != t ==>
            t' in g.desks[s].positions && g.desks[s].positions[t'] == f.desks[s].positions[t'])
  {
    MarkIsRecorded(f.desks[x.notice.slot].positions[x.notice.ticker], x.answer.mark);
    if x.answer.mark != PRICE_INVALID {
      MarkIsMove(rules, f, x.notice.slot, x.notice.ticker, x.answer.mark);
    }
  }

  // ---------------------------------------------------------------------------
  // Notices on which a strategy is called

  /** Two lists of calls are made one after the other. */
  lemma {:induction false} CallsInTurn(rules: Rules, f: Floor, s: nat, a: seq<Act>, b: seq<Act>)
    ensures DoAll(rules, f, s, a + b) == DoAll(rules, DoAll(rules, f, s, a), s, b)
    decreases |b|
  {
    if b == [] {
      assert a + b == a;
    } else {
      assert (a + b)[..|a + b| - 1] == a + b[..|b| - 1];
      CallsInTurn(rules, f, s, a, b[..|b| - 1]);
    }
  }

  /** A call that the check and the queue let through sends the order, from the slot's own desk. */
  lemma {:induction false} CallSends(rules: Rules, f: Floor, s: nat, r: OrderRequest, pos: Position)
    requires s < |f.desks| && f.taken <= |f.outbox| < f.taken + rules.queueSize
    requires AllocSlot(f.desks[s].orders) < rules.maxOrders
    requires CanSubmit(ConfigOf(rules, s), Seat(f, s).(counter := f.counter + 1),
                       r.(id := MakeId(s, f.counter), newId := 0), pos) == PASSED
    ensures DoAll(rules, f, s, [Act(0, NewOrder(r, pos))]).outbox ==
            f.outbox + [r.(id := MakeId(s, f.counter), newId := 0)]
  {
    var a := Act(0, NewOrder(r, pos));
    assert [a][..0] == [] && DoAll(rules, f, s, [a]) == Do(rules, f, s, a);
    assert Play(rules, f, Takes(0)) == f;
    NewSteps(ConfigOf(rules, s), Seat(f, s), r, pos, true);
  }

  /** A called strategy's calls are made on the floor that the notice leaves without them. */
  lemma {:induction false} CalledOnceMarked(rules: Rules, f: Floor, x: Told)
    requires !x.notice.book.inSnapshot
    ensures Tell(rules, f, x) ==
      DoAll(rules, Tell(rules, f, x.(answer := x.answer.(acts := []))), x.notice.slot, x.answer.acts)
  {
  }

  // ---------------------------------------------------------------------------
  // The notice behind every request

  lemma {:induction false} PlayExtends(rules: Rules, f: Floor, m: Move)
    ensures f.outbox <= Play(rules, f, m).outbox
  {
    MoveExtends(rules, f, m);
  }

  lemma {:induction false} DoExtends(rules: Rules, f: Floor, s: nat, a: Act)
    ensures f.outbox <= Do(rules, f, s, a).outbox
  {
    var g := Play(rules, f, Takes(a.took));
    PlayExtends(rules, f, Takes(a.took));
    PlayExtends(rules, g, Happens(s, EventOf(a.send, HasRoom(rules, g))));
  }

  lemma {:induction false} DoAllExtends(rules: Rules, f: Floor, s: nat, acts: seq<Act>)
    ensures f.outbox <= DoAll(rules, f, s, acts).outbox
    decreases |acts|
  {
    if acts != [] {
      DoAllExtends(rules, f, s, acts[..|acts| - 1]);
      DoExtends(rules, DoAll(rules, f, s, acts[..|acts| - 1]), s, acts[|acts| - 1]);
    }
  }

  lemma {:induction false} TellExtends(rules: Rules, f: Floor, x: Told)
    ensures f.outbox <= Tell(rules, f, x).outbox
    ensures x.notice.book.inSnapshot ==> Tell(rules, f, x).outbox == f.outbox
  {
    var g := Marked(rules, f, x.notice.slot, x.notice.ticker, x.answer.mark);
    if x.answer.mark != PRICE_INVALID {
      PlayExtends(rules, f, Happens(x.notice.slot, Mark(x.notice.ticker, x.answer.mark)));
    }
    DoAllExtends(rules, g, x.notice.slot, x.answer.acts);
    if x.notice.book.inSnapshot {
      SnapshotNoticeIsQuiet(rules, f, x);
    }
  }

  /** Request q was pushed during notice k. */
  ghost predicate SentDuring(floors: seq<Floor>, xs: seq<Told>, k: nat, q: nat) {
    |floors| == |xs| + 1 && k < |xs| && |floors[k].outbox| <= q < |floors[k + 1].outbox|
  }

  /** Every request that a drain adds to the queue was pushed during one of its notices, and the book of that
      notice was not loading a snapshot. */
  lemma {:induction false} RequestHasCall(rules: Rules, floors: seq<Floor>, xs: seq<Told>, n: nat, q: nat)
    returns (k: nat)
    requires IsTelling(rules, floors, xs) && n < |floors| && |floors[0].outbox| <= q < |floors[n].outbox|
    ensures k < n && SentDuring(floors, xs, k, q) && xs[k].notice.IsCall() && !xs[k].notice.book.inSnapshot
    ensures floors[k + 1].outbox[q] == floors[n].outbox[q]
    decreases n
  {
    assert TellAt(rules, floors, xs, n - 1);
    TellExtends(rules, floors[n - 1], xs[n - 1]);
    if q < |floors[n - 1].outbox| {
      k := RequestHasCall(rules, floors, xs, n - 1, q);
    } else {
      k := n - 1;
    }
  }

  // ---------------------------------------------------------------------------
  // Nobody is left out

  lemma {:induction false} EverySlotIsTold(entries: seq<seq<TickerId>>, b: TickerBook, u: MarketUpdate, n: nat, s: nat)
    requires s < n <= |entries| && b.ticker in entries[s]
    ensures Notice(s, b.ticker, u, b.book) in NoticesOn(entries, b, u, n)
  {
    if s == n - 1 {
      assert Notice(s, b.ticker, u, b.book) in NoticeTo(entries, b, u, s);
    } else {
      EverySlotIsTold(entries, b, u, n - 1, s);
    }
  }

  lemma {:induction false} EarlierComeFirst(
      entries: seq<seq<TickerId>>, books: seq<TickerBook>, u: MarketUpdate, i: nat, n: nat)
    requires i <= n <= |books|
    ensures NoticesOf(entries, books, u, i) <= NoticesOf(entries, books, u, n)
  {
    if i < n {
      EarlierComeFirst(entries, books, u, i, n - 1);
    }
  }

  lemma {:induction false} ToldLast(
      entries: seq<seq<TickerId>>, books: seq<TickerBook>, u: MarketUpdate, n: nat, c: Notice)
    requires 0 < n <= |books| && Concerns(books[n - 1].ticker, u)
    requires c in NoticesOn(entries, books[n - 1], u, |entries|)
    ensures c in NoticesOf(entries, books, u, n)
  {
  }

  lemma {:induction false} InLonger(a: seq<Notice>, b: seq<Notice>, c: Notice)
    requires a <= b && c in a
    ensures c in b
  {
  }

  lemma {:induction false} EveryBookIsTold(
      entries: seq<seq<TickerId>>, books: seq<TickerBook>, u: MarketUpdate, i: nat, s: nat, c: Notice)
    requires i < |books| && s < |entries| && books[i].ticker in entries[s] && Concerns(books[i].ticker, u)
    requires c == Notice(s, books[i].ticker, u, books[i].book)
    ensures c in NoticesOf(entries, books, u, |books|)
  {
    EverySlotIsTold(entries, books[i], u, |entries|, s);
    ToldLast(entries, books, u, i + 1, c);
    EarlierComeFirst(entries, books, u, i + 1, |books|);
    InLonger(NoticesOf(entries, books, u, i + 1), NoticesOf(entries, books, u, |books|), c);
  }

  /** Every update of the queue is told to every slot that registered a book it concerns, with the book as it
      is right after that update. */
  lemma {:induction false} EveryoneIsTold(
      entries: seq<seq<TickerId>>, traces: seq<seq<TickerBook>>, us: seq<MarketUpdate>, n: nat, i: nat, s: nat)
    requires |traces| == |us| + 1 && 1 <= n <= |us| && i < |traces[n]| && s < |entries|
    requires traces[n][i].ticker in entries[s] && (us[n - 1].IsMarker() || us[n - 1].ticker == traces[n][i].ticker)
    ensures Notice(s, traces[n][i].ticker, us[n - 1], traces[n][i].book) in NoticeLog(entries, traces, us)
    decreases |us|
  {
    if n == |us| {
      var c := Notice(s, traces[n][i].ticker, us[n - 1], traces[n][i].book);
      EveryBookIsTold(entries, traces[n], us[n - 1], i, s, c);
    } else {
      EveryoneIsTold(entries, traces[..|us|], us[..|us| - 1], n, i, s);
    }
  }
}
