/**
 From the feed to the strategies, and back to the exchange: the main results put together.
 */
module EndToEnd {
  import opened Types
  import opened FeedBook
  import opened Recovery
  import opened RecoveryRuns
  import opened RecoveryTheorems
  import opened RecoveryTrust
  import Sums
  import opened BookTables
  import opened BookSteps
  import opened BookBbo
  import opened BookRuns
  import Floors = TradingFloor
  import opened Engine
  import opened EngineOrders

  /** The book is sound, holds the exchange's orders of `t` after its first k updates, and quotes the best of them. */
  ghost predicate ShowsTruth(x: Exchange, t: TickerId, b: Book, k: nat) {
    && k <= |x.h| && BookOk(b) && ViewOf(b) == TrueView(t, x.h, k)
    && IsBest(TrueView(t, x.h, k).orders, BUY, b.bid) && IsBest(TrueView(t, x.h, k).orders, SELL, b.ask)
  }

  lemma {:induction false} SoundShowsTruth(x: Exchange, t: TickerId, b: Book, k: nat)
    requires k <= |x.h| && BookOk(b) && ViewOf(b) == TrueView(t, x.h, k)
    ensures ShowsTruth(x, t, b, k)
  {
    SoundQuotes(b);
  }

  /** The run of the consumer up to a state, and the books that were fed the first `drained` updates it pushed. */
  ghost predicate Drained(
      x: Exchange, states: seq<System>, events: seq<Event>, i: nat, drained: nat, traces: seq<seq<TickerBook>>)
  {
    && IsTruthful(x) && IsRun(x, states, events) && i < |states| && drained <= |states[i].c.pushed|
    && AreTraces(traces, states[i].c.pushed[..drained])
    && forall j :: 0 <= j < |traces[0]| ==> traces[0][j].book == NO_BOOK
  }

  /**
   Whatever the network loses, repeats or reorders and however recovery goes: every notice shows some book j
   after some prefix n of the queue.  That book has been sound all along exactly when none of the n updates
   spoiled it; and then, once the prefix holds a snapshot or began with update 1, a strategy that is called
   looks at the exchange's own book at some point of its history, with both quotes the best of it.
   */
  lemma {:induction false} StrategySeesTrueBook(
      x: Exchange, states: seq<System>, events: seq<Event>, i: nat, drained: nat, traces: seq<seq<TickerBook>>,
      entries: seq<seq<TickerId>>, c: Notice)
    returns (j: nat, n: nat)
    requires Drained(x, states, events, i, drained, traces)
    requires c in NoticeLog(entries, traces, states[i].c.pushed[..drained])
    ensures 1 <= n <= drained && j < |traces[0]| && c.ticker == traces[0][j].ticker
    ensures forall m :: 0 <= m < |traces| ==> j < |traces[m]|
    ensures c.book == Column(traces, j)[n] && c.update == states[i].c.pushed[n - 1]
    ensures var us, trace := states[i].c.pushed[..drained], Column(traces, j);
      && (OkUpTo(trace, n) <==> NoneSpoils(c.ticker, trace, us, n))
      && (NoneSpoils(c.ticker, trace, us, n) && Baseline(us[..n]) == 1 && c.IsCall() ==>
         exists k :: ShowsTruth(x, c.ticker, c.book, k))
  {
    var us := states[i].c.pushed[..drained];
    j, n := NoticeSeesRun(entries, traces, us, c);
    SeesTruthIfClean(x, states, events, i, drained, c.ticker, Column(traces, j), n);
  }

  /**
   The book behind every order: a request that a drain adds to the queue was pushed while its strategy was
   called on some book j after some prefix n of the market-data queue.  As far as no update spoiled that book,
   and once the prefix holds a snapshot or began with update 1, it is the exchange's own book at some point
   of its history, with both quotes the best of it.
   */
  lemma {:induction false} OrderSeesTrueBook(
      x: Exchange, states: seq<System>, events: seq<Event>, i: nat, drained: nat, traces: seq<seq<TickerBook>>,
      entries: seq<seq<TickerId>>, answers: nat -> Answer, from: nat,
      rules: Floors.Rules, floors: seq<Floors.Floor>, q: nat)
    returns (k: nat, j: nat, n: nat)
    requires Drained(x, states, events, i, drained, traces)
    requires IsTelling(rules, floors, ToldOf(answers, from, NoticeLog(entries, traces, states[i].c.pushed[..drained])))
    requires |floors[0].outbox| <= q < |floors[|floors| - 1].outbox|
    ensures var xs := ToldOf(answers, from, NoticeLog(entries, traces, states[i].c.pushed[..drained]));
      && SentDuring(floors, xs, k, q) && 1 <= n <= drained && j < |traces[0]|
      && xs[k].notice.ticker == traces[0][j].ticker && !xs[k].notice.book.inSnapshot
    ensures forall m :: 0 <= m < |traces| ==> j < |traces[m]|
    ensures var us, trace := states[i].c.pushed[..drained], Column(traces, j);
      var c := ToldOf(answers, from, NoticeLog(entries, traces, us))[k].notice;
      && c.book == trace[n]
      && (NoneSpoils(c.ticker, trace, us, n) && Baseline(us[..n]) == 1 ==>
            exists m :: ShowsTruth(x, c.ticker, c.book, m))
  {
    var us := states[i].c.pushed[..drained];
    var notices := NoticeLog(entries, traces, us);
    var xs := ToldOf(answers, from, notices);
    k := RequestHasCall(rules, floors, xs, |xs|, q);
    ToldOfAt(answers, from, notices, k);
    assert xs[k].notice == notices[k] && notices[k] in notices;
    j, n := StrategySeesTrueBook(x, states, events, i, drained, traces, entries, notices[k]);
  }

  lemma {:induction false} SeesTruthIfClean(
      x: Exchange, states: seq<System>, events: seq<Event>, i: nat, drained: nat, t: TickerId, trace: seq<Book>, n: nat)
    requires IsTruthful(x) && IsRun(x, states, events) && i < |states| && n <= drained <= |states[i].c.pushed|
    requires IsTrace(t, trace, states[i].c.pushed[..drained]) && trace[0] == NO_BOOK
    ensures var us := states[i].c.pushed[..drained];
      && (OkUpTo(trace, n) <==> NoneSpoils(t, trace, us, n))
      && (NoneSpoils(t, trace, us, n) && Baseline(us[..n]) == 1 && !trace[n].inSnapshot ==>
         exists k :: ShowsTruth(x, t, trace[n], k))
  {
    var us := states[i].c.pushed[..drained];
    EmptyBookOk(trace[0]);
    TraceOkIff(t, trace, us, n);
    assert us[..n] == states[i].c.pushed[..n];
    if NoneSpoils(t, trace, us, n) && Baseline(us[..n]) == 1 && !trace[n].inSnapshot {
      CallShowsTruth(x, states, events, i, drained, t, trace, n);
    }
  }

  lemma {:induction false} CallShowsTruth(
      x: Exchange, states: seq<System>, events: seq<Event>, i: nat, drained: nat, t: TickerId, trace: seq<Book>, n: nat)
    requires IsTruthful(x) && IsRun(x, states, events) && i < |states| && n <= drained <= |states[i].c.pushed|
    requires IsTrace(t, trace, states[i].c.pushed[..drained]) && trace[0] == NO_BOOK && OkUpTo(trace, n)
    requires Baseline(states[i].c.pushed[..n]) == 1 && !trace[n].inSnapshot
    ensures exists k :: ShowsTruth(x, t, trace[n], k)
  {
    var us := states[i].c.pushed[..drained];
    assert us[..n] == states[i].c.pushed[..n];
    EmptyBookOk(trace[0]);
    TraceFollows(t, trace, us, n);
    UpToAt(OkAt(trace), n, n);
    EveryPrefixIsTrue(x, states, events, i, t, n);
    var k :| 0 <= k <= |x.h| && Fold(t, EMPTY, us[..n]) == TrueView(t, x.h, k);
    SoundShowsTruth(x, t, trace[n], k);
  }

  // ---------------------------------------------------------------------------
  // A strategy that is shown a quote nobody made

  /** Two bids at 100; the first moves to 101 and is deleted. */
  const MOVES: History := [AddBid(1, 100, 10), AddBid(2, 100, 20), MOVE, DROP]

  function Bidding(tables: Tables, price: Price, qty: Quantity): Book {
    Book(tables, Quote(price, qty), NO_QUOTE, false)
  }

  const MOVES_TRACE := [
    NO_BOOK, Bidding(ONE, 100, 10), Bidding(TWO, 100, 30), Bidding(MOVED, 101, 5), Bidding(DROPPED, 101, 0)]

  lemma {:induction false} OneLevelQuoted(b: Book, k: Key)
    requires b.tables.levels.Keys == {k} && k.side == BUY && b.bid == Quote(k.price, b.tables.levels[k].totalQty)
    requires b.ask == NO_QUOTE
    ensures Quoted(b)
  {
    assert LevelOn(b.tables.levels, BUY, k);
  }

  lemma {:induction false} TwoLevelsQuoted(b: Book)
    requires b.tables.levels.Keys == {BID100, BID101} && b.bid == Quote(101, b.tables.levels[BID101].totalQty)
    requires b.ask == NO_QUOTE
    ensures Quoted(b)
  {
    assert LevelOn(b.tables.levels, BUY, BID101);
  }

  lemma {:induction false} StepTaken(b: Book, u: MarketUpdate, p: Ptr, b': Book)
    requires !u.IsMarker() && u.ticker == 0 && Leads(b.tables) && p !in b.tables.pool
    requires b'.tables == ApplyTables(b.tables, u, p)
    requires Quoted(b') && Changes(b.tables, u) && b'.inSnapshot == b.inSnapshot
    ensures BookStep(0, b, u, b')
  {
  }

  lemma {:induction false} FirstAddTaken()
    ensures BookStep(0, NO_BOOK, AddBid(1, 100, 10), Bidding(ONE, 100, 10))
  {
    StaleSteps();
    OneLevelQuoted(Bidding(ONE, 100, 10), BID100);
    StepTaken(NO_BOOK, AddBid(1, 100, 10), 0, Bidding(ONE, 100, 10));
  }

  lemma {:induction false} SecondAddTaken()
    ensures BookStep(0, Bidding(ONE, 100, 10), AddBid(2, 100, 20), Bidding(TWO, 100, 30))
  {
    StaleSteps();
    OneLevelQuoted(Bidding(TWO, 100, 30), BID100);
    StepTaken(Bidding(ONE, 100, 10), AddBid(2, 100, 20), 1, Bidding(TWO, 100, 30));
  }

  lemma {:induction false} MoveTaken()
    ensures BookStep(0, Bidding(TWO, 100, 30), MOVE, Bidding(MOVED, 101, 5))
    ensures SpoilsBook(0, Bidding(TWO, 100, 30), MOVE)
  {
    StaleMove();
    TwoLevelsQuoted(Bidding(MOVED, 101, 5));
    StepTaken(Bidding(TWO, 100, 30), MOVE, 2, Bidding(MOVED, 101, 5));
  }

  lemma {:induction false} DropTaken()
    ensures BookStep(0, Bidding(MOVED, 101, 5), DROP, Bidding(DROPPED, 101, 0))
  {
    StaleDrop();
    TwoLevelsQuoted(Bidding(DROPPED, 101, 0));
    StepTaken(Bidding(MOVED, 101, 5), DROP, 2, Bidding(DROPPED, 101, 0));
  }

  /** One book, of ticker 0, at each of those stages. */
  const MOVES_BOOKS: seq<seq<TickerBook>> :=
    [[TickerBook(0, MOVES_TRACE[0])], [TickerBook(0, MOVES_TRACE[1])], [TickerBook(0, MOVES_TRACE[2])],
     [TickerBook(0, MOVES_TRACE[3])], [TickerBook(0, MOVES_TRACE[4])]]

  lemma {:induction false} OneBookStep(b: Book, u: MarketUpdate, b': Book)
    requires BookStep(0, b, u, b')
    ensures BooksStep([TickerBook(0, b)], u, [TickerBook(0, b')])
  {
    var books, after := [TickerBook(0, b)], [TickerBook(0, b')];
    forall i: nat ensures BookStepAt(books, u, after, i) {}
  }

  lemma {:induction false} MovesStepAt(n: nat)
    ensures BooksStepAt(MOVES_BOOKS, MOVES, n)
  {
    if n < 4 {
      var b, u, b' := MOVES_TRACE[n], MOVES[n], MOVES_TRACE[n + 1];
      assert BookStep(0, b, u, b') by {
        match n
        case 0 => FirstAddTaken();
        case 1 => SecondAddTaken();
        case 2 => MoveTaken();
        case _ => DropTaken();
      }
      OneBookStep(b, u, b');
    }
  }

  lemma {:induction false} MovesAreTraces()
    ensures AreTraces(MOVES_BOOKS, MOVES)
  {
    forall n: nat ensures BooksStepAt(MOVES_BOOKS, MOVES, n) {
      MovesStepAt(n);
    }
  }

  function Bids(orders: Orders): View {
    View(orders, false)
  }

  lemma {:induction false} MovesPrefix(n: nat)
    requires n < 4
    ensures Fold(0, EMPTY, MOVES[..n + 1]) == Apply(0, Fold(0, EMPTY, MOVES[..n]), MOVES[n])
  {
    assert MOVES[..n + 1] == MOVES[..n] + [MOVES[n]];
    FoldSnoc(0, EMPTY, MOVES[..n], MOVES[n]);
  }

  lemma {:induction false} AddsMean()
    ensures Fold(0, EMPTY, MOVES[..2]) == Bids(map[1 := Resting(BUY, 100, 10), 2 := Resting(BUY, 100, 20)])
  {
    MovesPrefix(0);
    MovesPrefix(1);
    assert MOVES[..0] == [];
    assert Fold(0, EMPTY, MOVES[..1]) == Bids(map[1 := Resting(BUY, 100, 10)]);
  }

  lemma {:induction false} MoveMeans(v: View)
    requires v == Bids(map[1 := Resting(BUY, 100, 10), 2 := Resting(BUY, 100, 20)])
    ensures Apply(0, v, MOVE) == Bids(map[3 := Resting(BUY, 101, 5), 2 := Resting(BUY, 100, 20)])
  {
    assert v.orders - {1} == map[2 := Resting(BUY, 100, 20)];
  }

  lemma {:induction false} DropMeans(v: View)
    requires v == Bids(map[3 := Resting(BUY, 101, 5), 2 := Resting(BUY, 100, 20)])
    ensures Apply(0, v, DROP) == Bids(map[2 := Resting(BUY, 100, 20)])
  {
    assert v.orders - {3} == map[2 := Resting(BUY, 100, 20)];
  }

  lemma {:induction false} MovesMean()
    ensures TrueView(0, MOVES, 4) == Bids(map[2 := Resting(BUY, 100, 20)])
  {
    AddsMean();
    MovesPrefix(2);
    MoveMeans(Fold(0, EMPTY, MOVES[..2]));
    MovesPrefix(3);
    DropMeans(Fold(0, EMPTY, MOVES[..3]));
  }

  lemma {:induction false} MovesIsHistory()
    ensures IsHistory(MOVES)
  {
    forall k ensures IsEntry(MOVES, k) {
      assert 1 <= k <= 4 ==> k == 1 || k == 2 || k == 3 || k == 4;
    }
  }

  lemma {:induction false} LastNotice(c: Notice)
    requires c == Notice(0, 0, DROP, MOVES_TRACE[4])
    ensures c in NoticeLog([[0]], MOVES_BOOKS, MOVES)
  {
    var entries, books: seq<TickerBook> := [[0]], MOVES_BOOKS[4];
    assert NoticesOn(entries, books[0], DROP, 1) == NoticesOn(entries, books[0], DROP, 0) + [c];
    assert NoticesOf(entries, books, DROP, 1) ==
        NoticesOf(entries, books, DROP, 0) + NoticesOn(entries, books[0], DROP, 1);
  }

  /** A run of the consumer in which the boot snapshot is cut and every update arrives, and an engine that
      drains all of it: the strategy is called on a best bid of 101 for nothing, where the exchange has 20 bid
      at 100. */
  lemma {:induction false} StrategySeesPhantomBid()
    returns (x: Exchange, states: seq<System>, events: seq<Event>, c: Notice)
    ensures Drained(x, states, events, 5, 4, MOVES_BOOKS) && states[5].c.pushed == MOVES == x.h && Baseline(MOVES) == 1
    ensures c in NoticeLog([[0]], MOVES_BOOKS, MOVES) && c.IsCall() && c.book.bid == Quote(101, 0)
    ensures IsBest(TrueView(0, x.h, 4).orders, BUY, Quote(100, 20)) && forall k :: !ShowsTruth(x, 0, c.book, k)
  {
    x := Exchange(MOVES, iset{});
    MovesIsHistory();
    states, events := LateRun(MOVES, 1, 5);
    assert MOVES[0..4] == MOVES && MOVES[..4] == MOVES;
    MovesAreTraces();
    c := Notice(0, 0, DROP, MOVES_TRACE[4]);
    LastNotice(c);
    MovesMean();
    TwentyAtHundred();
    forall k ensures !ShowsTruth(x, 0, c.book, k) {
      DroppedIsBroken();
    }
  }

  lemma {:induction false} TwentyAtHundred()
    ensures IsBest(map[2 := Resting(BUY, 100, 20)], BUY, Quote(100, 20))
  {
    var m: Orders := map[2 := Resting(BUY, 100, 20)];
    assert OnSide(m, BUY, 2);
    var at := AtPrice(m, Key(BUY, 100));
    assert at == map[2 := 20];
    var none: map<OrderId, int> := map[];
    assert at == none[2 := 20];
    Sums.MapSumInsert<OrderId>(none, 2, 20);
  }

  /** The tables after the delete are not well formed: level 101 is there, with nothing in it. */
  lemma {:induction false} DroppedIsBroken()
    ensures !BookOk(MOVES_TRACE[4])
  {
    if BookOk(MOVES_TRACE[4]) {
      SoundQuotes(MOVES_TRACE[4]);
      PhantomBestBid();
    }
  }

  // ---------------------------------------------------------------------------
  // Truthful snapshots exist

  function Mark(kind: UpdateType, n: SeqNum): MarketUpdate {
    MarketUpdate(0, TICKER_INVALID, kind, BUY, 0, 0, n, 0)
  }

  /** A history leaves a ticker it never mentions empty, and opens no snapshot. */
  lemma {:induction false} HistoryShape(h: History, n: nat, t: TickerId)
    requires IsHistory(h) && n <= |h|
    ensures !TrueView(t, h, n).inSnapshot
    ensures (forall i :: 0 <= i < n ==> h[i].ticker != t) ==> TrueView(t, h, n).orders == map[]
  {
    if n > 0 {
      HistoryShape(h, n - 1, t);
      assert IsEntry(h, n);
      assert h[..n][..n - 1] == h[..n - 1];
    }
  }

  /** Appends one ADD per order, which adds them to ticker `t` and leaves the others alone. */
  lemma {:induction false} ListOrders(us: seq<MarketUpdate>, t: TickerId, orders: Orders)
    returns (vs: seq<MarketUpdate>)
    requires Fold(t, EMPTY, us).orders == map[]
    ensures us <= vs && |vs| >= |us|
    ensures Fold(t, EMPTY, vs) == Fold(t, EMPTY, us).(orders := orders)
    ensures forall t' :: t' != t ==> Fold(t', EMPTY, vs) == Fold(t', EMPTY, us)
    decreases |orders|
  {
    if orders == map[] {
      vs := us;
    } else {
      var ref :| ref in orders;
      var o, fewer := orders[ref], orders - {ref};
      vs := ListOrders(us, t, fewer);
      var u := MarketUpdate(0, t, ADD, o.side, o.price, o.qty, ref, 0);
      forall t' ensures Fold(t', EMPTY, vs + [u]) == Apply(t', Fold(t', EMPTY, vs), u) {
        FoldSnoc(t', EMPTY, vs, u);
      }
      assert fewer[ref := o] == orders;
      vs := vs + [u];
    }
  }

  ghost predicate Loaded(h: History, n: nat, todo: set<TickerId>, us: seq<MarketUpdate>, t: TickerId)
    requires n <= |h|
  {
    Fold(t, EMPTY, us) == View(if t in todo then map[] else TrueView(t, h, n).orders, true)
  }

  /** At every point of every history there is a block that a truthful exchange may serve. */
  lemma {:induction false} FaithfulBlockExists(h: History, n: nat) returns (b: seq<MarketUpdate>)
    requires IsHistory(h) && n <= |h|
    ensures b != [] && b[0].kind.SNAPSHOT_START? && b[|b| - 1].kind.SNAPSHOT_END? && b[|b| - 1].orderRef == n
    ensures Faithful(h, b)
  {
    var todo := set i | 0 <= i < n :: h[i].ticker;
    b := [Mark(SNAPSHOT_START, n)];
    forall t ensures Loaded(h, n, todo, b, t) {
      FoldSnoc(t, EMPTY, [], b[0]);
      assert [] + [b[0]] == b;
      HistoryShape(h, n, t);
    }
    while todo != {}
      invariant b != [] && b[0].kind.SNAPSHOT_START?
      invariant forall t :: Loaded(h, n, todo, b, t)
      decreases |todo|
    {
      var t :| t in todo;
      assert Loaded(h, n, todo, b, t);
      var c := ListOrders(b, t, TrueView(t, h, n).orders);
      forall t' ensures Loaded(h, n, todo - {t}, c, t') {
        assert Loaded(h, n, todo, b, t');
      }
      b, todo := c, todo - {t};
    }
    var e := Mark(SNAPSHOT_END, n);
    forall t ensures Fold(t, EMPTY, b + [e]) == TrueView(t, h, n) {
      assert Loaded(h, n, {}, b, t);
      FoldSnoc(t, EMPTY, b, e);
      HistoryShape(h, n, t);
    }
    b := b + [e];
  }
}
