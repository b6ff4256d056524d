/**
 The engine's two drain loops: responses go to the slot that owns the order; market updates go to the
 shared books, and from there to every slot that registered the ticker, which marks its position and,
 unless the book is loading a snapshot, is called (src/trading/trade_engine.h).
 */
module Engine {
  import opened Types
  import opened Pnl
  import opened TradingDesk
  import opened TradingFloor
  import opened Wire
  import opened BookRuns

  // ---------------------------------------------------------------------------
  // Responses

  function Route(slotCount: nat, desks: seq<Desk>, r: OrderResponse): (after: seq<Desk>)
    ensures |after| == |desks|
  {
    var s := OwnerOf(slotCount, r.id);
    if s < |desks| then desks[s := OnResponse(desks[s], r)] else desks
  }

  function RouteAll(slotCount: nat, desks: seq<Desk>, rs: seq<OrderResponse>): (after: seq<Desk>)
    ensures |after| == |desks|
  {
    if rs == [] then desks else Route(slotCount, RouteAll(slotCount, desks, rs[..|rs| - 1]), rs[|rs| - 1])
  }

  /** The response is refused: it has no owner, or its owner finds it makes no sense. */
  predicate Refused(slotCount: nat, desks: seq<Desk>, r: OrderResponse) {
    var s := OwnerOf(slotCount, r.id);
    s >= |desks| || !Accepts(desks[s], r)
  }

  function RefusedCount(slotCount: nat, desks: seq<Desk>, rs: seq<OrderResponse>): nat {
    if rs == [] then 0
    else
      var before := rs[..|rs| - 1];
      RefusedCount(slotCount, desks, before)
      + if Refused(slotCount, RouteAll(slotCount, desks, before), rs[|rs| - 1]) then 1 else 0
  }

  /** The responses addressed to slot `s`, in order. */
  function Own(slotCount: nat, s: nat, rs: seq<OrderResponse>): seq<OrderResponse> {
    if rs == [] then []
    else
      Own(slotCount, s, rs[..|rs| - 1]) + if OwnerOf(slotCount, rs[|rs| - 1].id) == s then [rs[|rs| - 1]] else []
  }

  /** However the responses of all slots are interleaved, each slot ends where its own responses,
      in their order, would have taken it alone. */
  lemma {:induction false} SlotsAreIndependent(slotCount: nat, desks: seq<Desk>, rs: seq<OrderResponse>, s: nat)
    requires s < |desks| <= slotCount
    ensures RouteAll(slotCount, desks, rs)[s] == Respond(desks[s], Own(slotCount, s, rs))
    decreases |rs|
  {
    if rs != [] {
      var before, r := rs[..|rs| - 1], rs[|rs| - 1];
      SlotsAreIndependent(slotCount, desks, before, s);
      if OwnerOf(slotCount, r.id) == s {
        var own := Own(slotCount, s, before);
        assert (own + [r])[..|own|] == own;
      } else {
        assert Own(slotCount, s, before) + [] == Own(slotCount, s, before);
      }
    }
  }

  /** A response to an id drawn by slot `s`, sent out and back as a token, changes no other slot. */
  lemma {:induction false} ResponseReachesOwner(
      slotCount: nat, desks: seq<Desk>, s: nat, counter: nat, r: OrderResponse, other: nat)
    requires s < |desks| <= slotCount <= TWO_16 && other < |desks|
    requires r.id == ParseToken(MakeToken(MakeId(s, counter)))
    ensures Route(slotCount, desks, r)[other] == if other == s then OnResponse(desks[s], r) else desks[other]
  {
    TokenFindsOwner(slotCount, s, counter);
  }

  // ---------------------------------------------------------------------------
  // Books

  datatype TickerBook = TickerBook(ticker: TickerId, book: Book)

  ghost predicate DistinctTickers(books: seq<TickerBook>) {
    forall i, j :: 0 <= i < j < |books| ==> books[i].ticker != books[j].ticker
  }

  predicate Concerns(t: TickerId, u: MarketUpdate) {
    u.IsMarker() || u.ticker == t
  }

  /** Every book is offered the update: what routing must amount to. */
  ghost predicate BooksStep(books: seq<TickerBook>, u: MarketUpdate, after: seq<TickerBook>) {
    |after| == |books| && forall i :: BookStepAt(books, u, after, i)
  }

  ghost predicate BookStepAt(books: seq<TickerBook>, u: MarketUpdate, after: seq<TickerBook>, i: nat)
    requires |after| == |books|
  {
    i < |books| ==> after[i].ticker == books[i].ticker && BookStep(books[i].ticker, books[i].book, u, after[i].book)
  }

  /** All books, before the first update and after each. */
  ghost predicate AreTraces(traces: seq<seq<TickerBook>>, us: seq<MarketUpdate>) {
    |traces| == |us| + 1 && forall n :: BooksStepAt(traces, us, n)
  }

  ghost predicate BooksStepAt(traces: seq<seq<TickerBook>>, us: seq<MarketUpdate>, n: nat)
    requires |traces| == |us| + 1
  {
    n < |us| ==> BooksStep(traces[n], us[n], traces[n + 1])
  }

  /** The history of book i. */
  ghost function Column(traces: seq<seq<TickerBook>>, i: nat): (trace: seq<Book>)
    requires forall n :: 0 <= n < |traces| ==> i < |traces[n]|
    ensures |trace| == |traces| && forall n :: 0 <= n < |traces| ==> trace[n] == traces[n][i].book
  {
    seq(|traces|, n requires 0 <= n < |traces| => traces[n][i].book)
  }

  lemma {:induction false} SameBooks(traces: seq<seq<TickerBook>>, us: seq<MarketUpdate>, n: nat, i: nat)
    requires AreTraces(traces, us) && n < |traces|
    ensures |traces[n]| == |traces[0]|
    ensures i < |traces[0]| ==> traces[n][i].ticker == traces[0][i].ticker
  {
    if n > 0 {
      SameBooks(traces, us, n - 1, i);
      assert BooksStepAt(traces, us, n - 1);
      assert BookStepAt(traces[n - 1], us[n - 1], traces[n], i);
    }
  }

  /** So each book goes through a run of the whole queue. */
  lemma {:induction false} ColumnIsTrace(traces: seq<seq<TickerBook>>, us: seq<MarketUpdate>, i: nat)
    requires AreTraces(traces, us) && i < |traces[0]|
    ensures forall n :: 0 <= n < |traces| ==> i < |traces[n]|
    ensures IsTrace(traces[0][i].ticker, Column(traces, i), us)
  {
    forall n | 0 <= n < |traces| ensures i < |traces[n]| && traces[n][i].ticker == traces[0][i].ticker {
      SameBooks(traces, us, n, i);
    }
    var trace := Column(traces, i);
    forall k: nat ensures StepAt(traces[0][i].ticker, trace, us, k) {
      if k < |us| {
        assert BooksStepAt(traces, us, k);
        assert BookStepAt(traces[k], us[k], traces[k + 1], i);
      }
    }
  }

  // ---------------------------------------------------------------------------
  // What the slots are told

  /** Slot `slot` hears of an update to a book it registered; the strategy is called unless the book is
      loading a snapshot. */
  datatype Notice = Notice(slot: nat, ticker: TickerId, update: MarketUpdate, book: Book)
  {
    predicate IsCall() {
      !book.inSnapshot
    }
  }

  /** A call of a strategy into its order manager. */
  datatype Send =
    | NewOrder(request: OrderRequest, position: Position)
    | CancelOrder(id: OrderId, qty: Quantity)
    | ReplaceOrder(id: OrderId, price: Price, qty: Quantity)

  function EventOf(send: Send, room: bool): Event {
    match send
    case NewOrder(request, position) => New(request, position, room)
    case CancelOrder(id, qty) => Cancel(id, qty, room)
    case ReplaceOrder(id, price, qty) => Replace(id, price, qty, room)
  }

  /** Such a call, after the gateway has popped `took` more requests. */
  datatype Act = Act(took: nat, send: Send)

  /** What features and strategy make of a notice: a mark price, and the calls the strategy makes. */
  datatype Answer = Answer(mark: Price, acts: seq<Act>)

  datatype Told = Told(notice: Notice, answer: Answer)

  ghost function Do(rules: Rules, f: Floor, s: nat, a: Act): Floor {
    var g := Play(rules, f, Takes(a.took));
    Play(rules, g, Happens(s, EventOf(a.send, HasRoom(rules, g))))
  }

  ghost function DoAll(rules: Rules, f: Floor, s: nat, acts: seq<Act>): Floor {
    if acts == [] then f else Do(rules, DoAll(rules, f, s, acts[..|acts| - 1]), s, acts[|acts| - 1])
  }

  ghost function Marked(rules: Rules, f: Floor, s: nat, t: TickerId, mark: Price): Floor {
    if mark == PRICE_INVALID then f else Play(rules, f, Happens(s, Mark(t, mark)))
  }

  /** processSlotUpdate: the slot's position is marked, and its strategy called unless in a snapshot. */
  ghost function Tell(rules: Rules, f: Floor, x: Told): Floor {
    var g := Marked(rules, f, x.notice.slot, x.notice.ticker, x.answer.mark);
    if x.notice.IsCall() then DoAll(rules, g, x.notice.slot, x.answer.acts) else g
  }

  /** The floor before the first of some notices and after each. */
  ghost predicate IsTelling(rules: Rules, floors: seq<Floor>, xs: seq<Told>) {
    |floors| == |xs| + 1 && forall k :: TellAt(rules, floors, xs, k)
  }

  ghost predicate TellAt(rules: Rules, floors: seq<Floor>, xs: seq<Told>, k: nat)
    requires |floors| == |xs| + 1
  {
    k < |xs| ==> floors[k + 1] == Tell(rules, floors[k], xs[k])
  }

  /** Giving the notices one after another takes the floor from `f` to `g`. */
  ghost predicate Brings(rules: Rules, xs: seq<Told>, f: Floor, g: Floor) {
    exists floors :: BringsBy(rules, floors, xs, f, g)
  }

  ghost predicate BringsBy(rules: Rules, floors: seq<Floor>, xs: seq<Told>, f: Floor, g: Floor) {
    IsTelling(rules, floors, xs) && floors[0] == f && floors[|xs|] == g
  }

  lemma {:induction false} TellingAppend(
      rules: Rules, floors: seq<Floor>, xs: seq<Told>, more: seq<Floor>, ys: seq<Told>)
    requires IsTelling(rules, floors, xs) && IsTelling(rules, more, ys) && floors[|xs|] == more[0]
    ensures IsTelling(rules, floors + more[1..], xs + ys)
  {
    forall k: nat ensures TellAt(rules, floors + more[1..], xs + ys, k) {
      assert TellAt(rules, floors, xs, k);
      if k >= |xs| { assert TellAt(rules, more, ys, k - |xs|); }
    }
  }

  lemma {:induction false} BringsAppend(rules: Rules, xs: seq<Told>, ys: seq<Told>, f: Floor, g: Floor, h: Floor)
    requires Brings(rules, xs, f, g) && Brings(rules, ys, g, h)
    ensures Brings(rules, xs + ys, f, h)
  {
    var floors :| BringsBy(rules, floors, xs, f, g);
    var more :| BringsBy(rules, more, ys, g, h);
    TellingAppend(rules, floors, xs, more, ys);
    assert BringsBy(rules, floors + more[1..], xs + ys, f, h);
  }

  // ---------------------------------------------------------------------------
  // All of it is moves on the floor

  lemma {:induction false} PlayKeepsSlots(rules: Rules, f: Floor, m: Move)
    ensures |Play(rules, f, m).desks| == |f.desks|
  {
  }

  lemma {:induction false} DoReaches(rules: Rules, f: Floor, g: Floor, s: nat, a: Act)
    requires Reaches(rules, f, g) && s < |g.desks|
    ensures Reaches(rules, f, Do(rules, g, s, a)) && |Do(rules, g, s, a).desks| == |g.desks|
  {
    var h := Play(rules, g, Takes(a.took));
    var m := Happens(s, EventOf(a.send, HasRoom(rules, h)));
    ReachesNext(rules, f, g, Takes(a.took));
    PlayKeepsSlots(rules, g, Takes(a.took));
    EventIsFair(rules, h, s, a.send);
    ReachesNext(rules, f, h, m);
    PlayKeepsSlots(rules, h, m);
  }

  lemma {:induction false} EventIsFair(rules: Rules, f: Floor, s: nat, send: Send)
    requires s < |f.desks|
    ensures Fair(rules, f, Happens(s, EventOf(send, HasRoom(rules, f))))
  {
  }

  lemma {:induction false} DoAllReaches(rules: Rules, f: Floor, g: Floor, s: nat, acts: seq<Act>)
    requires Reaches(rules, f, g) && s < |g.desks|
    ensures Reaches(rules, f, DoAll(rules, g, s, acts)) && |DoAll(rules, g, s, acts).desks| == |g.desks|
    decreases |acts|
  {
    if acts != [] {
      DoAllReaches(rules, f, g, s, acts[..|acts| - 1]);
      DoReaches(rules, f, DoAll(rules, g, s, acts[..|acts| - 1]), s, acts[|acts| - 1]);
    }
  }

  lemma {:induction false} TellReaches(rules: Rules, f: Floor, g: Floor, x: Told)
    requires Reaches(rules, f, g) && x.notice.slot < |g.desks|
    ensures Reaches(rules, f, Tell(rules, g, x)) && |Tell(rules, g, x).desks| == |g.desks|
  {
    var s, m := x.notice.slot, Happens(x.notice.slot, Mark(x.notice.ticker, x.answer.mark));
    if x.answer.mark != PRICE_INVALID {
      ReachesNext(rules, f, g, m);
      PlayKeepsSlots(rules, g, m);
    }
    if x.notice.IsCall() {
      DoAllReaches(rules, f, Marked(rules, g, s, x.notice.ticker, x.answer.mark), s, x.answer.acts);
    }
  }

  /** The notices go to slots of the engine. */
  predicate AllToSlots(xs: seq<Told>, slots: nat) {
    forall i :: 0 <= i < |xs| ==> xs[i].notice.slot < slots
  }

  lemma {:induction false} TellingReaches(rules: Rules, f: Floor, floors: seq<Floor>, xs: seq<Told>, k: nat)
    requires IsTelling(rules, floors, xs) && k < |floors| && Reaches(rules, f, floors[0])
    requires AllToSlots(xs, |floors[0].desks|)
    ensures Reaches(rules, f, floors[k]) && |floors[k].desks| == |floors[0].desks|
  {
    if k > 0 {
      TellingReaches(rules, f, floors, xs, k - 1);
      assert TellAt(rules, floors, xs, k - 1);
      TellReaches(rules, f, floors[k - 1], xs[k - 1]);
    }
  }

  function Reseated(d: Desk, counter: nat, outbox: seq<OrderRequest>): Desk {
    d.(counter := counter, outbox := outbox)
  }

  lemma {:induction false} RiskIsBlind(d: Desk, r: OrderResponse, counter: nat, outbox: seq<OrderRequest>)
    ensures var a, b := RiskResponse(d, r), RiskResponse(Reseated(d, counter, outbox), r);
      if a.Some? then b == Some(Reseated(a.value, counter, outbox)) else b == None
  {
    match r.status
    case EXECUTED =>
    case ACCEPTED =>
    case CANCELED =>
    case REJECTED =>
    case CANCEL_REJECTED =>
  }

  /** Responses look at neither counter nor queue. */
  lemma {:induction false} ResponseIsBlind(d: Desk, r: OrderResponse, counter: nat, outbox: seq<OrderRequest>)
    ensures OnResponse(Reseated(d, counter, outbox), r) == Reseated(OnResponse(d, r), counter, outbox)
  {
    RiskIsBlind(d, r, counter, outbox);
    match r.status
    case EXECUTED => ExecutionIsBlind(d, r, counter, outbox);
    case ACCEPTED =>
    case CANCELED =>
    case REJECTED =>
    case CANCEL_REJECTED =>
  }

  lemma {:induction false} ExecutionIsBlind(d: Desk, r: OrderResponse, counter: nat, outbox: seq<OrderRequest>)
    requires r.status == EXECUTED
    ensures OnResponse(Reseated(d, counter, outbox), r) == Reseated(OnResponse(d, r), counter, outbox)
  {
    RiskIsBlind(d, r, counter, outbox);
  }

  lemma {:induction false} ResponseIsMove(rules: Rules, f: Floor, s: nat, r: OrderResponse)
    requires s < |f.desks|
    ensures Play(rules, f, Happens(s, Response(r))) == f.(desks := f.desks[s := OnResponse(f.desks[s], r)])
  {
    ResponseIsBlind(f.desks[s], r, f.counter, f.outbox);
    ResponseShares(f.desks[s], r);
  }

  lemma {:induction false} RouteAllReaches(rules: Rules, slotCount: nat, f: Floor, g: Floor, rs: seq<OrderResponse>)
    requires Reaches(rules, f, g)
    ensures Reaches(rules, f, g.(desks := RouteAll(slotCount, g.desks, rs)))
    decreases |rs|
  {
    if rs == [] {
      assert g.(desks := RouteAll(slotCount, g.desks, rs)) == g;
    } else {
      var before, r := rs[..|rs| - 1], rs[|rs| - 1];
      RouteAllReaches(rules, slotCount, f, g, before);
      var h, s := g.(desks := RouteAll(slotCount, g.desks, before)), OwnerOf(slotCount, r.id);
      if s < |h.desks| {
        ReachesNext(rules, f, h, Happens(s, Response(r)));
        ResponseIsMove(rules, h, s, r);
      }
    }
  }

  // ---------------------------------------------------------------------------
  // The notices

  /** The notice of a book's update to slot s, if it registered the ticker. */
  function NoticeTo(entries: seq<seq<TickerId>>, b: TickerBook, u: MarketUpdate, s: nat): seq<Notice>
    requires s < |entries|
  {
    if b.ticker in entries[s] then [Notice(s, b.ticker, u, b.book)] else []
  }

  /** The notices of one book's update to the first n slots. */
  function NoticesOn(entries: seq<seq<TickerId>>, b: TickerBook, u: MarketUpdate, n: nat): seq<Notice>
    requires n <= |entries|
  {
    if n == 0 then [] else NoticesOn(entries, b, u, n - 1) + NoticeTo(entries, b, u, n - 1)
  }

  /** The notices of an update on the first n books, each as it is after the update. */
  function NoticesOf(entries: seq<seq<TickerId>>, books: seq<TickerBook>, u: MarketUpdate, n: nat): seq<Notice>
    requires n <= |books|
  {
    if n == 0 then []
    else
      NoticesOf(entries, books, u, n - 1)
      + if Concerns(books[n - 1].ticker, u) then NoticesOn(entries, books[n - 1], u, |entries|) else []
  }

  /** All notices given while draining `us`. */
  function NoticeLog(entries: seq<seq<TickerId>>, traces: seq<seq<TickerBook>>, us: seq<MarketUpdate>): seq<Notice>
    requires |traces| == |us| + 1
  {
    if us == [] then []
    else
      NoticeLog(entries, traces[..|us|], us[..|us| - 1])
      + NoticesOf(entries, traces[|us|], us[|us| - 1], |traces[|us|]|)
  }

  lemma {:induction false} NoticesOfNone(entries: seq<seq<TickerId>>, books: seq<TickerBook>, u: MarketUpdate, n: nat)
    requires n <= |books| && forall j :: 0 <= j < n ==> !Concerns(books[j].ticker, u)
    ensures NoticesOf(entries, books, u, n) == []
  {
    if n > 0 {
      NoticesOfNone(entries, books, u, n - 1);
    }
  }

  /** Only book k is concerned. */
  lemma {:induction false} NoticesOfOne(
      entries: seq<seq<TickerId>>, books: seq<TickerBook>, u: MarketUpdate, k: nat, n: nat)
    requires k < n <= |books| && Concerns(books[k].ticker, u)
    requires forall j :: 0 <= j < n && j != k ==> !Concerns(books[j].ticker, u)
    ensures NoticesOf(entries, books, u, n) == NoticesOn(entries, books[k], u, |entries|)
  {
    if n - 1 == k {
      NoticesOfNone(entries, books, u, k);
    } else {
      NoticesOfOne(entries, books, u, k, n - 1);
    }
  }

  lemma {:induction false} NoticesOfFrame(
      entries: seq<seq<TickerId>>, a: seq<TickerBook>, b: seq<TickerBook>, u: MarketUpdate, n: nat)
    requires n <= |a| && n <= |b| && a[..n] == b[..n]
    ensures NoticesOf(entries, a, u, n) == NoticesOf(entries, b, u, n)
  {
    if n > 0 {
      assert a[n - 1] == a[..n][n - 1] == b[..n][n - 1] == b[n - 1];
      assert a[..n - 1] == a[..n][..n - 1] && b[..n - 1] == b[..n][..n - 1];
      NoticesOfFrame(entries, a, b, u, n - 1);
    }
  }

  lemma {:induction false} NoticeOnSlot(entries: seq<seq<TickerId>>, b: TickerBook, u: MarketUpdate, n: nat, c: Notice)
    requires n <= |entries| && c in NoticesOn(entries, b, u, n)
    ensures c.slot < n && c.ticker in entries[c.slot] && c == Notice(c.slot, b.ticker, u, b.book)
  {
    if c in NoticesOn(entries, b, u, n - 1) {
      NoticeOnSlot(entries, b, u, n - 1, c);
    }
  }

  lemma {:induction false} NoticeOfBook(
      entries: seq<seq<TickerId>>, books: seq<TickerBook>, u: MarketUpdate, n: nat, c: Notice)
    returns (i: nat)
    requires n <= |books| && c in NoticesOf(entries, books, u, n)
    ensures i < n && Concerns(c.ticker, u) && c.slot < |entries| && c.ticker in entries[c.slot]
    ensures c == Notice(c.slot, books[i].ticker, u, books[i].book)
  {
    if c in NoticesOf(entries, books, u, n - 1) {
      i := NoticeOfBook(entries, books, u, n - 1, c);
    } else {
      i := n - 1;
      NoticeOnSlot(entries, books[i], u, |entries|, c);
    }
  }

  /** Every notice goes to a slot that registered the ticker, and shows the book after some prefix of the queue. */
  lemma {:induction false} NoticeSeesPrefix(
      entries: seq<seq<TickerId>>, traces: seq<seq<TickerBook>>, us: seq<MarketUpdate>, c: Notice)
    returns (i: nat, n: nat)
    requires |traces| == |us| + 1 && c in NoticeLog(entries, traces, us)
    ensures 1 <= n <= |us| && i < |traces[n]| && c.slot < |entries| && c.ticker in entries[c.slot]
    ensures Concerns(c.ticker, us[n - 1]) && c == Notice(c.slot, traces[n][i].ticker, us[n - 1], traces[n][i].book)
    decreases |us|
  {
    var books, u := traces[|us|], us[|us| - 1];
    if c in NoticesOf(entries, books, u, |books|) {
      i := NoticeOfBook(entries, books, u, |books|, c);
      n := |us|;
    } else {
      i, n := NoticeSeesPrefix(entries, traces[..|us|], us[..|us| - 1], c);
    }
  }

  /** ... that is, of some book's run of the whole queue. */
  lemma {:induction false} NoticeSeesRun(
      entries: seq<seq<TickerId>>, traces: seq<seq<TickerBook>>, us: seq<MarketUpdate>, c: Notice)
    returns (j: nat, n: nat)
    requires AreTraces(traces, us) && c in NoticeLog(entries, traces, us)
    ensures 1 <= n <= |us| && j < |traces[0]| && c.ticker == traces[0][j].ticker && c.update == us[n - 1]
    ensures forall m :: 0 <= m < |traces| ==> j < |traces[m]|
    ensures IsTrace(c.ticker, Column(traces, j), us) && c.book == Column(traces, j)[n]
  {
    j, n := NoticeSeesPrefix(entries, traces, us, c);
    SameBooks(traces, us, n, j);
    ColumnIsTrace(traces, us, j);
  }

  /** The notices with the answers they get, the k-th ever given being answered by answers(k). */
  function ToldOf(answers: nat -> Answer, from: nat, notices: seq<Notice>): seq<Told> {
    if notices == [] then []
    else ToldOf(answers, from, notices[..|notices| - 1]) + [Told(notices[|notices| - 1], answers(from + |notices| - 1))]
  }

  lemma {:induction false} ToldOfAppend(answers: nat -> Answer, from: nat, a: seq<Notice>, b: seq<Notice>)
    ensures |ToldOf(answers, from, a)| == |a|
    ensures ToldOf(answers, from, a + b) == ToldOf(answers, from, a) + ToldOf(answers, from + |a|, b)
    decreases |b|, |a|
  {
    if b == [] {
      assert a + b == a;
      if a != [] {
        ToldOfAppend(answers, from, a[..|a| - 1], []);
      }
    } else {
      assert (a + b)[..|a + b| - 1] == a + b[..|b| - 1];
      ToldOfAppend(answers, from, a, b[..|b| - 1]);
    }
  }

  /** What giving some notices does to log and floor. */
  ghost predicate Given(
      rules: Rules, answers: nat -> Answer, notices: seq<Notice>, log: seq<Told>, f: Floor, log': seq<Told>, f': Floor)
  {
    log' == log + ToldOf(answers, |log|, notices) && Brings(rules, ToldOf(answers, |log|, notices), f, f')
  }

  lemma {:induction false} GivenBoth(
      rules: Rules, answers: nat -> Answer, a: seq<Notice>, b: seq<Notice>, log0: seq<Told>, f0: Floor,
      log1: seq<Told>, f1: Floor, log2: seq<Told>, f2: Floor)
    requires Given(rules, answers, a, log0, f0, log1, f1) && Given(rules, answers, b, log1, f1, log2, f2)
    ensures Given(rules, answers, a + b, log0, f0, log2, f2)
  {
    var n := |log0|;
    ToldOfAppend(answers, n, a, b);
    var xs, ys := ToldOf(answers, n, a), ToldOf(answers, n + |a|, b);
    assert |log1| == n + |a|;
    AppendedTwice(log0, xs, ys, log1, log2);
    BringsAppend(rules, xs, ys, f0, f1, f2);
  }

  lemma {:induction false} AppendedTwice(
      log0: seq<Told>, xs: seq<Told>, ys: seq<Told>, log1: seq<Told>, log2: seq<Told>)
    requires log1 == log0 + xs && log2 == log1 + ys
    ensures log2 == log0 + (xs + ys)
  {
  }

  lemma {:induction false} GivenNone(rules: Rules, answers: nat -> Answer, log: seq<Told>, f: Floor)
    ensures Given(rules, answers, [], log, f, log, f)
  {
    assert log + [] == log;
    forall k: nat ensures TellAt(rules, [f], [], k) {}
    assert BringsBy(rules, [f], [], f, f);
  }

  lemma {:induction false} GivenOne(rules: Rules, answers: nat -> Answer, c: Notice, log: seq<Told>, f: Floor)
    ensures var x := Told(c, answers(|log|)); Given(rules, answers, [c], log, f, log + [x], Tell(rules, f, x))
  {
    var x := Told(c, answers(|log|));
    assert [c][..0] == [] && ToldOf(answers, |log|, [c]) == [x];
    var floors := [f, Tell(rules, f, x)];
    forall k: nat ensures TellAt(rules, floors, [x], k) {}
    assert BringsBy(rules, floors, [x], f, floors[1]);
  }

  lemma {:induction false} LogInRange(
      entries: seq<seq<TickerId>>, traces: seq<seq<TickerBook>>, us: seq<MarketUpdate>, answers: nat -> Answer,
      from: nat)
    requires |traces| == |us| + 1
    ensures AllToSlots(ToldOf(answers, from, NoticeLog(entries, traces, us)), |entries|)
  {
    var notices := NoticeLog(entries, traces, us);
    forall i | 0 <= i < |ToldOf(answers, from, notices)|
      ensures ToldOf(answers, from, notices)[i].notice.slot < |entries|
    {
      ToldOfAt(answers, from, notices, i);
      var j, n := NoticeSeesPrefix(entries, traces, us, notices[i]);
    }
  }

  lemma {:induction false} ToldOfAt(answers: nat -> Answer, from: nat, notices: seq<Notice>, i: nat)
    requires i < |ToldOf(answers, from, notices)|
    ensures |ToldOf(answers, from, notices)| == |notices| && ToldOf(answers, from, notices)[i].notice == notices[i]
    decreases |notices|
  {
    ToldOfAppend(answers, from, notices, []);
    if notices != [] && i < |notices| - 1 {
      ToldOfAppend(answers, from, notices[..|notices| - 1], []);
      ToldOfAt(answers, from, notices[..|notices| - 1], i);
    }
  }

  lemma {:induction false} TracesSnoc(
      traces: seq<seq<TickerBook>>, us: seq<MarketUpdate>, n: nat, books: seq<TickerBook>)
    requires n < |us| && AreTraces(traces, us[..n]) && BooksStep(traces[n], us[n], books)
    ensures AreTraces(traces + [books], us[..n + 1])
  {
    var longer, more := traces + [books], us[..n + 1];
    forall k: nat ensures BooksStepAt(longer, more, k) {
      if k < n { assert BooksStepAt(traces, us[..n], k); }
    }
  }

  /** What one call of runOnce finds in its two queues. */
  datatype Round = Round(responses: seq<OrderResponse>, updates: seq<MarketUpdate>)

  /** A round's responses and notices take the floor from where it was by moves. */
  lemma {:induction false} RoundReaches(
      rules: Rules, slotCount: nat, f: Floor, g: Floor, round: Round, entries: seq<seq<TickerId>>,
      traces: seq<seq<TickerBook>>, answers: nat -> Answer, from: nat, g': Floor)
    requires Reaches(rules, f, g) && |entries| == |g.desks| && |traces| == |round.updates| + 1
    requires Brings(rules, ToldOf(answers, from, NoticeLog(entries, traces, round.updates)),
                    g.(desks := RouteAll(slotCount, g.desks, round.responses)), g')
    ensures Reaches(rules, f, g')
  {
    var xs, h := ToldOf(answers, from, NoticeLog(entries, traces, round.updates)),
                 g.(desks := RouteAll(slotCount, g.desks, round.responses));
    RouteAllReaches(rules, slotCount, f, g, round.responses);
    LogInRange(entries, traces, round.updates, answers, from);
    var floors :| BringsBy(rules, floors, xs, h, g');
    TellingReaches(rules, f, floors, xs, |xs|);
  }

  lemma {:induction false} MarkIsMove(rules: Rules, f: Floor, s: nat, t: TickerId, mark: Price)
    requires s < |f.desks|
    ensures Play(rules, f, Happens(s, Mark(t, mark))) == f.(desks := f.desks[s := OnMarkTicker(f.desks[s], t, mark)])
  {
  }

  /** The first n books have taken the update, the others are as they were. */
  ghost predicate BooksUpTo(books: seq<TickerBook>, u: MarketUpdate, after: seq<TickerBook>, n: nat) {
    && n <= |after| == |books| && after[n..] == books[n..]
    && forall j: nat :: j < n ==> BookStepAt(books, u, after, j)
  }

  lemma {:induction false} OneBookMore(
      books: seq<TickerBook>, u: MarketUpdate, before: seq<TickerBook>, i: nat, after: seq<TickerBook>)
    requires BooksUpTo(books, u, before, i) && i < |books| && |after| == |books| && after == before[i := after[i]]
    requires after[i].ticker == before[i].ticker && BookStep(before[i].ticker, before[i].book, u, after[i].book)
    ensures BooksUpTo(books, u, after, i + 1)
  {
    assert before[i] == before[i..][0] == books[i..][0] == books[i];
    assert after[i + 1..] == before[i..][1..] && books[i + 1..] == books[i..][1..];
    forall j: nat | j < i + 1 ensures BookStepAt(books, u, after, j) {
      if j < i { SameStepAt(books, u, before, after, j); }
    }
  }

  lemma {:induction false} SameStepAt(
      books: seq<TickerBook>, u: MarketUpdate, before: seq<TickerBook>, after: seq<TickerBook>, j: nat)
    requires |before| == |books| == |after| && BookStepAt(books, u, before, j)
    requires j < |books| ==> after[j] == before[j]
    ensures BookStepAt(books, u, after, j)
  {
  }

  lemma {:induction false} AllBooksStepped(books: seq<TickerBook>, u: MarketUpdate, after: seq<TickerBook>)
    requires BooksUpTo(books, u, after, |books|) && DistinctTickers(books)
    ensures BooksStep(books, u, after) && DistinctTickers(after)
  {
    forall j: nat ensures BookStepAt(books, u, after, j) {}
    SameTickers(books, u, after);
  }

  lemma {:induction false} SameTickers(books: seq<TickerBook>, u: MarketUpdate, after: seq<TickerBook>)
    requires BooksStep(books, u, after) && DistinctTickers(books)
    ensures DistinctTickers(after)
  {
    forall i | 0 <= i < |books| ensures after[i].ticker == books[i].ticker { assert BookStepAt(books, u, after, i); }
  }

  lemma {:induction false} LogSnoc(
      entries: seq<seq<TickerId>>, traces: seq<seq<TickerBook>>, us: seq<MarketUpdate>, n: nat, books: seq<TickerBook>)
    requires n < |us| && |traces| == n + 1
    ensures NoticeLog(entries, traces + [books], us[..n + 1]) ==
      NoticeLog(entries, traces, us[..n]) + NoticesOf(entries, books, us[n], |books|)
  {
    assert us[..n + 1][..n] == us[..n] && (traces + [books])[..n + 1] == traces;
  }
}
