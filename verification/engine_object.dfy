/**
 The engine object: its drain loops, its ticker registration, and the order calls strategies make through
 it, proved to compute what module `Engine` specifies (src/trading/trade_engine.h).
 */
module EngineObject {
  import opened Types
  import opened Pnl
  import opened TradingDesk
  import opened TradingFloor
  import DeskLimits
  import opened Wire
  import opened BookRuns
  import opened Engine

  /** PnLTracker::registerTicker: a known position stays as it is. */
  function WithPosition(d: Desk, t: TickerId): Desk {
    if t in d.positions then d else d.(positions := d.positions[t := FLAT])
  }

  // ---------------------------------------------------------------------------
  // An order sent from a desk

  lemma {:induction false} ExposureOfOneMore(p: Pending, todo: set<OrderId>, id: OrderId, t: TickerId)
    requires id in todo && id in p
    ensures Exposure(p - (todo - {id}), t) ==
            Exposure(p - todo, t) + if p[id].ticker == t then Signed(p[id].side, p[id].qty) else 0
  {
    var done := p - todo;
    DeskLimits.ReservedInsert(done, id, p[id], t, BUY);
    DeskLimits.ReservedInsert(done, id, p[id], t, SELL);
    assert p - (todo - {id}) == done[id := p[id]];
  }

  lemma {:induction false} ExposureOfNone(p: Pending, t: TickerId)
    ensures Exposure(p - p.Keys, t) == 0
  {
    var none := p - p.Keys;
    assert Contribution(none, t, BUY) == map[] && Contribution(none, t, SELL) == map[];
  }

  /** pendingExposure on a map of reservations. */
  method ExposureOn(p: Pending, t: TickerId) returns (n: int)
    ensures n == Exposure(p, t)
  {
    n := 0;
    var todo := p.Keys;
    ExposureOfNone(p, t);
    while todo != {}
      invariant todo <= p.Keys && n == Exposure(p - todo, t)
      decreases |todo|
    {
      var id :| id in todo;
      ExposureOfOneMore(p, todo, id, t);
      todo := todo - {id};
      if p[id].ticker == t {
        n := n + Signed(p[id].side, p[id].qty);
      }
    }
    assert p - todo == p;
  }

  method MaySubmit(cfg: Config, d: Desk, r: OrderRequest, position: Position) returns (ok: bool)
    ensures ok <==> CanSubmit(cfg, d, r, position) == PASSED
  {
    if !d.trading || !r.kind.NEW? || r.id == 0 || r.ticker == TICKER_INVALID || r.price < 0 || r.qty == 0 {
      return false;
    }
    if r.ticker !in d.limits || r.id in d.pending || |d.pending| == cfg.maxPending {
      return false;
    }
    var limits := d.limits[r.ticker];
    if r.qty > limits.maxQty || r.price * r.qty > limits.maxNotional {
      return false;
    }
    var exposure := ExposureOn(d.pending, r.ticker);
    var projected := position.net + exposure + Signed(r.side, r.qty);
    return -limits.maxPosition <= projected <= limits.maxPosition;
  }

  method Submit(cfg: Config, d: Desk, r: OrderRequest, position: Position, room: bool) returns (e: Desk)
    ensures e == SendNew(cfg, d, r, position, room)
  {
    var slot := AllocSlot(d.orders);
    if slot >= cfg.maxOrders {
      return d;
    }
    var request := r.(id := MakeId(cfg.slot, d.counter), newId := 0);
    e := d.(counter := d.counter + 1);
    var ok := MaySubmit(cfg, e, request, position);
    if !ok || !room {
      return e;
    }
    e := e.(outbox := e.outbox + [request]);
    if request.id in e.pending || |e.pending| == cfg.maxPending {
      return e;
    }
    var order := Order(request.id, r.ticker, r.side, r.price, r.qty, r.ioc, NOT_ACTIVE, false, false, 0, PRICE_INVALID);
    e := e.(pending := e.pending[request.id := Reservation(r.ticker, r.side, r.qty)],
            orders := if slot == |e.orders| then e.orders + [order] else e.orders[slot := order]);
  }

  /** One call into a desk's order manager. */
  method Perform(cfg: Config, d: Desk, send: Send, room: bool) returns (e: Desk)
    ensures e == Step(cfg, d, EventOf(send, room))
  {
    match send
    case NewOrder(request, position) => e := Submit(cfg, d, request, position, room);
    case CancelOrder(id, qty) => e := SendCancel(d, id, qty, room);
    case ReplaceOrder(id, price, qty) => e := SendReplace(cfg, d, id, price, qty, room);
  }

  class TradeEngine {
    const slotCount: nat
    const maxTickers: nat
    const rules: Rules
    const answers: nat -> Answer
    var desks: seq<Desk>
    var counter: nat
    var requests: seq<OrderRequest>
    var taken: nat
    var entries: seq<seq<TickerId>>
    var books: seq<TickerBook>
    var log: seq<Told>

    constructor (slotCount: nat, maxTickers: nat, rules: Rules, answers: nat -> Answer, desks: seq<Desk>)
      requires |desks| <= slotCount
      ensures this.slotCount == slotCount && this.maxTickers == maxTickers && this.rules == rules
      ensures this.answers == answers
      ensures Now() == Floor(desks, 1, [], 0)
      ensures Valid() && books == [] && log == [] && forall s :: 0 <= s < |entries| ==> entries[s] == []
    {
      this.slotCount, this.maxTickers, this.rules, this.answers := slotCount, maxTickers, rules, answers;
      this.desks, counter, requests, taken := desks, 1, [], 0;
      entries, books, log := seq(|desks|, _ => []), [], [];
    }

    /** The slots and what they share. */
    function Now(): Floor
      reads this
    {
      Floor(desks, counter, requests, taken)
    }

    ghost predicate Valid()
      reads this
    {
      |desks| <= slotCount && |entries| == |desks| && |books| <= maxTickers && DistinctTickers(books)
    }

    method DrainResponses(queue: seq<OrderResponse>) returns (rejected: nat)
      modifies `desks
      ensures desks == RouteAll(slotCount, old(desks), queue)
      ensures rejected == RefusedCount(slotCount, old(desks), queue)
    {
      rejected := 0;
      var n := 0;
      while n < |queue|
        invariant n <= |queue|
        invariant desks == RouteAll(slotCount, old(desks), queue[..n])
        invariant rejected == RefusedCount(slotCount, old(desks), queue[..n])
      {
        var r := queue[n];
        assert queue[..n + 1][..n] == queue[..n];
        var slot := OwnerOf(slotCount, r.id);
        var ok := false;
        if slot < |desks| {
          ok := Accepts(desks[slot], r);
          desks := desks[slot := OnResponse(desks[slot], r)];
        }
        if !ok {
          rejected := rejected + 1;
        }
        n := n + 1;
      }
      assert queue[..|queue|] == queue;
    }

    method FindTicker(t: TickerId) returns (i: nat)
      ensures i <= |books| && (i < |books| ==> books[i].ticker == t)
      ensures forall j :: 0 <= j < i ==> books[j].ticker != t
    {
      i := 0;
      while i < |books|
        invariant i <= |books| && forall j :: 0 <= j < i ==> books[j].ticker != t
      {
        if books[i].ticker == t {
          return;
        }
        i := i + 1;
      }
    }

    /** The book of a ticker, created empty when it is new and there is room. */
    method FindOrCreateTicker(t: TickerId) returns (i: nat)
      requires Valid()
      modifies `books
      ensures Valid() && old(books) <= books && |books| <= |old(books)| + 1
      ensures i < |books| <==> (exists b :: b in old(books) && b.ticker == t) || |old(books)| < maxTickers
      ensures i < |books| ==> books[i].ticker == t
      ensures |books| == |old(books)| + 1 ==> i == |old(books)| && books[i] == TickerBook(t, NO_BOOK)
    {
      i := FindTicker(t);
      if i < |books| {
        assert books[i] in books;
        return;
      }
      if |books| == maxTickers {
        return;
      }
      books := books + [TickerBook(t, NO_BOOK)];
    }

    /** A slot may register a ticker once, while there is room for it in the slot, among the books and in
        the slot's profit and risk tables.  A refusal by the risk table leaves book and position behind. */
    method RegisterTicker(s: nat, t: TickerId, limits: RiskLimits) returns (ok: bool)
      requires Valid()
      modifies `books, `desks, `entries
      ensures Valid() && old(books) <= books && |books| <= |old(books)| + 1
      ensures |books| > |old(books)| ==> books[|books| - 1] == TickerBook(t, NO_BOOK)
      ensures ok <==>
        && s < |old(desks)| && t !in old(entries)[s] && |old(entries)[s]| < maxTickers
        && ((exists b :: b in old(books) && b.ticker == t) || |old(books)| < maxTickers)
        && (t in old(desks)[s].positions || |old(desks)[s].positions| < maxTickers)
        && limits.maxPosition >= 0 && limits.maxNotional >= 0
        && t !in old(desks)[s].limits && |old(desks)[s].limits| < maxTickers
      ensures ok ==>
        && entries == old(entries)[s := old(entries)[s] + [t]]
        && desks == old(desks)[s := WithPosition(old(desks)[s], t).(limits := old(desks)[s].limits[t := limits])]
        && exists b :: b in books && b.ticker == t
      ensures !ok ==>
        && entries == old(entries)
        && (desks == old(desks) || (s < |old(desks)| && desks == old(desks)[s := WithPosition(old(desks)[s], t)]))
    {
      if s >= |desks| || t in entries[s] || |entries[s]| >= maxTickers {
        return false;
      }
      var i := FindOrCreateTicker(t);
      if i >= |books| {
        return false;
      }
      assert books[i] in books;
      var d := desks[s];
      if t !in d.positions && |d.positions| >= maxTickers {
        return false;
      }
      d := WithPosition(d, t);
      if limits.maxPosition < 0 || limits.maxNotional < 0 || t in d.limits || |d.limits| >= maxTickers {
        desks := desks[s := d];
        return false;
      }
      desks := desks[s := d.(limits := d.limits[t := limits])];
      entries := entries[s := entries[s] + [t]];
      return true;
    }

    /** One call of a strategy: an id from the shared counter, a push to the shared queue if it has room. */
    method MakeCall(s: nat, a: Act)
      requires s < |desks|
      modifies `desks, `counter, `requests, `taken
      ensures Now() == Do(rules, old(Now()), s, a) && |desks| == |old(desks)|
    {
      taken := if taken + a.took <= |requests| then taken + a.took else |requests|;
      var kept := desks[s];
      var room := HasRoom(rules, Now());
      var d := Perform(ConfigOf(rules, s), kept.(counter := counter, outbox := requests), a.send, room);
      desks := desks[s := d.(counter := kept.counter, outbox := kept.outbox)];
      counter, requests := d.counter, d.outbox;
    }

    method MakeCalls(s: nat, acts: seq<Act>)
      requires s < |desks|
      modifies `desks, `counter, `requests, `taken
      ensures Now() == DoAll(rules, old(Now()), s, acts) && |desks| == |old(desks)|
    {
      var n := 0;
      while n < |acts|
        invariant n <= |acts| && |desks| == |old(desks)|
        invariant Now() == DoAll(rules, old(Now()), s, acts[..n])
      {
        assert acts[..n + 1][..n] == acts[..n];
        MakeCall(s, acts[n]);
        n := n + 1;
      }
      assert acts[..|acts|] == acts;
    }

    /** One slot: its position is marked, and its strategy called unless the book is loading a snapshot. */
    method ProcessSlotUpdate(s: nat, b: TickerBook, u: MarketUpdate)
      requires s < |desks| == |entries|
      modifies `desks, `counter, `requests, `taken, `log
      ensures |desks| == |old(desks)|
      ensures Given(rules, answers, NoticeTo(entries, b, u, s), old(log), old(Now()), log, Now())
    {
      if b.ticker !in entries[s] {
        GivenNone(rules, answers, log, Now());
        return;
      }
      var c, a := Notice(s, b.ticker, u, b.book), answers(|log|);
      GivenOne(rules, answers, c, log, Now());
      if a.mark != PRICE_INVALID {
        MarkIsMove(rules, Now(), s, b.ticker, a.mark);
        desks := desks[s := OnMarkTicker(desks[s], b.ticker, a.mark)];
      }
      assert Now() == Marked(rules, old(Now()), s, b.ticker, a.mark);
      if !b.book.inSnapshot {
        MakeCalls(s, a.acts);
      }
      log := log + [Told(c, a)];
    }

    /** Every slot in turn hears of an update to a book. */
    method TellSlots(b: TickerBook, u: MarketUpdate)
      requires |desks| == |entries|
      modifies `desks, `counter, `requests, `taken, `log
      ensures |desks| == |old(desks)|
      ensures Given(rules, answers, NoticesOn(entries, b, u, |entries|), old(log), old(Now()), log, Now())
    {
      ghost var log0, f0 := log, Now();
      var s := 0;
      GivenNone(rules, answers, log, Now());
      while s < |desks|
        invariant s <= |desks| == |entries|
        invariant Given(rules, answers, NoticesOn(entries, b, u, s), log0, f0, log, Now())
      {
        ghost var log1, f1 := log, Now();
        ProcessSlotUpdate(s, b, u);
        GivenBoth(rules, answers, NoticesOn(entries, b, u, s), NoticeTo(entries, b, u, s),
                  log0, f0, log1, f1, log, Now());
        s := s + 1;
      }
    }

    /** The book takes the update, and then every slot hears of it. */
    method ProcessBookUpdate(i: nat, u: MarketUpdate)
      requires i < |books| && |desks| == |entries|
      modifies `books, `desks, `counter, `requests, `taken, `log
      ensures |books| == |old(books)| && books == old(books)[i := books[i]] && |desks| == |old(desks)|
      ensures books[i].ticker == old(books)[i].ticker && BookStep(books[i].ticker, old(books)[i].book, u, books[i].book)
      ensures Given(rules, answers, NoticesOn(entries, books[i], u, |entries|), old(log), old(Now()), log, Now())
    {
      var book := ApplyTo(books[i].ticker, books[i].book, u);
      books := books[i := books[i].(book := book)];
      TellSlots(books[i], u);
    }

    /** One update: markers to every book, anything else to its ticker's book if there is one. */
    method ProcessUpdate(u: MarketUpdate)
      requires Valid()
      modifies `books, `desks, `counter, `requests, `taken, `log
      ensures Valid() && BooksStep(old(books), u, books) && |desks| == |old(desks)|
      ensures Given(rules, answers, NoticesOf(entries, books, u, |books|), old(log), old(Now()), log, Now())
    {
      if u.IsMarker() {
        ProcessMarker(u);
      } else {
        var i := FindTicker(u.ticker);
        if i < |books| {
          ProcessBookUpdate(i, u);
          NoticesOfOne(entries, books, u, i, |books|);
        } else {
          GivenNone(rules, answers, log, Now());
          NoticesOfNone(entries, books, u, |books|);
        }
        forall j: nat ensures BookStepAt(old(books), u, books, j) {}
      }
    }

    method ProcessMarker(u: MarketUpdate)
      requires Valid() && u.IsMarker()
      modifies `books, `desks, `counter, `requests, `taken, `log
      ensures Valid() && BooksStep(old(books), u, books) && |desks| == |old(desks)|
      ensures Given(rules, answers, NoticesOf(entries, books, u, |books|), old(log), old(Now()), log, Now())
    {
      ghost var log0, f0, books0 := log, Now(), books;
      var i := 0;
      GivenNone(rules, answers, log, Now());
      while i < |books|
        invariant |entries| == |f0.desks| && Midway(u, i, books0, log0, f0)
      {
        MarkBook(u, i, books0, log0, f0);
        i := i + 1;
      }
      AllBooksStepped(books0, u, books);
    }

    /** The first i books have taken the update and their slots have heard of it. */
    ghost predicate Midway(u: MarketUpdate, i: nat, books0: seq<TickerBook>, log0: seq<Told>, f0: Floor)
      reads this
    {
      && BooksUpTo(books0, u, books, i) && |desks| == |entries|
      && Given(rules, answers, NoticesOf(entries, books, u, i), log0, f0, log, Now())
    }

    method MarkBook(u: MarketUpdate, i: nat, ghost books0: seq<TickerBook>, ghost log0: seq<Told>, ghost f0: Floor)
      requires i < |books| && u.IsMarker() && Midway(u, i, books0, log0, f0)
      modifies `books, `desks, `counter, `requests, `taken, `log
      ensures Midway(u, i + 1, books0, log0, f0)
    {
      ghost var books1, log1, f1 := books, log, Now();
      ProcessBookUpdate(i, u);
      OneBookMore(books0, u, books1, i, books);
      NoticesOfFrame(entries, books1, books, u, i);
      GivenBoth(rules, answers, NoticesOf(entries, books, u, i), NoticesOn(entries, books[i], u, |entries|),
                log0, f0, log1, f1, log, Now());
    }

    /** The market-data queue, drained. */
    method DrainMarketUpdates(queue: seq<MarketUpdate>) returns (ghost traces: seq<seq<TickerBook>>)
      requires Valid()
      modifies `books, `desks, `counter, `requests, `taken, `log
      ensures Valid() && AreTraces(traces, queue) && traces[0] == old(books) && traces[|queue|] == books
      ensures Given(rules, answers, NoticeLog(entries, traces, queue), old(log), old(Now()), log, Now())
    {
      var n := 0;
      traces := [books];
      GivenNone(rules, answers, log, Now());
      while n < |queue|
        invariant n <= |queue| && Valid()
        invariant AreTraces(traces, queue[..n]) && traces[0] == old(books) && traces[n] == books
        invariant Given(rules, answers, NoticeLog(entries, traces, queue[..n]), old(log), old(Now()), log, Now())
      {
        ghost var log1, f1 := log, Now();
        ProcessUpdate(queue[n]);
        TracesSnoc(traces, queue, n, books);
        GivenBoth(rules, answers, NoticeLog(entries, traces, queue[..n]), NoticesOf(entries, books, queue[n], |books|),
                  old(log), old(Now()), log1, f1, log, Now());
        LogSnoc(entries, traces, queue, n, books);
        traces := traces + [books];
        n := n + 1;
      }
      assert queue[..|queue|] == queue;
    }

    /** Responses first, market updates second. */
    method RunOnce(round: Round) returns (rejected: nat, ghost traces: seq<seq<TickerBook>>)
      requires Valid()
      modifies `books, `desks, `counter, `requests, `taken, `log
      ensures Valid() && AreTraces(traces, round.updates) && traces[0] == old(books) && traces[|round.updates|] == books
      ensures rejected == RefusedCount(slotCount, old(desks), round.responses)
      ensures Given(rules, answers, NoticeLog(entries, traces, round.updates), old(log),
                    old(Now()).(desks := RouteAll(slotCount, old(desks), round.responses)), log, Now())
      ensures forall f :: Reaches(rules, f, old(Now())) ==> Reaches(rules, f, Now())
    {
      rejected := DrainResponses(round.responses);
      traces := DrainMarketUpdates(round.updates);
      forall f | Reaches(rules, f, old(Now())) ensures Reaches(rules, f, Now()) {
        RoundReaches(rules, slotCount, f, old(Now()), round, entries, traces, answers, |old(log)|, Now());
      }
    }

    /** The engine thread: whatever arrives and whatever the strategies do, the slots get from where they
        were to where they are by moves on the floor. */
    method Run(rounds: seq<Round>)
      requires Valid()
      modifies `books, `desks, `counter, `requests, `taken, `log
      ensures Valid() && Reaches(rules, old(Now()), Now())
    {
      ReachesItself(rules, Now());
      var n := 0;
      while n < |rounds|
        invariant n <= |rounds| && Valid() && Reaches(rules, old(Now()), Now())
      {
        var rejected, traces := RunOnce(rounds[n]);
        n := n + 1;
      }
    }
  }
}
