/**
 A whole order book as a value, tables, cached quotes and snapshot flag; what one update may do to it;
 and runs of updates: exactly up to the first spoiling replace, the book is well formed, holds what the
 plain view holds, and quotes the best of it.
 */
module BookRuns {
  import opened Types
  import opened FeedBook
  import opened BookTables
  import opened BookSteps
  import opened BookBbo

  datatype Book = Book(tables: Tables, bid: Quote, ask: Quote, inSnapshot: bool)

  const NO_BOOK := Book(NO_TABLES, NO_QUOTE, NO_QUOTE, false)

  /** The cached quotes are those of the first levels. */
  ghost predicate Quoted(b: Book) {
    IsTop(b.tables.levels, BUY, b.bid) && IsTop(b.tables.levels, SELL, b.ask)
  }

  /** A sound book: tables well formed, quotes those of its first levels. */
  ghost predicate BookOk(b: Book) {
    WellFormed(b.tables) && Quoted(b)
  }

  /** A sound book quotes the best of the orders it stands for. */
  lemma {:induction false} SoundQuotes(b: Book)
    requires BookOk(b)
    ensures IsBest(Plain(b.tables), BUY, b.bid) && IsBest(Plain(b.tables), SELL, b.ask)
  {
    var c :| Rep(b.tables, c);
    TopIsBest(b.tables, c, BUY, b.bid);
    TopIsBest(b.tables, c, SELL, b.ask);
  }

  ghost function ViewOf(b: Book): View {
    View(Plain(b.tables), b.inSnapshot)
  }

  /** The update finds something to do, so the quotes are refreshed. */
  predicate Changes(t: Tables, u: MarketUpdate) {
    match u.kind
    case ADD | ADD_MPID => u.orderRef !in t.index
    case DELETE | CANCEL | EXECUTE => u.orderRef in t.index
    case REPLACE => u.orderRef in t.index && u.newRef !in t.index
    case _ => false
  }

  /** An update of the book's own orders; a new order takes any unused node. */
  ghost predicate OrderStep(b: Book, u: MarketUpdate, b': Book)
    requires Leads(b.tables)
  {
    && b'.inSnapshot == b.inSnapshot
    && (exists p :: p !in b.tables.pool && b'.tables == ApplyTables(b.tables, u, p))
    && if Changes(b.tables, u) then Quoted(b') else b'.bid == b.bid && b'.ask == b.ask
  }

  /**
   applyUpdate on the book of ticker `t`.  Clearing walks the lists and updating follows the index, so on
   broken lists, or an index that leads nowhere, nothing is promised of the outcome.
   */
  ghost predicate BookStep(t: TickerId, b: Book, u: MarketUpdate, b': Book) {
    match u.kind
    case SNAPSHOT_START => WellFormed(b.tables) ==> b' == NO_BOOK.(inSnapshot := true)
    case SNAPSHOT_CLEAR =>
      if u.ticker != t then b' == b
      else WellFormed(b.tables) ==> b' == NO_BOOK.(inSnapshot := b.inSnapshot)
    case SNAPSHOT_END => b'.tables == b.tables && !b'.inSnapshot && Quoted(b')
    case _ => if u.ticker != t then b' == b else Leads(b.tables) ==> OrderStep(b, u, b')
  }

  predicate SpoilsBook(t: TickerId, b: Book, u: MarketUpdate) {
    u.ticker == t && Spoils(b.tables, u)
  }

  lemma {:induction false} EmptyBookOk(b: Book)
    requires b.tables == NO_TABLES && b.bid == NO_QUOTE && b.ask == NO_QUOTE
    ensures BookOk(b) && Plain(b.tables) == map[]
  {
    assert Rep(b.tables, map[]);
  }

  lemma {:induction false} OrderStepOk(b: Book, u: MarketUpdate, b': Book)
    requires BookOk(b) && !u.IsMarker() && Leads(b.tables) && OrderStep(b, u, b')
    ensures BookOk(b') <==> !Spoils(b.tables, u)
    ensures Plain(b'.tables) == ApplyOrder(Plain(b.tables), u) && b'.inSnapshot == b.inSnapshot
  {
    var p :| p !in b.tables.pool && b'.tables == ApplyTables(b.tables, u, p);
    ApplyOk(b.tables, u, p);
    assert Changes(b.tables, u) || b'.tables == b.tables;
  }

  /** One update takes a sound book to what the plain view says, and to a sound book exactly unless it spoils it. */
  lemma {:induction false} BookStepOk(t: TickerId, b: Book, u: MarketUpdate, b': Book)
    requires BookOk(b) && BookStep(t, b, u, b')
    ensures BookOk(b') <==> !SpoilsBook(t, b, u)
    ensures ViewOf(b') == Apply(t, ViewOf(b), u)
  {
    WellFormedLeads(b.tables);
    match u.kind
    case SNAPSHOT_START => EmptyBookOk(b');
    case SNAPSHOT_CLEAR => if u.ticker == t { EmptyBookOk(b'); }
    case SNAPSHOT_END =>
    case _ => if u.ticker == t { OrderStepOk(b, u, b'); }
  }

  // ---------------------------------------------------------------------------
  // Computing a step

  lemma {:induction false} FreshPtr(s: set<Ptr>)
    ensures exists p :: p !in s && forall q :: q in s ==> q < p
    decreases |s|
  {
    if s != {} {
      var a :| a in s;
      FreshPtr(s - {a});
      var p :| p !in s - {a} && forall q :: q in s - {a} ==> q < p;
      var b := if a < p then p else a + 1;
      assert forall q :: q in s ==> q == a || q in s - {a};
      assert b !in s && forall q :: q in s ==> q < b;
    } else {
      assert 0 !in s;
    }
  }

  ghost predicate IsFirst(s: set<Key>, side: Side, k: Key) {
    k in s && k.side == side && forall j :: j in s && j.side == side ==> !Better(side, j.price, k.price)
  }

  /** An ordered map that is not empty has a first key. */
  lemma {:induction false} FirstExists(s: set<Key>, side: Side, a: Key)
    requires a in s && a.side == side
    ensures exists k :: IsFirst(s, side, k)
    decreases |s|
  {
    var t := s - {a};
    assert forall j :: j in s ==> j == a || j in t;
    if j :| j in t && j.side == side {
      FirstExists(t, side, j);
      var b :| IsFirst(t, side, b);
      assert IsFirst(s, side, if Better(side, a.price, b.price) then a else b);
    } else {
      assert IsFirst(s, side, a);
    }
  }

  /** The first level of a side in price order. */
  method TopOf(levels: map<Key, Level>, side: Side) returns (q: Quote)
    ensures IsTop(levels, side, q)
  {
    if k :| k in levels && k.side == side {
      assert LevelOn(levels, side, k);
      FirstExists(levels.Keys, side, k);
      var top :| top in levels.Keys && top.side == side
                 && forall j :: j in levels.Keys && j.side == side ==> !Better(side, j.price, top.price);
      assert top == Key(side, top.price);
      q := Quote(top.price, levels[top].totalQty);
    } else {
      q := NO_QUOTE;
    }
  }

  /** applyUpdate on a book held as a value. */
  method ApplyTo(t: TickerId, b: Book, u: MarketUpdate) returns (b': Book)
    ensures BookStep(t, b, u, b')
  {
    if u.kind.SNAPSHOT_START? {
      return NO_BOOK.(inSnapshot := true);
    }
    if u.kind.SNAPSHOT_CLEAR? {
      return if u.ticker == t then NO_BOOK.(inSnapshot := b.inSnapshot) else b;
    }
    if u.kind.SNAPSHOT_END? {
      var bid := TopOf(b.tables.levels, BUY);
      var ask := TopOf(b.tables.levels, SELL);
      return Book(b.tables, bid, ask, false);
    }
    if u.ticker != t || !Leads(b.tables) {
      return b;
    }
    FreshPtr(b.tables.pool.Keys);
    var p :| p !in b.tables.pool;
    var tables := ApplyTables(b.tables, u, p);
    b' := b.(tables := tables);
    if Changes(b.tables, u) {
      var bid := TopOf(tables.levels, BUY);
      var ask := TopOf(tables.levels, SELL);
      b' := b'.(bid := bid, ask := ask);
    }
  }

  // ---------------------------------------------------------------------------
  // Runs

  /** The book before the first update, and after each. */
  ghost predicate IsTrace(t: TickerId, trace: seq<Book>, us: seq<MarketUpdate>) {
    |trace| == |us| + 1 && forall k :: StepAt(t, trace, us, k)
  }

  ghost predicate StepAt(t: TickerId, trace: seq<Book>, us: seq<MarketUpdate>, k: nat)
    requires |trace| == |us| + 1
  {
    k < |us| ==> BookStep(t, trace[k], us[k], trace[k + 1])
  }

  /** p holds of 0..n. */
  ghost predicate UpTo(p: nat -> bool, n: nat) {
    p(n) && (n == 0 || UpTo(p, n - 1))
  }

  ghost function OkAt(trace: seq<Book>): nat -> bool {
    (k: nat) => k < |trace| && BookOk(trace[k])
  }

  ghost function CleanAt(t: TickerId, trace: seq<Book>, us: seq<MarketUpdate>): nat -> bool {
    (k: nat) => k < |us| && k < |trace| && !SpoilsBook(t, trace[k], us[k])
  }

  /** The book is sound before the first update and after each of the first n. */
  ghost predicate OkUpTo(trace: seq<Book>, n: nat) {
    UpTo(OkAt(trace), n)
  }

  /** None of the first n updates spoils the book it meets. */
  ghost predicate NoneSpoils(t: TickerId, trace: seq<Book>, us: seq<MarketUpdate>, n: nat) {
    n == 0 || UpTo(CleanAt(t, trace, us), n - 1)
  }

  /** What holds at first, and is passed on exactly by the clean steps, holds up to n exactly when all of them
      are clean. */
  lemma {:induction false} PassedOn(ok: nat -> bool, clean: nat -> bool, n: nat)
    requires ok(0) && forall k: nat :: k < n && ok(k) ==> (ok(k + 1) <==> clean(k))
    ensures UpTo(ok, n) <==> n == 0 || UpTo(clean, n - 1)
  {
    if n > 0 {
      PassedOn(ok, clean, n - 1);
    }
  }

  lemma {:induction false} UpToAt(p: nat -> bool, n: nat, k: nat)
    requires UpTo(p, n) && k <= n
    ensures p(k)
    decreases n
  {
    if k < n {
      UpToAt(p, n - 1, k);
    }
  }

  /** Sound before an update, sound after it exactly unless it spoils; meaning the same either way. */
  ghost predicate KeptAt(t: TickerId, trace: seq<Book>, us: seq<MarketUpdate>, k: nat)
    requires |trace| == |us| + 1 && k < |us|
  {
    BookOk(trace[k]) ==>
      && (BookOk(trace[k + 1]) <==> !SpoilsBook(t, trace[k], us[k]))
      && ViewOf(trace[k + 1]) == Apply(t, ViewOf(trace[k]), us[k])
  }

  lemma {:induction false} StepKept(t: TickerId, trace: seq<Book>, us: seq<MarketUpdate>, k: nat)
    requires |trace| == |us| + 1 && k < |us| && StepAt(t, trace, us, k)
    ensures KeptAt(t, trace, us, k)
  {
    var b, u, b' := trace[k], us[k], trace[k + 1];
    if BookOk(b) {
      BookStepOk(t, b, u, b');
    }
  }

  /** Exactly the runs without a spoiling replace keep the book sound throughout. */
  lemma {:induction false} TraceOkIff(t: TickerId, trace: seq<Book>, us: seq<MarketUpdate>, n: nat)
    requires IsTrace(t, trace, us) && n <= |us| && BookOk(trace[0])
    ensures OkUpTo(trace, n) <==> NoneSpoils(t, trace, us, n)
  {
    var ok, clean := OkAt(trace), CleanAt(t, trace, us);
    forall k: nat | k < n && ok(k) ensures ok(k + 1) <==> clean(k) {
      assert StepAt(t, trace, us, k);
      StepKept(t, trace, us, k);
    }
    PassedOn(ok, clean, n);
  }

  ghost function FollowAt(t: TickerId, trace: seq<Book>, us: seq<MarketUpdate>): nat -> bool {
    (k: nat) => k < |us| && k + 1 < |trace| && ViewOf(trace[k + 1]) == Apply(t, ViewOf(trace[k]), us[k])
  }

  lemma {:induction false} UpToWeaker(p: nat -> bool, q: nat -> bool, n: nat)
    requires UpTo(p, n) && forall k: nat :: k <= n && p(k) ==> q(k)
    ensures UpTo(q, n)
  {
    if n > 0 {
      UpToWeaker(p, q, n - 1);
    }
  }

  predicate ApplyAt(t: TickerId, views: seq<View>, us: seq<MarketUpdate>, k: nat) {
    k < |us| && k + 1 < |views| && views[k + 1] == Apply(t, views[k], us[k])
  }

  /** Views that follow n updates one by one end in their fold. */
  lemma {:induction false} ViewsFold(t: TickerId, views: seq<View>, us: seq<MarketUpdate>, n: nat)
    requires n <= |us| && n < |views| && forall k: nat :: k < n ==> ApplyAt(t, views, us, k)
    ensures views[n] == Fold(t, views[0], us[..n])
  {
    if n > 0 {
      ViewsFold(t, views, us, n - 1);
      assert ApplyAt(t, views, us, n - 1);
      assert us[..n][..n - 1] == us[..n - 1];
    }
  }

  /** A book whose contents follow n updates one by one holds their fold. */
  lemma {:induction false} FollowFold(t: TickerId, trace: seq<Book>, us: seq<MarketUpdate>, n: nat)
    requires |trace| == |us| + 1 && n <= |us| && (n == 0 || UpTo(FollowAt(t, trace, us), n - 1))
    ensures ViewOf(trace[n]) == Fold(t, ViewOf(trace[0]), us[..n])
  {
    var views := seq(|trace|, k requires 0 <= k < |trace| => ViewOf(trace[k]));
    forall k: nat | k < n ensures ApplyAt(t, views, us, k) {
      UpToAt(FollowAt(t, trace, us), n - 1, k);
    }
    ViewsFold(t, views, us, n);
  }

  lemma {:induction false} OkFollows(t: TickerId, trace: seq<Book>, us: seq<MarketUpdate>, k: nat)
    requires IsTrace(t, trace, us) && k < |us|
    ensures OkAt(trace)(k) ==> FollowAt(t, trace, us)(k)
  {
    assert StepAt(t, trace, us, k);
    StepKept(t, trace, us, k);
  }

  /** Up to there, and one update further, the book holds the orders that the updates mean. */
  lemma {:induction false} TraceFollows(t: TickerId, trace: seq<Book>, us: seq<MarketUpdate>, n: nat)
    requires IsTrace(t, trace, us) && n <= |us| && (n == 0 || OkUpTo(trace, n - 1))
    ensures ViewOf(trace[n]) == Fold(t, ViewOf(trace[0]), us[..n])
  {
    if n > 0 {
      forall k: nat | k <= n - 1 ensures OkAt(trace)(k) ==> FollowAt(t, trace, us)(k) { OkFollows(t, trace, us, k); }
      UpToWeaker(OkAt(trace), FollowAt(t, trace, us), n - 1);
    }
    FollowFold(t, trace, us, n);
  }

  lemma {:induction false} TraceSnoc(t: TickerId, trace: seq<Book>, us: seq<MarketUpdate>, n: nat, b: Book)
    requires n < |us| && IsTrace(t, trace, us[..n]) && BookStep(t, trace[n], us[n], b)
    ensures IsTrace(t, trace + [b], us[..n + 1])
  {
    var longer, more := trace + [b], us[..n + 1];
    forall k: nat ensures StepAt(t, longer, more, k) {
      if k < n { assert StepAt(t, trace, us[..n], k); }
    }
  }

  lemma {:induction false} SameUpTo(p: nat -> bool, q: nat -> bool, n: nat)
    requires forall k: nat :: k <= n ==> p(k) == q(k)
    ensures UpTo(p, n) == UpTo(q, n)
  {
    if n > 0 {
      SameUpTo(p, q, n - 1);
    }
  }

  lemma {:induction false} NoneSpoilsSnoc(t: TickerId, trace: seq<Book>, us: seq<MarketUpdate>, n: nat, b: Book)
    requires |trace| == n + 1 && n < |us|
    ensures NoneSpoils(t, trace + [b], us, n) == NoneSpoils(t, trace, us, n)
    ensures NoneSpoils(t, trace + [b], us, n + 1) <==> NoneSpoils(t, trace, us, n) && !SpoilsBook(t, trace[n], us[n])
  {
    if n > 0 {
      SameUpTo(CleanAt(t, trace + [b], us), CleanAt(t, trace, us), n - 1);
    }
  }

  lemma {:induction false} NoneSpoilsPrefix(t: TickerId, trace: seq<Book>, us: seq<MarketUpdate>, n: nat, k: nat)
    requires k <= n <= |us|
    ensures NoneSpoils(t, trace, us[..n], k) == NoneSpoils(t, trace, us, k)
  {
    if k > 0 {
      SameUpTo(CleanAt(t, trace, us[..n]), CleanAt(t, trace, us), k - 1);
    }
  }
}
