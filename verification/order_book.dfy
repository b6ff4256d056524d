/**
 MarketOrderBook as the object it is: tables changed in place, a cached best bid and offer, and
 a clear that walks every list (src/market_order_book.cpp).  Each method is proved against the
 table operations of `BookSteps` or directly against the plain map.
 */
module OrderBook {
  import opened Types
  import opened FeedBook
  import opened BookTables
  import opened BookSteps
  import opened BookBbo
  import opened BookRuns

  class MarketOrderBook {
    const ticker: TickerId
    var pool: map<Ptr, Node>
    var levels: map<Key, Level>
    var index: map<OrderId, Location>
    var bid: Quote
    var ask: Quote
    var inSnapshot: bool

    ghost function State(): Tables
      reads this
    {
      Tables(pool, levels, index)
    }

    ghost function Value(): Book
      reads this
    {
      Book(State(), bid, ask, inSnapshot)
    }

    /** Tables well formed, and the cached quotes are those of the first levels: by `BookRuns.SoundQuotes`
        the best of the orders in the book. */
    ghost predicate Valid()
      reads this
    {
      BookOk(Value())
    }

    ghost function Contents(): View
      reads this
    {
      ViewOf(Value())
    }

    constructor (ticker: TickerId)
      ensures this.ticker == ticker && Value() == NO_BOOK && Valid() && Contents() == EMPTY
    {
      this.ticker := ticker;
      pool, levels, index := map[], map[], map[];
      bid, ask, inSnapshot := NO_QUOTE, NO_QUOTE, false;
      new;
      EmptyBookOk(Value());
    }

    method LinkOrder(k: Key, p: Ptr)
      requires k in levels && p in pool
      modifies this`pool, this`levels
      ensures State() == Link(old(State()), k, p)
    {
      var l := levels[k];
      var total := (l.totalQty + pool[p].qty) % TWO_32;
      if l.head.None? || l.tail.None? {
        l := l.(head := Some(p), tail := Some(p));
      } else {
        pool := SetPrev(pool, p, l.tail);
        pool := SetNext(pool, l.tail.value, Some(p));
        l := l.(tail := Some(p));
      }
      levels := levels[k := l.(totalQty := total)];
    }

    method UnlinkOrder(k: Key, p: Ptr)
      requires k in levels && p in pool
      modifies this`pool, this`levels
      ensures State() == Unlink(old(State()), k, p)
    {
      var l, n := levels[k], pool[p];
      if n.prev.Some? {
        pool := SetNext(pool, n.prev.value, n.next);
      } else {
        l := l.(head := n.next);
      }
      if n.next.Some? {
        pool := SetPrev(pool, n.next.value, n.prev);
      } else {
        l := l.(tail := n.prev);
      }
      levels := levels[k := l.(totalQty := (l.totalQty - n.qty) % TWO_32)];
    }

    method EraseOrder(ref: OrderId) returns (erased: bool)
      requires Leads(State())
      modifies this`pool, this`levels, this`index
      ensures erased == (ref in old(index))
      ensures State() == if erased then Erase(old(State()), ref) else old(State())
    {
      if ref !in index {
        return false;
      }
      var loc := index[ref];
      UnlinkOrder(loc.key, loc.ptr);
      pool := pool - {loc.ptr};
      if levels[loc.key].head.None? {
        levels := levels - {loc.key};
      }
      index := index - {ref};
      return true;
    }

    method ReduceOrder(ref: OrderId, qty: Quantity) returns (found: bool)
      requires Leads(State())
      modifies this`pool, this`levels, this`index
      ensures found == (ref in old(index))
      ensures State() == if !found then old(State())
                         else if qty >= old(pool[index[ref].ptr].qty) then Erase(old(State()), ref)
                         else Shrink(old(State()), ref, qty)
    {
      if ref !in index {
        return false;
      }
      var loc := index[ref];
      if qty >= pool[loc.ptr].qty {
        found := EraseOrder(ref);
        return;
      }
      pool := pool[loc.ptr := pool[loc.ptr].(qty := pool[loc.ptr].qty - qty)];
      levels := levels[loc.key := levels[loc.key].(totalQty := (levels[loc.key].totalQty - qty) % TWO_32)];
      return true;
    }

    method ReplaceOrder(u: MarketUpdate) returns (moved: bool)
      requires Leads(State())
      modifies this`pool, this`levels, this`index
      ensures moved == (u.orderRef in old(index) && u.newRef !in old(index))
      ensures State() == if moved then Replace(old(State()), u) else old(State())
    {
      if u.orderRef !in index || u.newRef in index {
        return false;
      }
      var loc, k := index[u.orderRef], Key(u.side, u.price);
      UnlinkOrder(loc.key, loc.ptr);
      if levels[loc.key].head.None? {
        levels := levels - {loc.key};
      }
      if k !in levels {
        levels := levels[k := Level(k.price, 0, None, None)];
      }
      pool := pool[loc.ptr := pool[loc.ptr].(ref := u.newRef, qty := u.qty)];
      LinkOrder(k, loc.ptr);
      index := (index - {u.orderRef})[u.newRef := Location(k, loc.ptr)];
      return true;
    }

    method AddOrder(u: MarketUpdate) returns (ghost p: Ptr)
      requires u.orderRef !in index
      modifies this`pool, this`levels, this`index
      ensures p !in old(pool)
      ensures State() == Insert(old(State()), Key(u.side, u.price), p, Node(u.orderRef, u.qty, None, None))
    {
      var k := Key(u.side, u.price);
      if k !in levels {
        levels := levels[k := Level(k.price, 0, None, None)];
      }
      FreshPtr(pool.Keys);
      var node :| node !in pool;
      p := node;
      pool := pool[node := Node(u.orderRef, u.qty, None, None)];
      LinkOrder(k, node);
      index := index[u.orderRef := Location(k, node)];
    }

    method UpdateBBO()
      modifies this`bid, this`ask
      ensures Quoted(Value())
    {
      bid := TopOf(levels, BUY);
      ask := TopOf(levels, SELL);
    }

    /** Frees the nodes of one list from its head on. */
    method FreeLevel(k: Key, ghost t: Tables, ghost c: map<Key, seq<Ptr>>, ghost rest: set<Key>)
      requires Rep(t, c) && levels == t.levels && k in levels && k !in rest
      requires Remaining(t, c, pool, rest + {k})
      modifies this`pool
      ensures Remaining(t, c, pool, rest)
    {
      assert LevelOk(t, k, c[k]);
      var order := levels[k].head;
      ghost var i := 0;
      while order.Some?
        invariant i <= |c[k]| && order == if i < |c[k]| then Some(c[k][i]) else None
        invariant RemainingBut(t, c, pool, rest, k, i)
        decreases |c[k]| - i
      {
        var p := order.value;
        FreeOne(t, c, pool, rest, k, i);
        order := pool[p].next;
        pool := pool - {p};
        i := i + 1;
      }
      LevelFreed(t, c, pool, rest, k);
    }

    /** Frees every node once: each free finds its node still handed out, and none is left. */
    method FreeLevels(ghost t: Tables, ghost c: map<Key, seq<Ptr>>)
      requires Rep(t, c) && pool == t.pool && levels == t.levels
      modifies this`pool
      ensures pool == map[]
    {
      var rest := levels.Keys;
      AllThere(t, c);
      while rest != {}
        invariant rest <= levels.Keys
        invariant Remaining(t, c, pool, rest)
        decreases |rest|
      {
        var k :| k in rest;
        assert rest == (rest - {k}) + {k};
        FreeLevel(k, t, c, rest - {k});
        rest := rest - {k};
      }
      NothingLeft(t, c, pool);
    }

    method Clear()
      requires WellFormed(State())
      modifies this`pool, this`levels, this`index, this`bid, this`ask
      ensures Value() == NO_BOOK.(inSnapshot := inSnapshot)
    {
      ghost var c :| Rep(State(), c);
      FreeLevels(State(), c);
      levels, index := map[], map[];
      bid, ask := NO_QUOTE, NO_QUOTE;
    }

    method OnSnapshotStart()
      requires WellFormed(State())
      modifies this
      ensures Value() == NO_BOOK.(inSnapshot := true)
    {
      Clear();
      inSnapshot := true;
    }

    method OnSnapshotClear()
      requires WellFormed(State())
      modifies this
      ensures Value() == NO_BOOK.(inSnapshot := old(inSnapshot))
    {
      Clear();
    }

    method OnSnapshotEnd()
      modifies this
      ensures State() == old(State()) && !inSnapshot && Quoted(Value())
    {
      inSnapshot := false;
      UpdateBBO();
    }

    method OnMarker(u: MarketUpdate)
      requires WellFormed(State()) && u.IsMarker()
      modifies this
      ensures BookStep(ticker, old(Value()), u, Value())
    {
      if u.kind.SNAPSHOT_START? {
        OnSnapshotStart();
      } else if u.kind.SNAPSHOT_CLEAR? {
        if u.ticker == ticker {
          OnSnapshotClear();
        }
      } else {
        OnSnapshotEnd();
      }
    }

    /** Any update on a valid book: the contents change as the plain view says, and the book stays valid,
        quotes included, exactly unless the update spoils it. */
    method ApplyUpdate(u: MarketUpdate)
      requires Valid()
      modifies this
      ensures BookStep(ticker, old(Value()), u, Value())
      ensures Contents() == Apply(ticker, old(Contents()), u)
      ensures Valid() <==> !SpoilsBook(ticker, old(Value()), u)
    {
      WellFormedLeads(State());
      if u.IsMarker() {
        OnMarker(u);
      } else if u.ticker == ticker {
        ApplyToTables(u);
      }
      BookStepOk(ticker, old(Value()), u, Value());
    }

    /** The part of applyUpdate that concerns this ticker's orders, on any book whose index leads to nodes. */
    method ApplyToTables(u: MarketUpdate)
      requires Leads(State()) && !u.IsMarker()
      modifies this`pool, this`levels, this`index, this`bid, this`ask
      ensures OrderStep(old(Value()), u, Value())
    {
      FreshPtr(pool.Keys);
      ghost var p :| p !in pool;
      var changed := false;
      match u.kind {
        case ADD | ADD_MPID =>
          if u.orderRef !in index {
            p := AddOrder(u);
            changed := true;
          }
        case DELETE => changed := EraseOrder(u.orderRef);
        case CANCEL | EXECUTE => changed := ReduceOrder(u.orderRef, u.qty);
        case REPLACE => changed := ReplaceOrder(u);
        case _ =>
      }
      assert State() == ApplyTables(old(State()), u, p);
      if changed {
        UpdateBBO();
      }
    }

    /** A whole run: the book follows the plain view update by update, and the run stops exactly at the
        first update that spoils the book it meets, if there is one. */
    method ApplyAll(us: seq<MarketUpdate>) returns (n: nat, ghost trace: seq<Book>)
      requires Valid()
      modifies this
      ensures n <= |us| && IsTrace(ticker, trace, us[..n])
      ensures trace[0] == old(Value()) && trace[n] == Value()
      ensures n > 0 ==> NoneSpoils(ticker, trace, us, n - 1)
      ensures n < |us| || !Valid() ==> n > 0 && SpoilsBook(ticker, trace[n - 1], us[n - 1])
      ensures Valid() ==> NoneSpoils(ticker, trace, us, n)
      ensures Contents() == Fold(ticker, old(Contents()), us[..n])
    {
      n, trace := 0, [Value()];
      while n < |us|
        invariant n <= |us| && SoundSoFar(ticker, trace, us, n) && Valid()
        invariant trace[0] == old(Value()) && trace[n] == Value()
      {
        var spoils;
        spoils, trace := TakeOne(us, n, trace);
        n := n + 1;
        if spoils {
          break;
        }
      }
      RunMeans(ticker, trace, us, n);
    }

    /** One more update of the run, and whether it spoils the book. */
    method TakeOne(us: seq<MarketUpdate>, n: nat, ghost trace: seq<Book>) returns (spoils: bool, ghost after: seq<Book>)
      requires n < |us| && SoundSoFar(ticker, trace, us, n) && Valid() && trace[n] == Value()
      modifies this
      ensures spoils <==> SpoilsBook(ticker, trace[n], us[n])
      ensures Valid() <==> !spoils
      ensures after == trace + [Value()] && IsTrace(ticker, after, us[..n + 1]) && NoneSpoils(ticker, after, us, n)
      ensures SoundSoFar(ticker, after, us, n + 1) <==> !spoils
    {
      spoils := us[n].ticker == ticker && Spoils(Tables(pool, levels, index), us[n]);
      ApplyUpdate(us[n]);
      after := trace + [Value()];
      TraceGrows(ticker, trace, us, n, Value());
    }
  }

  /** A run of the first n updates, none of which spoiled the book it met. */
  ghost predicate SoundSoFar(t: TickerId, trace: seq<Book>, us: seq<MarketUpdate>, n: nat) {
    n <= |us| && IsTrace(t, trace, us[..n]) && NoneSpoils(t, trace, us, n)
  }

  lemma {:induction false} TraceGrows(t: TickerId, trace: seq<Book>, us: seq<MarketUpdate>, n: nat, b: Book)
    requires n < |us| && SoundSoFar(t, trace, us, n) && BookStep(t, trace[n], us[n], b)
    ensures IsTrace(t, trace + [b], us[..n + 1]) && NoneSpoils(t, trace + [b], us, n)
    ensures SoundSoFar(t, trace + [b], us, n + 1) <==> !SpoilsBook(t, trace[n], us[n])
  {
    TraceSnoc(t, trace, us, n, b);
    NoneSpoilsSnoc(t, trace, us, n, b);
  }

  /** A run that was sound until its last update holds what the updates mean. */
  lemma {:induction false} RunMeans(t: TickerId, trace: seq<Book>, us: seq<MarketUpdate>, n: nat)
    requires n <= |us| && IsTrace(t, trace, us[..n]) && BookOk(trace[0]) && (n == 0 || NoneSpoils(t, trace, us, n - 1))
    ensures ViewOf(trace[n]) == Fold(t, ViewOf(trace[0]), us[..n])
  {
    var vs := us[..n];
    if n > 0 {
      NoneSpoilsPrefix(t, trace, us, n, n - 1);
      TraceOkIff(t, trace, vs, n - 1);
    }
    TraceFollows(t, trace, vs, n);
    assert vs[..n] == vs;
  }

  // ---------------------------------------------------------------------------
  // Freeing lists

  /** The nodes still handed out are those of the levels in `rest`. */
  ghost predicate Remaining(t: Tables, c: map<Key, seq<Ptr>>, pool: map<Ptr, Node>, rest: set<Key>) {
    && (forall p :: p in pool ==> p in t.pool && pool[p] == t.pool[p])
    && forall k, j :: k in c && 0 <= j < |c[k]| ==> (c[k][j] in pool <==> k in rest)
  }

  /** As above, with level k freed up to its i-th node. */
  ghost predicate RemainingBut(
      t: Tables, c: map<Key, seq<Ptr>>, pool: map<Ptr, Node>, rest: set<Key>, cur: Key, i: nat)
  {
    && (forall p :: p in pool ==> p in t.pool && pool[p] == t.pool[p])
    && (forall k, j :: k in c && k != cur && 0 <= j < |c[k]| ==> (c[k][j] in pool <==> k in rest))
    && (cur in c ==> forall j :: 0 <= j < |c[cur]| ==> (c[cur][j] in pool <==> j >= i))
  }

  lemma {:induction false} AllThere(t: Tables, c: map<Key, seq<Ptr>>)
    requires Rep(t, c)
    ensures Remaining(t, c, t.pool, t.levels.Keys)
  {
    forall k, j | k in c && 0 <= j < |c[k]| ensures c[k][j] in t.pool { assert LevelOk(t, k, c[k]); }
  }

  lemma {:induction false} FreeOne(
      t: Tables, c: map<Key, seq<Ptr>>, pool: map<Ptr, Node>, rest: set<Key>, k: Key, i: nat)
    requires Rep(t, c) && RemainingBut(t, c, pool, rest, k, i) && k in c && k in t.levels && i < |c[k]|
    ensures c[k][i] in pool
    ensures pool[c[k][i]].next == if i + 1 < |c[k]| then Some(c[k][i + 1]) else None
    ensures RemainingBut(t, c, pool - {c[k][i]}, rest, k, i + 1)
  {
    var s := c[k];
    assert LevelOk(t, k, s) && JoinedAt(t.pool, s, i);
    forall k', j | k' in c && k' != k && 0 <= j < |c[k']| ensures c[k'][j] != s[i] {
      if c[k'][j] == s[i] { Separate(t, c, k, k', s[i]); }
    }
  }

  lemma {:induction false} LevelFreed(t: Tables, c: map<Key, seq<Ptr>>, pool: map<Ptr, Node>, rest: set<Key>, k: Key)
    requires k in c && k !in rest && RemainingBut(t, c, pool, rest, k, |c[k]|)
    ensures Remaining(t, c, pool, rest)
  {
  }

  lemma {:induction false} NothingLeft(t: Tables, c: map<Key, seq<Ptr>>, pool: map<Ptr, Node>)
    requires Rep(t, c) && Remaining(t, c, pool, {})
    ensures pool == map[]
  {
    forall p ensures p !in pool {
      if p in t.pool {
        assert Tracked(t, p);
        assert Found(t, c, t.pool[p].ref);
      }
    }
  }
}
