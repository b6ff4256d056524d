/**
 The cached best bid and offer (src/market_order_book.cpp:68-89), what a stale link does to it,
 and the number of pooled nodes.
 */
module BookBbo {
  import opened Types
  import opened FeedBook
  import opened Sums
  import opened BookTables
  import opened BookSteps

  datatype Quote = Quote(price: Price, qty: Quantity)

  const NO_QUOTE := Quote(PRICE_INVALID, 0)

  predicate Better(side: Side, a: Price, b: Price) {
    if side.BUY? then a > b else a < b
  }

  predicate LevelOn(levels: map<Key, Level>, side: Side, k: Key) {
    k in levels && k.side == side
  }

  /** What updateBBO caches for one side: the first level of its map, or the invalid marker. */
  ghost predicate IsTop(levels: map<Key, Level>, side: Side, q: Quote) {
    if exists k {:trigger LevelOn(levels, side, k)} :: LevelOn(levels, side, k) then
      && Key(side, q.price) in levels && levels[Key(side, q.price)].totalQty == q.qty
      && forall k {:trigger LevelOn(levels, side, k)} :: LevelOn(levels, side, k) ==> !Better(side, k.price, q.price)
    else q == NO_QUOTE
  }

  ghost function AtPrice(m: Orders, k: Key): map<OrderId, int> {
    map r | r in m && m[r].side == k.side && m[r].price == k.price :: m[r].qty as int
  }

  /** The quantity resting at a price. */
  ghost function Depth(m: Orders, k: Key): int {
    MapSum(AtPrice(m, k))
  }

  predicate OnSide(m: Orders, side: Side, r: OrderId) {
    r in m && m[r].side == side
  }

  /** The best price of a side with all the quantity resting there (in 32 bits), or the invalid
      marker when the side is empty. */
  ghost predicate IsBest(m: Orders, side: Side, q: Quote) {
    if exists r {:trigger OnSide(m, side, r)} :: OnSide(m, side, r) then
      && (exists r {:trigger OnSide(m, side, r)} :: OnSide(m, side, r) && m[r].price == q.price)
      && (forall r {:trigger OnSide(m, side, r)} :: OnSide(m, side, r) ==> !Better(side, m[r].price, q.price))
      && q.qty == Depth(m, Key(side, q.price)) % TWO_32
    else q == NO_QUOTE
  }

  /** A level's running total is the quantity resting at its price. */
  lemma {:induction false} TotalIsDepth(t: Tables, c: map<Key, seq<Ptr>>, k: Key)
    requires Rep(t, c) && k in t.levels
    ensures t.levels[k].totalQty == Depth(Plain(t), k) % TWO_32
  {
    assert LevelOk(t, k, c[k]);
    var s, m := c[k], AtPrice(Plain(t), k);
    var refs: seq<OrderId> := seq(|s|, i requires 0 <= i < |s| => t.pool[s[i]].ref);
    forall i | 0 <= i < |s|
      ensures refs[i] in m && m[refs[i]] == Qtys(t.pool, s)[i] && t.index[refs[i]] == Location(k, s[i])
    {
      assert Filed(t, k, s[i]);
    }
    forall r | r in m ensures r in refs {
      var i := Position(t, c, r);
      assert refs[i] == r;
    }
    MapSumListed<OrderId>(m, refs, Qtys(t.pool, s));
    assert Depth(Plain(t), k) == Sum(Qtys(t.pool, s));
  }

  lemma {:induction false} LevelHasOrder(t: Tables, c: map<Key, seq<Ptr>>, k: Key) returns (r: OrderId)
    requires Rep(t, c) && k in t.levels
    ensures r in Plain(t) && Plain(t)[r].side == k.side && Plain(t)[r].price == k.price
  {
    assert LevelOk(t, k, c[k]);
    r := t.pool[c[k][0]].ref;
    assert Filed(t, k, c[k][0]);
  }

  lemma {:induction false} OrderHasLevel(t: Tables, c: map<Key, seq<Ptr>>, r: OrderId)
    requires Rep(t, c) && r in Plain(t)
    ensures Key(Plain(t)[r].side, Plain(t)[r].price) in t.levels
  {
    assert Found(t, c, r);
  }

  /** On a well-formed book the cached quote is the best of the orders it stands for. */
  lemma {:induction false} TopIsBest(t: Tables, c: map<Key, seq<Ptr>>, side: Side, q: Quote)
    requires Rep(t, c) && IsTop(t.levels, side, q)
    ensures IsBest(Plain(t), side, q)
  {
    var m := Plain(t);
    forall r | OnSide(m, side, r) ensures LevelOn(t.levels, side, Key(side, m[r].price)) { OrderHasLevel(t, c, r); }
    if k :| LevelOn(t.levels, side, k) {
      var r := LevelHasOrder(t, c, Key(side, q.price));
      assert OnSide(m, side, r);
      TotalIsDepth(t, c, Key(side, q.price));
    }
  }

  // ---------------------------------------------------------------------------
  // A stale link at work

  /** Update number n bids under reference n. */
  function AddBid(n: SeqNum, price: Price, qty: Quantity): MarketUpdate {
    MarketUpdate(n, 0, ADD, BUY, price, qty, n, 0)
  }

  const MOVE := MarketUpdate(3, 0, REPLACE, BUY, 101, 5, 1, 3)
  const DROP := MarketUpdate(4, 0, DELETE, BUY, 101, 0, 3, 0)

  const BID100 := Key(BUY, 100)
  const BID101 := Key(BUY, 101)

  /** Orders 1 and 2 rest at 100; order 1 moves to 101 as order 3 and is then deleted. */
  const ONE := Tables(map[0 := Node(1, 10, None, None)],
                      map[BID100 := Level(100, 10, Some(0), Some(0))],
                      map[1 := Location(BID100, 0)])
  const TWO := Tables(map[0 := Node(1, 10, Some(1), None), 1 := Node(2, 20, None, Some(0))],
                      map[BID100 := Level(100, 30, Some(0), Some(1))],
                      map[1 := Location(BID100, 0), 2 := Location(BID100, 1)])
  const MOVED := Tables(map[0 := Node(3, 5, Some(1), None), 1 := Node(2, 20, None, None)],
                        map[BID100 := Level(100, 20, Some(1), Some(1)), BID101 := Level(101, 5, Some(0), Some(0))],
                        map[3 := Location(BID101, 0), 2 := Location(BID100, 1)])
  const DROPPED := Tables(map[1 := Node(2, 20, None, None)],
                          map[BID100 := Level(100, 20, Some(1), Some(1)), BID101 := Level(101, 0, Some(1), Some(0))],
                          map[2 := Location(BID100, 1)])

  lemma {:induction false} StaleSteps()
    ensures ApplyTables(NO_TABLES, AddBid(1, 100, 10), 0) == ONE
    ensures ApplyTables(ONE, AddBid(2, 100, 20), 1) == TWO
  {
  }

  /** Order 1 is out of its list, and its node still points to order 2. */
  const UNLINKED := TWO.(pool := map[0 := Node(1, 10, Some(1), None), 1 := Node(2, 20, None, None)],
                         levels := map[BID100 := Level(100, 20, Some(1), Some(1))])

  lemma {:induction false} StaleUnlink()
    ensures Prune(Unlink(TWO, BID100, 0), BID100) == UNLINKED
  {
  }

  lemma {:induction false} SetAgain<K, V>(m: map<K, V>, k: K, x: V, y: V)
    ensures m[k := x][k := y] == m[k := y]
  {
  }

  lemma {:induction false} TwoKeys<K, V>(k: K, x: V, x': V, l: K, y: V)
    requires k != l
    ensures map[k := x, l := y][k := x'] == map[k := x', l := y]
    ensures map[k := x, l := y] - {k} == map[l := y]
    ensures map[l := y][k := x] == map[k := x, l := y]
  {
  }

  lemma {:induction false} PartsMoved()
    ensures UNLINKED.pool[0 := Node(3, 5, Some(1), None)] == MOVED.pool
    ensures UNLINKED.levels[BID101 := Level(101, 0, None, None)][BID101 := Level(101, 5, Some(0), Some(0))] ==
        MOVED.levels
    ensures (TWO.index - {1})[3 := Location(BID101, 0)] == MOVED.index
  {
    TwoKeys<Ptr, Node>(0, Node(1, 10, Some(1), None), Node(3, 5, Some(1), None), 1, Node(2, 20, None, None));
    SetAgain<Key, Level>(UNLINKED.levels, BID101, Level(101, 0, None, None), Level(101, 5, Some(0), Some(0)));
    TwoKeys<OrderId, Location>(1, Location(BID100, 0), Location(BID100, 0), 2, Location(BID100, 1));
    TwoKeys<OrderId, Location>(3, Location(BID101, 0), Location(BID101, 0), 2, Location(BID100, 1));
  }

  lemma {:induction false} StaleRelink()
    ensures var a := GetOrCreate(UNLINKED, BID101);
      var b := Link(a.(pool := a.pool[0 := Node(3, 5, Some(1), None)]), BID101, 0);
      b.(index := (b.index - {1})[3 := Location(BID101, 0)]) == MOVED
  {
    PartsMoved();
  }

  lemma {:induction false} StaleMove()
    ensures ApplyTables(TWO, MOVE, 2) == MOVED
  {
    StaleUnlink();
    StaleRelink();
  }

  lemma {:induction false} StaleDrop()
    ensures ApplyTables(MOVED, DROP, 2) == DROPPED
  {
    var left := Node(2, 20, None, None);
    SetAgain<Ptr, Node>(map[0 := Node(3, 5, Some(1), None)], 1, left, left);
    TwoKeys<Ptr, Node>(0, Node(3, 5, Some(1), None), left, 1, left);
    SetAgain<Key, Level>(UNLINKED.levels, BID101, Level(101, 5, Some(0), Some(0)), Level(101, 0, Some(1), Some(0)));
    TwoKeys<OrderId, Location>(3, Location(BID101, 0), Location(BID101, 0), 2, Location(BID100, 1));
  }

  /** After the delete only order 2 rests, at 100, yet the level at 101 survives with quantity 0
      and is cached as the best bid. */
  lemma {:induction false} PhantomBestBid()
    ensures var two := ApplyTables(ApplyTables(NO_TABLES, AddBid(1, 100, 10), 0), AddBid(2, 100, 20), 1);
      ApplyTables(ApplyTables(two, MOVE, 2), DROP, 2) == DROPPED
    ensures Plain(DROPPED) == map[2 := Resting(BUY, 100, 20)]
    ensures IsTop(DROPPED.levels, BUY, Quote(101, 0)) && !IsBest(Plain(DROPPED), BUY, Quote(101, 0))
  {
    StaleSteps();
    StaleMove();
    StaleDrop();
    assert LevelOn(DROPPED.levels, BUY, BID101);
    assert Plain(DROPPED) == map[2 := Resting(BUY, 100, 20)];
    assert OnSide(Plain(DROPPED), BUY, 2);
  }

  // ---------------------------------------------------------------------------
  // The pool

  lemma {:induction false} InjectiveSize<A, B>(m: map<A, B>)
    requires forall a, b :: a in m && b in m && m[a] == m[b] ==> a == b
    ensures |m.Values| == |m|
    decreases |m|
  {
    if m != map[] {
      var a :| a in m;
      var n := m - {a};
      assert n.Keys == m.Keys - {a};
      forall v ensures v in n.Values <==> v in m.Values && v != m[a] {
        if v in n.Values { var k :| k in n && n[k] == v; assert m[k] == v; }
        if v in m.Values && v != m[a] { var k :| k in m && m[k] == v; assert n[k] == v; }
      }
      assert n.Values == m.Values - {m[a]};
      InjectiveSize(n);
    } else {
      assert m.Values == {};
    }
  }

  /** The pool has handed out exactly as many nodes as there are tracked orders. */
  lemma {:induction false} PoolCount(t: Tables, c: map<Key, seq<Ptr>>)
    requires Rep(t, c)
    ensures |t.pool| == |t.index|
  {
    forall r | r in t.index ensures t.index[r].ptr in t.pool && t.pool[t.index[r].ptr].ref == r {
      assert Found(t, c, r);
    }
    var m := map r | r in t.index :: t.index[r].ptr;
    assert m.Keys == t.index.Keys;
    InjectiveSize(m);
    forall p ensures p in t.pool <==> p in m.Values {
      if p in t.pool { assert Tracked(t, p); assert m[t.pool[p].ref] == p; }
    }
    assert m.Values == t.pool.Keys;
  }
}
