/**
 The tables of a MarketOrderBook and the pointer surgery on them: pooled nodes linked into one
 list per price level, and the reference index (src/market_order_book.cpp:12-142).  A pointer is
 the number of a pool node, so that aliasing and stale links are visible.
 */
module BookTables {
  import opened Types
  import opened FeedBook
  import opened Sums

  type Ptr = nat

  datatype Key = Key(side: Side, price: Price)

  datatype Node = Node(ref: OrderId, qty: Quantity, next: Option<Ptr>, prev: Option<Ptr>)

  datatype Level = Level(price: Price, totalQty: Quantity, head: Option<Ptr>, tail: Option<Ptr>)

  datatype Location = Location(key: Key, ptr: Ptr)

  /** `pool` holds the nodes handed out by the order pool; `levels` is the bid and the ask map,
      keyed by side and price. */
  datatype Tables = Tables(pool: map<Ptr, Node>, levels: map<Key, Level>, index: map<OrderId, Location>)

  const NO_TABLES := Tables(map[], map[], map[])

  // ---------------------------------------------------------------------------
  // The operations

  /** Writes through a pointer.  No operation on a well-formed book writes through a dangling
      one; the model leaves the pool alone there. */
  function SetNext(pool: map<Ptr, Node>, p: Ptr, to: Option<Ptr>): map<Ptr, Node> {
    if p in pool then pool[p := pool[p].(next := to)] else pool
  }

  function SetPrev(pool: map<Ptr, Node>, p: Ptr, to: Option<Ptr>): map<Ptr, Node> {
    if p in pool then pool[p := pool[p].(prev := to)] else pool
  }

  function GetOrCreate(t: Tables, k: Key): Tables {
    if k in t.levels then t else t.(levels := t.levels[k := Level(k.price, 0, None, None)])
  }

  /** Appends node p to level k.  When the level is empty the node's links are not touched. */
  function Link(t: Tables, k: Key, p: Ptr): Tables
    requires k in t.levels && p in t.pool
  {
    var l := t.levels[k];
    var total := (l.totalQty + t.pool[p].qty) % TWO_32;
    if l.head.None? || l.tail.None? then
      t.(levels := t.levels[k := Level(l.price, total, Some(p), Some(p))])
    else
      t.(pool := SetNext(SetPrev(t.pool, p, l.tail), l.tail.value, Some(p)),
         levels := t.levels[k := Level(l.price, total, l.head, Some(p))])
  }

  /** Takes node p out of level k.  The node keeps its own links. */
  function Unlink(t: Tables, k: Key, p: Ptr): Tables
    requires k in t.levels && p in t.pool
  {
    var l, n := t.levels[k], t.pool[p];
    var pool := if n.prev.Some? then SetNext(t.pool, n.prev.value, n.next) else t.pool;
    t.(pool := if n.next.Some? then SetPrev(pool, n.next.value, n.prev) else pool,
       levels := t.levels[k := Level(l.price, (l.totalQty - n.qty) % TWO_32,
                                     if n.prev.Some? then l.head else n.next,
                                     if n.next.Some? then l.tail else n.prev)])
  }

  /** Drops level k when its list has become empty. */
  function Prune(t: Tables, k: Key): Tables
    requires k in t.levels
  {
    if t.levels[k].head.None? then t.(levels := t.levels - {k}) else t
  }

  // ---------------------------------------------------------------------------
  // Well-formedness

  /** The nodes `c` form a doubly linked list from head to tail: the ends point nowhere,
      neighbours point at each other, no node appears twice. */
  ghost predicate Linked(pool: map<Ptr, Node>, l: Level, c: seq<Ptr>) {
    && c != []
    && (forall i :: 0 <= i < |c| ==> c[i] in pool)
    && l.head == Some(c[0]) && l.tail == Some(c[|c| - 1])
    && pool[c[0]].prev == None && pool[c[|c| - 1]].next == None
    && (forall i :: JoinedAt(pool, c, i))
    && (forall i, j :: 0 <= i < j < |c| ==> c[i] != c[j])
  }

  /** Nodes i and i+1 point at each other. */
  ghost predicate JoinedAt(pool: map<Ptr, Node>, c: seq<Ptr>, i: int) {
    0 <= i < |c| - 1 ==>
      && c[i] in pool && c[i + 1] in pool
      && pool[c[i]].next == Some(c[i + 1])
      && pool[c[i + 1]].prev == Some(c[i])
  }

  ghost function Qtys(pool: map<Ptr, Node>, c: seq<Ptr>): (q: seq<int>)
    requires forall i :: 0 <= i < |c| ==> c[i] in pool
    ensures |q| == |c| && forall i :: 0 <= i < |q| ==> q[i] == pool[c[i]].qty
  {
    seq(|c|, i requires 0 <= i < |c| => pool[c[i]].qty)
  }

  /** Level k is the list `c`, its total is the sum of the quantities modulo 2^32, and each node
      is filed in the index under its reference. */
  ghost predicate LevelOk(t: Tables, k: Key, c: seq<Ptr>)
    requires k in t.levels
  {
    && t.levels[k].price == k.price
    && Linked(t.pool, t.levels[k], c)
    && t.levels[k].totalQty == Sum(Qtys(t.pool, c)) % TWO_32
    && forall i {:trigger Filed(t, k, c[i])} :: 0 <= i < |c| ==> Filed(t, k, c[i])
  }

  ghost predicate Filed(t: Tables, k: Key, p: Ptr) {
    && p in t.pool
    && t.pool[p].ref in t.index
    && t.index[t.pool[p].ref] == Location(k, p)
  }

  /** Reference r leads to a node of a list. */
  ghost predicate Found(t: Tables, c: map<Key, seq<Ptr>>, r: OrderId)
    requires r in t.index
  {
    var loc := t.index[r];
    && loc.ptr in t.pool && t.pool[loc.ptr].ref == r
    && loc.key in c && loc.ptr in c[loc.key]
  }

  /** The lists `c` represent the tables: every level well formed and not empty, index and list
      nodes in bijection, and the pool has handed out exactly the nodes in the lists. */
  ghost predicate Rep(t: Tables, c: map<Key, seq<Ptr>>) {
    && c.Keys == t.levels.Keys
    && (forall k {:trigger LevelOk(t, k, c[k])} :: k in t.levels ==> LevelOk(t, k, c[k]))
    && (forall r {:trigger Found(t, c, r)} :: r in t.index ==> Found(t, c, r))
    && (forall p {:trigger Tracked(t, p)} :: p in t.pool ==> Tracked(t, p))
  }

  /** The node is the one its reference leads to. */
  ghost predicate Tracked(t: Tables, p: Ptr) {
    p in t.pool && t.pool[p].ref in t.index && t.index[t.pool[p].ref].ptr == p
  }

  ghost predicate WellFormed(t: Tables) {
    exists c :: Rep(t, c)
  }

  /** The orders a well-formed book stands for. */
  ghost function Plain(t: Tables): Orders {
    map r | r in t.index && t.index[r].ptr in t.pool ::
      Resting(t.index[r].key.side, t.index[r].key.price, t.pool[t.index[r].ptr].qty)
  }

  // ---------------------------------------------------------------------------
  // Sums of levels

  lemma {:induction false} TallyAppend(q: seq<int>, x: int)
    ensures (Sum(q) % TWO_32 + x) % TWO_32 == Sum(q + [x]) % TWO_32
  {
    SumAppend(q, [x]);
    SumOne(x);
  }

  lemma {:induction false} ModMinus(a: int, b: int)
    ensures (a % TWO_32 - b) % TWO_32 == (a - b) % TWO_32
  {
  }

  lemma {:induction false} TallyRemove(q: seq<int>, i: nat)
    requires i < |q|
    ensures (Sum(q) % TWO_32 - q[i]) % TWO_32 == Sum(q[..i] + q[i + 1..]) % TWO_32
  {
    SumRemove(q, i);
    ModMinus(Sum(q), q[i]);
  }

  lemma {:induction false} TallyUpdate(q: seq<int>, i: nat, x: int)
    requires i < |q|
    ensures (Sum(q) % TWO_32 - (q[i] - x)) % TWO_32 == Sum(q[i := x]) % TWO_32
  {
    SumUpdate(q, i, x);
    ModMinus(Sum(q), q[i] - x);
  }

  // ---------------------------------------------------------------------------
  // Lists after one operation

  function Without(c: seq<Ptr>, i: nat): seq<Ptr>
    requires i < |c|
  {
    c[..i] + c[i + 1..]
  }

  /** Unlinking the i-th node leaves the other nodes linked in their order. */
  lemma {:induction false} UnlinkedStaysLinked(t: Tables, k: Key, c: seq<Ptr>, i: nat)
    requires k in t.levels && Linked(t.pool, t.levels[k], c) && i < |c|
    ensures c[i] in t.pool
    ensures var u := Unlink(t, k, c[i]);
      if |c| == 1 then u.pool == t.pool && u.levels[k].head == None
      else Linked(u.pool, u.levels[k], Without(c, i))
  {
    assert JoinedAt(t.pool, c, i - 1) && JoinedAt(t.pool, c, i);
    var u, d := Unlink(t, k, c[i]), Without(c, i);
    assert forall j :: 0 <= j < |d| ==> d[j] == c[if j < i then j else j + 1];
    forall j ensures JoinedAt(u.pool, d, j) {
      assert JoinedAt(t.pool, c, j) && JoinedAt(t.pool, c, j + 1);
    }
    if |c| > 1 { assert JoinedAt(t.pool, c, 0) && JoinedAt(t.pool, c, |c| - 2); }
  }

  /** Linking a node keeps the list well formed exactly when the node brings no stale links: no
      next, and no prev unless the level had orders. */
  lemma {:induction false} LinkedIff(t: Tables, k: Key, c: seq<Ptr>, p: Ptr)
    requires k in t.levels && p in t.pool && p !in c
    requires if c == [] then t.levels[k].head == None && t.levels[k].tail == None
             else Linked(t.pool, t.levels[k], c)
    ensures var u := Link(t, k, p);
      Linked(u.pool, u.levels[k], c + [p]) <==>
        t.pool[p].next == None && (c != [] || t.pool[p].prev == None)
  {
    var u, d := Link(t, k, p), c + [p];
    assert forall j :: 0 <= j < |d| ==> d[j] == if j < |c| then c[j] else p;
    forall j ensures JoinedAt(u.pool, d, j) {
      assert JoinedAt(t.pool, c, j);
    }
  }

  // ---------------------------------------------------------------------------
  // Frames

  /** A level whose nodes are untouched stays well formed. */
  lemma {:induction false} LevelFrame(t: Tables, u: Tables, k: Key, c: seq<Ptr>)
    requires k in t.levels && LevelOk(t, k, c)
    requires k in u.levels && u.levels[k] == t.levels[k]
    requires forall i :: 0 <= i < |c| ==> c[i] in u.pool && u.pool[c[i]] == t.pool[c[i]] && Filed(u, k, c[i])
    ensures LevelOk(u, k, c)
  {
    assert Qtys(u.pool, c) == Qtys(t.pool, c);
    forall i ensures JoinedAt(u.pool, c, i) {
      assert JoinedAt(t.pool, c, i);
    }
  }

  /** Levels do not share nodes. */
  lemma {:induction false} Separate(t: Tables, c: map<Key, seq<Ptr>>, k: Key, k': Key, p: Ptr)
    requires Rep(t, c) && k in c && k' in c && p in c[k] && p in c[k']
    ensures k == k'
  {
    assert LevelOk(t, k, c[k]) && LevelOk(t, k', c[k']);
    assert Filed(t, k, p) && Filed(t, k', p);
  }

  // ---------------------------------------------------------------------------
  // Inserting a node

  /** Node p, with whatever links it carries, becomes the last order of level k. */
  function Insert(t: Tables, k: Key, p: Ptr, n: Node): Tables
  {
    var u := GetOrCreate(t, k);
    var v := Link(u.(pool := u.pool[p := n]), k, p);
    v.(index := v.index[n.ref := Location(k, p)])
  }

  /** The nodes of level k, none when there is no such level. */
  function Nodes(c: map<Key, seq<Ptr>>, k: Key): seq<Ptr> {
    if k in c then c[k] else []
  }

  function Extended(c: map<Key, seq<Ptr>>, k: Key, p: Ptr): map<Key, seq<Ptr>> {
    c[k := Nodes(c, k) + [p]]
  }

  /** The node brings no stale links into level k. */
  predicate CleanFor(t: Tables, k: Key, n: Node) {
    n.next == None && (k in t.levels || n.prev == None)
  }

  lemma {:induction false} TailInPool(t: Tables, c: map<Key, seq<Ptr>>, k: Key)
    requires Rep(t, c) && k in t.levels
    ensures t.levels[k].tail.Some? && t.levels[k].tail.value in t.pool && t.levels[k].tail.value in c[k]
    ensures t.levels[k].head.Some?
  {
    assert LevelOk(t, k, c[k]);
  }

  lemma {:induction false} InsertLinks(t: Tables, c: map<Key, seq<Ptr>>, k: Key, p: Ptr, n: Node)
    requires Rep(t, c) && p !in t.pool && CleanFor(t, k, n)
    ensures var w := Insert(t, k, p, n); Linked(w.pool, w.levels[k], Nodes(c, k) + [p])
  {
    var s := Nodes(c, k);
    var u := GetOrCreate(t, k);
    var v := u.(pool := u.pool[p := n]);
    if k in c {
      assert LevelOk(t, k, s);
      forall j ensures JoinedAt(v.pool, s, j) { assert JoinedAt(t.pool, s, j); }
    }
    LinkedIff(v, k, s, p);
  }

  lemma {:induction false} InsertFiled(t: Tables, c: map<Key, seq<Ptr>>, k: Key, p: Ptr, n: Node, i: nat)
    requires Rep(t, c) && n.ref !in t.index && p !in t.pool && i <= |Nodes(c, k)|
    requires forall j :: 0 <= j < |Nodes(c, k)| ==> Nodes(c, k)[j] in t.pool
    ensures var w, q := Insert(t, k, p, n), (Nodes(c, k) + [p])[i];
      Filed(w, k, q) && w.pool[q].qty == if i < |Nodes(c, k)| then t.pool[q].qty else n.qty
  {
    if k in c {
      TailInPool(t, c, k);
      assert LevelOk(t, k, c[k]);
      if i < |c[k]| { assert Filed(t, k, c[k][i]); }
    }
  }

  lemma {:induction false} InsertTally(t: Tables, c: map<Key, seq<Ptr>>, k: Key, p: Ptr, n: Node)
    requires Rep(t, c) && p !in t.pool
    requires forall i :: 0 <= i < |Nodes(c, k)| ==> Nodes(c, k)[i] in t.pool
    ensures Insert(t, k, p, n).levels[k].totalQty == Sum(Qtys(t.pool, Nodes(c, k)) + [n.qty]) % TWO_32
    ensures Insert(t, k, p, n).levels[k].price == k.price
  {
    var q := Qtys(t.pool, Nodes(c, k));
    if k in c {
      assert LevelOk(t, k, c[k]);
    } else {
      assert q == [];
    }
    TallyAppend(q, n.qty);
  }

  lemma {:induction false} InsertAtLevel(t: Tables, c: map<Key, seq<Ptr>>, k: Key, p: Ptr, n: Node)
    requires Rep(t, c) && n.ref !in t.index && p !in t.pool && CleanFor(t, k, n)
    ensures LevelOk(Insert(t, k, p, n), k, Extended(c, k, p)[k])
  {
    var w, s := Insert(t, k, p, n), Nodes(c, k);
    var d := s + [p];
    InsertLinks(t, c, k, p, n);
    if k in c { assert LevelOk(t, k, s); }
    InsertTally(t, c, k, p, n);
    forall i: nat | i < |d|
      ensures Filed(w, k, d[i]) && w.pool[d[i]].qty == if i < |s| then t.pool[d[i]].qty else n.qty
    {
      InsertFiled(t, c, k, p, n, i);
    }
    assert Qtys(w.pool, d) == Qtys(t.pool, s) + [n.qty];
  }

  lemma {:induction false} InsertElsewhere(t: Tables, c: map<Key, seq<Ptr>>, k: Key, p: Ptr, n: Node, k': Key)
    requires Rep(t, c) && n.ref !in t.index && p !in t.pool && k' in c && k' != k
    ensures LevelOk(Insert(t, k, p, n), k', c[k'])
  {
    if k in c { TailInPool(t, c, k); }
    var w, s := Insert(t, k, p, n), c[k'];
    assert LevelOk(t, k', s);
    forall i | 0 <= i < |s| ensures s[i] in w.pool && w.pool[s[i]] == t.pool[s[i]] && Filed(w, k', s[i]) {
      assert Filed(t, k', s[i]);
      if k in c && t.levels[k].tail == Some(s[i]) {
        Separate(t, c, k, k', s[i]);
      }
    }
    LevelFrame(t, w, k', s);
  }

  lemma {:induction false} InsertFound(t: Tables, c: map<Key, seq<Ptr>>, k: Key, p: Ptr, n: Node, r: OrderId)
    requires Rep(t, c) && p !in t.pool && (r in t.index || r == n.ref)
    requires n.ref !in t.index
    ensures Found(Insert(t, k, p, n), Extended(c, k, p), r)
  {
    if r != n.ref { assert Found(t, c, r); }
  }

  lemma {:induction false} InsertTracked(t: Tables, c: map<Key, seq<Ptr>>, k: Key, p: Ptr, n: Node, q: Ptr)
    requires Rep(t, c) && n.ref !in t.index && p !in t.pool && (q in t.pool || q == p)
    ensures Tracked(Insert(t, k, p, n), q)
  {
    if q != p { assert Tracked(t, q); }
  }

  lemma {:induction false} InsertContents(t: Tables, k: Key, p: Ptr, n: Node)
    ensures var w := Insert(t, k, p, n);
      && w.index == t.index[n.ref := Location(k, p)]
      && w.pool.Keys == t.pool.Keys + {p} && w.pool[p].qty == n.qty
      && forall q :: q in t.pool && q != p ==> w.pool[q].qty == t.pool[q].qty
  {
  }

  lemma {:induction false} PlainInserted(t: Tables, w: Tables, k: Key, p: Ptr, n: Node)
    requires forall r :: r in t.index ==> t.index[r].ptr in t.pool && t.index[r].ptr != p
    requires w.index == t.index[n.ref := Location(k, p)]
    requires w.pool.Keys == t.pool.Keys + {p} && w.pool[p].qty == n.qty
    requires forall q :: q in t.pool && q != p ==> w.pool[q].qty == t.pool[q].qty
    ensures Plain(w) == Plain(t)[n.ref := Resting(k.side, k.price, n.qty)]
  {
  }

  lemma {:induction false} InsertPlain(t: Tables, c: map<Key, seq<Ptr>>, k: Key, p: Ptr, n: Node)
    requires Rep(t, c) && p !in t.pool
    ensures Plain(Insert(t, k, p, n)) == Plain(t)[n.ref := Resting(k.side, k.price, n.qty)]
  {
    InsertContents(t, k, p, n);
    forall r | r in t.index ensures t.index[r].ptr in t.pool { assert Found(t, c, r); }
    PlainInserted(t, Insert(t, k, p, n), k, p, n);
  }

  /** Inserting a clean node: the book stays well formed and holds exactly one more order. */
  lemma {:induction false} InsertClean(t: Tables, c: map<Key, seq<Ptr>>, k: Key, p: Ptr, n: Node)
    requires Rep(t, c) && n.ref !in t.index && p !in t.pool && CleanFor(t, k, n)
    ensures Rep(Insert(t, k, p, n), Extended(c, k, p))
  {
    var w, d := Insert(t, k, p, n), Extended(c, k, p);
    forall k' | k' in w.levels ensures LevelOk(w, k', d[k']) {
      if k' == k { InsertAtLevel(t, c, k, p, n); } else { InsertElsewhere(t, c, k, p, n, k'); }
    }
    InsertIndex(t, c, k, p, n, w, d);
  }

  lemma {:induction false} InsertIndex(
      t: Tables, c: map<Key, seq<Ptr>>, k: Key, p: Ptr, n: Node, w: Tables, d: map<Key, seq<Ptr>>)
    requires Rep(t, c) && n.ref !in t.index && p !in t.pool
    requires w == Insert(t, k, p, n) && d == Extended(c, k, p)
    ensures forall r {:trigger Found(w, d, r)} :: r in w.index ==> Found(w, d, r)
    ensures forall q {:trigger Tracked(w, q)} :: q in w.pool ==> Tracked(w, q)
  {
    InsertContents(t, k, p, n);
    forall r | r in w.index ensures Found(w, d, r) { InsertFound(t, c, k, p, n, r); }
    forall q | q in w.pool ensures Tracked(w, q) { InsertTracked(t, c, k, p, n, q); }
  }

  /** Inserting a node with stale links leaves no well-formed book. */
  lemma {:induction false} InsertDirty(t: Tables, c: map<Key, seq<Ptr>>, k: Key, p: Ptr, n: Node)
    requires Rep(t, c) && p !in t.pool && !CleanFor(t, k, n)
    ensures !WellFormed(Insert(t, k, p, n))
  {
    if k in c { TailInPool(t, c, k); }
    var w := Insert(t, k, p, n);
    forall d ensures !Rep(w, d) {
      assert Rep(w, d) ==> LevelOk(w, k, d[k]);
    }
  }

  // ---------------------------------------------------------------------------
  // Erasing an order

  /** Unlink, free the node, drop an empty level, forget the reference. */
  function Erase(t: Tables, r: OrderId): Tables
    requires r in t.index && t.index[r].key in t.levels && t.index[r].ptr in t.pool
  {
    var loc := t.index[r];
    var u := Unlink(t, loc.key, loc.ptr);
    var v := Prune(u.(pool := u.pool - {loc.ptr}), loc.key);
    v.(index := v.index - {r})
  }

  function Shortened(c: map<Key, seq<Ptr>>, k: Key, i: nat): map<Key, seq<Ptr>>
    requires k in c && i < |c[k]|
  {
    if |c[k]| == 1 then c - {k} else c[k := Without(c[k], i)]
  }

  /** Where reference r sits in its level. */
  ghost function Position(t: Tables, c: map<Key, seq<Ptr>>, r: OrderId): (i: nat)
    requires Rep(t, c) && r in t.index
    ensures var loc := t.index[r];
      && loc.key in t.levels && loc.key in c && loc.ptr in t.pool && t.pool[loc.ptr].ref == r
      && i < |c[loc.key]| && c[loc.key][i] == loc.ptr && LevelOk(t, loc.key, c[loc.key])
  {
    assert Found(t, c, r);
    var i :| 0 <= i < |c[t.index[r].key]| && c[t.index[r].key][i] == t.index[r].ptr;
    assert LevelOk(t, t.index[r].key, c[t.index[r].key]);
    i
  }

  /** Unlinking rewrites nodes of the level only, and never the node itself. */
  lemma {:induction false} UnlinkTouches(t: Tables, k: Key, c: seq<Ptr>, i: nat)
    requires k in t.levels && Linked(t.pool, t.levels[k], c) && i < |c|
    ensures var u := Unlink(t, k, c[i]);
      && u.pool.Keys == t.pool.Keys && u.pool[c[i]] == t.pool[c[i]]
      && (forall q :: q in t.pool && q !in c ==> u.pool[q] == t.pool[q])
      && (forall q :: q in t.pool ==> u.pool[q].qty == t.pool[q].qty && u.pool[q].ref == t.pool[q].ref)
  {
    assert JoinedAt(t.pool, c, i - 1) && JoinedAt(t.pool, c, i);
  }

  /** Reference r is the i-th order of level k. */
  ghost predicate At(t: Tables, c: map<Key, seq<Ptr>>, r: OrderId, k: Key, i: nat) {
    && k in t.levels && k in c && i < |c[k]|
    && LevelOk(t, k, c[k]) && c[k][i] in t.pool
    && r in t.index && t.index[r] == Location(k, c[k][i])
  }

  lemma {:induction false} EraseLinked(t: Tables, c: map<Key, seq<Ptr>>, r: OrderId, k: Key, i: nat)
    requires At(t, c, r, k, i) && |c[k]| > 1
    ensures var w := Erase(t, r);
      k in w.levels && w.levels[k].price == t.levels[k].price && Linked(w.pool, w.levels[k], Without(c[k], i))
  {
    var s, d, w := c[k], Without(c[k], i), Erase(t, r);
    UnlinkedStaysLinked(t, k, s, i);
    var u := Unlink(t, k, s[i]);
    assert forall j :: 0 <= j < |d| ==> d[j] == s[if j < i then j else j + 1];
    FreedStaysLinked(u.pool, w.levels[k], d, s[i]);
  }

  lemma {:induction false} TotalWithout(
      pool: map<Ptr, Node>, pool': map<Ptr, Node>, s: seq<Ptr>, i: nat, total: Quantity)
    requires i < |s| && forall j :: 0 <= j < |s| ==> s[j] in pool
    requires forall j :: 0 <= j < |s| && j != i ==> s[j] in pool' && pool'[s[j]].qty == pool[s[j]].qty
    requires total == Sum(Qtys(pool, s)) % TWO_32
    ensures forall j :: 0 <= j < |Without(s, i)| ==> Without(s, i)[j] in pool'
    ensures (total - pool[s[i]].qty) % TWO_32 == Sum(Qtys(pool', Without(s, i))) % TWO_32
  {
    var d, q := Without(s, i), Qtys(pool, s);
    assert forall j :: 0 <= j < |d| ==> d[j] == s[if j < i then j else j + 1];
    assert Qtys(pool', d) == q[..i] + q[i + 1..];
    TallyRemove(q, i);
  }

  lemma {:induction false} EraseTally(t: Tables, c: map<Key, seq<Ptr>>, r: OrderId, k: Key, i: nat)
    requires At(t, c, r, k, i) && k in Erase(t, r).levels
    ensures var w := Erase(t, r);
      && (forall j :: 0 <= j < |Without(c[k], i)| ==> Without(c[k], i)[j] in w.pool)
      && w.levels[k].totalQty == Sum(Qtys(w.pool, Without(c[k], i))) % TWO_32
  {
    var s, w := c[k], Erase(t, r);
    ErasedTotal(t, c, r, k, i);
    forall j | 0 <= j < |s| && j != i ensures s[j] in w.pool && w.pool[s[j]].qty == t.pool[s[j]].qty {
      ErasedQty(t, c, r, k, i, j);
    }
    TotalWithout(t.pool, w.pool, s, i, t.levels[k].totalQty);
  }

  lemma {:induction false} ErasedTotal(t: Tables, c: map<Key, seq<Ptr>>, r: OrderId, k: Key, i: nat)
    requires At(t, c, r, k, i) && k in Erase(t, r).levels
    ensures Erase(t, r).levels[k].totalQty == (t.levels[k].totalQty - t.pool[c[k][i]].qty) % TWO_32
  {
  }

  lemma {:induction false} ErasedQty(t: Tables, c: map<Key, seq<Ptr>>, r: OrderId, k: Key, i: nat, j: nat)
    requires At(t, c, r, k, i) && j < |c[k]| && j != i
    ensures c[k][j] in t.pool && c[k][j] in Erase(t, r).pool && Erase(t, r).pool[c[k][j]].qty == t.pool[c[k][j]].qty
  {
    UnlinkTouches(t, k, c[k], i);
  }

  lemma {:induction false} EraseAtLevel(t: Tables, c: map<Key, seq<Ptr>>, r: OrderId, k: Key, i: nat)
    requires Rep(t, c) && At(t, c, r, k, i) && |c[k]| > 1
    ensures k in Erase(t, r).levels && LevelOk(Erase(t, r), k, Without(c[k], i))
  {
    var s, d, w := c[k], Without(c[k], i), Erase(t, r);
    EraseLinked(t, c, r, k, i);
    EraseTally(t, c, r, k, i);
    forall j | 0 <= j < |d| ensures Filed(w, k, d[j]) {
      EraseFiled(t, c, r, k, if j < i then j else j + 1);
    }
  }

  /** Freeing a node outside a list leaves the list linked. */
  lemma {:induction false} FreedStaysLinked(pool: map<Ptr, Node>, l: Level, c: seq<Ptr>, p: Ptr)
    requires Linked(pool, l, c) && p !in c
    ensures Linked(pool - {p}, l, c)
  {
    forall j ensures JoinedAt(pool - {p}, c, j) { assert JoinedAt(pool, c, j); }
  }

  lemma {:induction false} EraseFiled(t: Tables, c: map<Key, seq<Ptr>>, r: OrderId, k: Key, j: nat)
    requires Rep(t, c) && r in t.index && k in c && j < |c[k]| && c[k][j] != t.index[r].ptr
    ensures t.index[r].key in t.levels && t.index[r].ptr in t.pool
    ensures Filed(Erase(t, r), k, c[k][j])
  {
    var i := Position(t, c, r);
    assert LevelOk(t, k, c[k]);
    assert Filed(t, k, c[k][j]);
  }

  lemma {:induction false} EraseElsewhere(t: Tables, c: map<Key, seq<Ptr>>, r: OrderId, k: Key)
    requires Rep(t, c) && r in t.index && k in c && k != t.index[r].key
    ensures t.index[r].key in t.levels && t.index[r].ptr in t.pool
    ensures k in Erase(t, r).levels && LevelOk(Erase(t, r), k, c[k])
  {
    var i, k0, w := Position(t, c, r), t.index[r].key, Erase(t, r);
    var s, s0 := c[k], c[k0];
    assert LevelOk(t, k, s);
    UnlinkTouches(t, k0, s0, i);
    forall j | 0 <= j < |s| ensures s[j] in w.pool && w.pool[s[j]] == t.pool[s[j]] && Filed(w, k, s[j]) {
      if s[j] in s0 { Separate(t, c, k, k0, s[j]); }
      EraseFiled(t, c, r, k, j);
    }
    LevelFrame(t, w, k, s);
  }

  lemma {:induction false} EraseFound(t: Tables, c: map<Key, seq<Ptr>>, r: OrderId, r': OrderId)
    requires Rep(t, c) && r in t.index && r' in t.index && r' != r
    ensures t.index[r].key in t.levels && t.index[r].ptr in t.pool
    ensures Found(Erase(t, r), Shortened(c, t.index[r].key, Position(t, c, r)), r')
  {
    var i, j := Position(t, c, r), Position(t, c, r');
    var k, k' := t.index[r].key, t.index[r'].key;
    var s := c[k];
    if k' == k {
      var d := Without(s, i);
      assert d[if j < i then j else j - 1] == s[j];
    }
  }

  lemma {:induction false} EraseTracked(t: Tables, c: map<Key, seq<Ptr>>, r: OrderId, q: Ptr)
    requires Rep(t, c) && r in t.index && q in t.pool && q != t.index[r].ptr
    ensures t.index[r].key in t.levels && t.index[r].ptr in t.pool
    ensures Tracked(Erase(t, r), q)
  {
    var i := Position(t, c, r);
    assert Tracked(t, q);
  }

  lemma {:induction false} EraseLevels(t: Tables, c: map<Key, seq<Ptr>>, r: OrderId, k': Key)
    requires Rep(t, c) && r in t.index
    requires t.index[r].key in t.levels && t.index[r].ptr in t.pool && k' in Erase(t, r).levels
    ensures var d := Shortened(c, t.index[r].key, Position(t, c, r)); k' in d && LevelOk(Erase(t, r), k', d[k'])
  {
    var i, k := Position(t, c, r), t.index[r].key;
    EraseContents(t, c, r);
    if k' == k { EraseAtLevel(t, c, r, k, i); } else { EraseElsewhere(t, c, r, k'); }
  }

  lemma {:induction false} EraseIndex(t: Tables, c: map<Key, seq<Ptr>>, r: OrderId, w: Tables, d: map<Key, seq<Ptr>>)
    requires Rep(t, c) && r in t.index && t.index[r].key in t.levels && t.index[r].ptr in t.pool
    requires w == Erase(t, r) && d == Shortened(c, t.index[r].key, Position(t, c, r))
    ensures forall r' {:trigger Found(w, d, r')} :: r' in w.index ==> Found(w, d, r')
    ensures forall q {:trigger Tracked(w, q)} :: q in w.pool ==> Tracked(w, q)
  {
    EraseContents(t, c, r);
    forall r' | r' in w.index ensures Found(w, d, r') { EraseFound(t, c, r, r'); }
    forall q | q in w.pool ensures Tracked(w, q) { EraseTracked(t, c, r, q); }
  }

  /** Erasing keeps the book well formed. */
  lemma {:induction false} EraseOk(t: Tables, c: map<Key, seq<Ptr>>, r: OrderId)
    requires Rep(t, c) && r in t.index
    ensures t.index[r].key in t.levels && t.index[r].ptr in t.pool
    ensures Rep(Erase(t, r), Shortened(c, t.index[r].key, Position(t, c, r)))
  {
    var i, w := Position(t, c, r), Erase(t, r);
    var d := Shortened(c, t.index[r].key, i);
    assert d.Keys == w.levels.Keys by { EraseContents(t, c, r); }
    forall k' | k' in w.levels ensures LevelOk(w, k', d[k']) { EraseLevels(t, c, r, k'); }
    EraseIndex(t, c, r, w, d);
  }

  lemma {:induction false} EraseContents(t: Tables, c: map<Key, seq<Ptr>>, r: OrderId)
    requires Rep(t, c) && r in t.index
    ensures t.index[r].key in t.levels && t.index[r].ptr in t.pool
    ensures var w := Erase(t, r);
      && w.index == t.index - {r}
      && w.pool.Keys == t.pool.Keys - {t.index[r].ptr}
      && (forall q :: q in w.pool ==> w.pool[q].qty == t.pool[q].qty && w.pool[q].ref == t.pool[q].ref)
      && w.levels.Keys == (if |c[t.index[r].key]| == 1 then t.levels.Keys - {t.index[r].key} else t.levels.Keys)
  {
    var i := Position(t, c, r);
    UnlinkedStaysLinked(t, t.index[r].key, c[t.index[r].key], i);
  }

  lemma {:induction false} ErasePlain(t: Tables, c: map<Key, seq<Ptr>>, r: OrderId)
    requires Rep(t, c) && r in t.index
    ensures t.index[r].key in t.levels && t.index[r].ptr in t.pool
    ensures Plain(Erase(t, r)) == Plain(t) - {r}
  {
    EraseContents(t, c, r);
    var a, b := Plain(Erase(t, r)), Plain(t) - {r};
    forall r' ensures r' in a <==> r' in b {
      if r' in t.index { assert Found(t, c, r') && Found(t, c, r); }
    }
  }
}
