/**
 One update applied to the tables of an order book (src/market_order_book.cpp:91-201), proved
 against the plain map, and the exact condition under which a REPLACE leaves the lists intact.
 */
module BookSteps {
  import opened Types
  import opened FeedBook
  import opened BookTables

  /** An order keeps its place with a smaller quantity. */
  function Shrink(t: Tables, r: OrderId, cut: Quantity): Tables
    requires r in t.index && t.index[r].key in t.levels && t.index[r].ptr in t.pool
    requires cut < t.pool[t.index[r].ptr].qty
  {
    var loc := t.index[r];
    var n, l := t.pool[loc.ptr], t.levels[loc.key];
    t.(pool := t.pool[loc.ptr := n.(qty := n.qty - cut)],
       levels := t.levels[loc.key := l.(totalQty := (l.totalQty - cut) % TWO_32)])
  }

  /** The order leaves its level and joins another on the same node, whose links are not reset. */
  function Replace(t: Tables, u: MarketUpdate): Tables
    requires u.orderRef in t.index && t.index[u.orderRef].key in t.levels && t.index[u.orderRef].ptr in t.pool
  {
    var loc, k := t.index[u.orderRef], Key(u.side, u.price);
    var a := GetOrCreate(Prune(Unlink(t, loc.key, loc.ptr), loc.key), k);
    var b := Link(a.(pool := a.pool[loc.ptr := a.pool[loc.ptr].(ref := u.newRef, qty := u.qty)]), k, loc.ptr);
    b.(index := (b.index - {u.orderRef})[u.newRef := Location(k, loc.ptr)])
  }

  /** Every reference leads to a node and a level. */
  predicate Leads(t: Tables) {
    forall r :: r in t.index ==> t.index[r].key in t.levels && t.index[r].ptr in t.pool
  }

  /** Update u, on tables where every reference leads to a node.  A new order is stored in node p. */
  function ApplyTables(t: Tables, u: MarketUpdate, p: Ptr): Tables
    requires Leads(t)
  {
    match u.kind
    case ADD | ADD_MPID =>
      if u.orderRef in t.index then t
      else Insert(t, Key(u.side, u.price), p, Node(u.orderRef, u.qty, None, None))
    case DELETE => if u.orderRef in t.index then Erase(t, u.orderRef) else t
    case CANCEL | EXECUTE =>
      if u.orderRef !in t.index then t
      else if u.qty >= t.pool[t.index[u.orderRef].ptr].qty then Erase(t, u.orderRef)
      else Shrink(t, u.orderRef, u.qty)
    case REPLACE => if u.orderRef in t.index && u.newRef !in t.index then Replace(t, u) else t
    case _ => t
  }

  lemma {:induction false} RepLeads(t: Tables, c: map<Key, seq<Ptr>>)
    requires Rep(t, c)
    ensures Leads(t)
    ensures Plain(t).Keys == t.index.Keys
  {
    forall r | r in t.index ensures t.index[r].key in t.levels && t.index[r].ptr in t.pool {
      assert Found(t, c, r);
    }
  }

  lemma {:induction false} WellFormedLeads(t: Tables)
    requires WellFormed(t)
    ensures Leads(t)
  {
    var c :| Rep(t, c);
    RepLeads(t, c);
  }

  // ---------------------------------------------------------------------------
  // Shrinking

  lemma {:induction false} ShrinkAtLevel(t: Tables, c: map<Key, seq<Ptr>>, r: OrderId, k: Key, i: nat, cut: Quantity)
    requires At(t, c, r, k, i) && cut < t.pool[c[k][i]].qty
    ensures LevelOk(Shrink(t, r, cut), k, c[k])
  {
    var w, s, p := Shrink(t, r, cut), c[k], c[k][i];
    forall j ensures JoinedAt(w.pool, s, j) { assert JoinedAt(t.pool, s, j); }
    var q := Qtys(t.pool, s);
    assert Qtys(w.pool, s) == q[i := q[i] - cut];
    TallyUpdate(q, i, q[i] - cut);
    forall j | 0 <= j < |s| ensures Filed(w, k, s[j]) { assert Filed(t, k, s[j]); }
  }

  lemma {:induction false} ShrinkElsewhere(
      t: Tables, c: map<Key, seq<Ptr>>, r: OrderId, k: Key, i: nat, cut: Quantity, k': Key)
    requires Rep(t, c) && At(t, c, r, k, i) && cut < t.pool[c[k][i]].qty && k' in c && k' != k
    ensures LevelOk(Shrink(t, r, cut), k', c[k'])
  {
    var w, s := Shrink(t, r, cut), c[k'];
    assert LevelOk(t, k', s);
    forall j | 0 <= j < |s| ensures s[j] in w.pool && w.pool[s[j]] == t.pool[s[j]] && Filed(w, k', s[j]) {
      if s[j] == c[k][i] { Separate(t, c, k, k', s[j]); }
      assert Filed(t, k', s[j]);
    }
    LevelFrame(t, w, k', s);
  }

  lemma {:induction false} ShrinkOk(t: Tables, c: map<Key, seq<Ptr>>, r: OrderId, cut: Quantity)
    requires Rep(t, c) && r in t.index && t.index[r].ptr in t.pool && cut < t.pool[t.index[r].ptr].qty
    ensures t.index[r].key in t.levels
    ensures Rep(Shrink(t, r, cut), c)
  {
    var i, k := Position(t, c, r), t.index[r].key;
    var w := Shrink(t, r, cut);
    forall k' | k' in w.levels ensures LevelOk(w, k', c[k']) {
      if k' == k { ShrinkAtLevel(t, c, r, k, i, cut); } else { ShrinkElsewhere(t, c, r, k, i, cut, k'); }
    }
    ShrinkIndex(t, c, r, cut, w);
  }

  lemma {:induction false} ShrinkIndex(t: Tables, c: map<Key, seq<Ptr>>, r: OrderId, cut: Quantity, w: Tables)
    requires Rep(t, c) && r in t.index && t.index[r].ptr in t.pool && cut < t.pool[t.index[r].ptr].qty
    requires t.index[r].key in t.levels && w == Shrink(t, r, cut)
    ensures forall r' {:trigger Found(w, c, r')} :: r' in w.index ==> Found(w, c, r')
    ensures forall q {:trigger Tracked(w, q)} :: q in w.pool ==> Tracked(w, q)
  {
    forall r' | r' in w.index ensures Found(w, c, r') { assert Found(t, c, r'); }
    forall q | q in w.pool ensures Tracked(w, q) { assert Tracked(t, q); }
  }

  lemma {:induction false} ShrinkPlain(t: Tables, c: map<Key, seq<Ptr>>, r: OrderId, cut: Quantity)
    requires Rep(t, c) && r in t.index && t.index[r].ptr in t.pool && cut < t.pool[t.index[r].ptr].qty
    ensures t.index[r].key in t.levels && r in Plain(t)
    ensures Plain(Shrink(t, r, cut)) == Plain(t)[r := Plain(t)[r].(qty := Plain(t)[r].qty - cut)]
  {
    assert Found(t, c, r);
    forall r' | r' in t.index ensures t.index[r'].ptr == t.index[r].ptr ==> r' == r { assert Found(t, c, r'); }
  }

  // ---------------------------------------------------------------------------
  // Replacing

  /** A replace is an erase followed by inserting the same node with its old links. */
  lemma {:induction false} ReplaceIsReinsert(t: Tables, c: map<Key, seq<Ptr>>, u: MarketUpdate)
    requires Rep(t, c) && u.orderRef in t.index
    ensures t.index[u.orderRef].key in t.levels && t.index[u.orderRef].ptr in t.pool
    ensures var p := t.index[u.orderRef].ptr;
      Replace(t, u) == Insert(Erase(t, u.orderRef), Key(u.side, u.price), p,
                              t.pool[p].(ref := u.newRef, qty := u.qty))
  {
    var i, loc, k := Position(t, c, u.orderRef), t.index[u.orderRef], Key(u.side, u.price);
    UnlinkTouches(t, loc.key, c[loc.key], i);
    var a, n := Unlink(t, loc.key, loc.ptr), t.pool[loc.ptr].(ref := u.newRef, qty := u.qty);
    var freed := a.pool - {loc.ptr};
    assert freed[loc.ptr := n] == a.pool[loc.ptr := n];
    var b := GetOrCreate(Prune(a, loc.key), k);
    assert GetOrCreate(Prune(a.(pool := freed), loc.key), k) == b.(pool := freed);
    ReinsertSame(b, t.index, freed, k, loc.ptr, n, u);
  }

  lemma {:induction false} ReinsertSame(
      b: Tables, index: map<OrderId, Location>, freed: map<Ptr, Node>, k: Key, p: Ptr, n: Node, u: MarketUpdate)
    requires k in b.levels && b.index == index
    requires freed[p := n] == b.pool[p := n] && n.ref == u.newRef
    ensures var l := Link(b.(pool := b.pool[p := n]), k, p);
      l.(index := (l.index - {u.orderRef})[u.newRef := Location(k, p)]) ==
      Insert(b.(pool := freed, index := index - {u.orderRef}), k, p, n)
  {
  }

  /** The links the node carries along do no harm: it has no next, and no prev unless its
      destination already has orders. */
  predicate MovesCleanly(t: Tables, u: MarketUpdate)
    requires u.orderRef in t.index && t.index[u.orderRef].ptr in t.pool
  {
    var n := t.pool[t.index[u.orderRef].ptr];
    n.next == None && (n.prev == None || Key(u.side, u.price) in t.levels)
  }

  /** In terms of price-time priority: the order is the last of its level, and either its only
      one or its destination level exists. */
  lemma {:induction false} MovesCleanlyMeans(t: Tables, c: map<Key, seq<Ptr>>, u: MarketUpdate)
    requires Rep(t, c) && u.orderRef in t.index
    ensures t.index[u.orderRef].ptr in t.pool
    ensures var i, s := Position(t, c, u.orderRef), c[t.index[u.orderRef].key];
      MovesCleanly(t, u) <==> i == |s| - 1 && (|s| == 1 || Key(u.side, u.price) in t.levels)
  {
    var i, k := Position(t, c, u.orderRef), t.index[u.orderRef].key;
    LinksTellPosition(t, k, c[k], i);
  }

  /** Exactly these replaces keep the book well formed; the others leave a list whose head or
      tail points into another list. */
  lemma {:induction false} ReplaceIff(t: Tables, c: map<Key, seq<Ptr>>, u: MarketUpdate)
    requires Rep(t, c) && u.orderRef in t.index && u.newRef !in t.index
    ensures t.index[u.orderRef].key in t.levels && t.index[u.orderRef].ptr in t.pool
    ensures WellFormed(Replace(t, u)) <==> MovesCleanly(t, u)
    ensures Plain(Replace(t, u)) == (Plain(t) - {u.orderRef})[u.newRef := Resting(u.side, u.price, u.qty)]
  {
    var i, loc, k := Position(t, c, u.orderRef), t.index[u.orderRef], Key(u.side, u.price);
    var e, n := Erase(t, u.orderRef), t.pool[loc.ptr].(ref := u.newRef, qty := u.qty);
    var d := Shortened(c, loc.key, i);
    ReplaceIsReinsert(t, c, u);
    EraseOk(t, c, u.orderRef);
    EraseContents(t, c, u.orderRef);
    ErasePlain(t, c, u.orderRef);
    InsertPlain(e, d, k, loc.ptr, n);
    LinksTellPosition(t, loc.key, c[loc.key], i);
    if CleanFor(e, k, n) {
      InsertClean(e, d, k, loc.ptr, n);
    } else {
      InsertDirty(e, d, k, loc.ptr, n);
    }
  }

  lemma {:induction false} LinksTellPosition(t: Tables, k: Key, c: seq<Ptr>, i: nat)
    requires k in t.levels && LevelOk(t, k, c) && i < |c|
    ensures t.pool[c[i]].next == None <==> i == |c| - 1
    ensures t.pool[c[i]].prev == None <==> i == 0
  {
    assert JoinedAt(t.pool, c, i - 1) && JoinedAt(t.pool, c, i);
  }

  // ---------------------------------------------------------------------------
  // Any update

  /** A replace that takes effect and spoils the lists. */
  predicate Spoils(t: Tables, u: MarketUpdate) {
    && u.kind.REPLACE? && u.orderRef in t.index && u.newRef !in t.index
    && t.index[u.orderRef].ptr in t.pool && !MovesCleanly(t, u)
  }

  /** Every update takes a well-formed book to what the plain map says, and to a well-formed book
      unless it is a spoiling replace. */
  lemma {:induction false} ApplyOk(t: Tables, u: MarketUpdate, p: Ptr)
    requires WellFormed(t) && p !in t.pool
    ensures Leads(t)
    ensures WellFormed(ApplyTables(t, u, p)) <==> !Spoils(t, u)
    ensures Plain(ApplyTables(t, u, p)) == ApplyOrder(Plain(t), u)
  {
    var c :| Rep(t, c);
    RepLeads(t, c);
    match u.kind
    case ADD | ADD_MPID => ApplyAdd(t, c, u, p);
    case DELETE => if u.orderRef in t.index { EraseOk(t, c, u.orderRef); ErasePlain(t, c, u.orderRef); }
    case CANCEL | EXECUTE => ApplyReduce(t, c, u, p);
    case REPLACE => if u.orderRef in t.index && u.newRef !in t.index { ReplaceIff(t, c, u); }
    case _ =>
  }

  lemma {:induction false} ApplyAdd(t: Tables, c: map<Key, seq<Ptr>>, u: MarketUpdate, p: Ptr)
    requires Rep(t, c) && p !in t.pool && (u.kind.ADD? || u.kind.ADD_MPID?)
    ensures Leads(t)
    ensures WellFormed(ApplyTables(t, u, p))
    ensures Plain(ApplyTables(t, u, p)) == ApplyOrder(Plain(t), u)
  {
    RepLeads(t, c);
    if u.orderRef !in t.index {
      var n := Node(u.orderRef, u.qty, None, None);
      InsertClean(t, c, Key(u.side, u.price), p, n);
      InsertPlain(t, c, Key(u.side, u.price), p, n);
    }
  }

  lemma {:induction false} ApplyReduce(t: Tables, c: map<Key, seq<Ptr>>, u: MarketUpdate, p: Ptr)
    requires Rep(t, c) && (u.kind.CANCEL? || u.kind.EXECUTE?)
    ensures Leads(t)
    ensures WellFormed(ApplyTables(t, u, p))
    ensures Plain(ApplyTables(t, u, p)) == ApplyOrder(Plain(t), u)
  {
    RepLeads(t, c);
    if u.orderRef in t.index {
      ReduceOk(t, c, u.orderRef, u.qty);
    }
  }

  lemma {:induction false} ReduceOk(t: Tables, c: map<Key, seq<Ptr>>, r: OrderId, qty: Quantity)
    requires Rep(t, c) && r in t.index
    ensures Leads(t) && r in Plain(t) && Plain(t)[r].qty == t.pool[t.index[r].ptr].qty
    ensures var t' := if qty >= t.pool[t.index[r].ptr].qty then Erase(t, r) else Shrink(t, r, qty);
      && WellFormed(t')
      && Plain(t') == if qty >= Plain(t)[r].qty then Plain(t) - {r}
                      else Plain(t)[r := Plain(t)[r].(qty := Plain(t)[r].qty - qty)]
  {
    RepLeads(t, c);
    if qty >= t.pool[t.index[r].ptr].qty {
      EraseOk(t, c, r);
      ErasePlain(t, c, r);
    } else {
      ShrinkOk(t, c, r, qty);
      ShrinkPlain(t, c, r, qty);
    }
  }
}
