/**
 What the plain map of a feed holds, order by order: an order rests exactly from the update that entered it
 to the one that removed it, with the side and price it was entered with and the quantity it was entered
 with less what was taken from it since (src/market_order_book.cpp:144-201).
 */
module FeedMeaning {
  import opened Types
  import opened FeedBook

  /** The orders of `t` that update i finds. */
  function Found(t: TickerId, us: seq<MarketUpdate>, i: nat): Orders
    requires i <= |us|
  {
    Fold(t, EMPTY, us[..i]).orders
  }

  /** Update i enters order `ref`: it adds it, or replaces a resting order by it, and it was not there. */
  predicate Enters(t: TickerId, us: seq<MarketUpdate>, i: nat, ref: OrderId)
    requires i < |us|
  {
    var u := us[i];
    && u.ticker == t && ref !in Found(t, us, i)
    && (((u.kind == ADD || u.kind == ADD_MPID) && u.orderRef == ref)
        || (u.kind == REPLACE && u.newRef == ref && u.orderRef in Found(t, us, i)))
  }

  /** Update i removes order `ref` whole: it deletes it, replaces it by an order that is not there, or clears
      the book for a snapshot. */
  predicate Removes(t: TickerId, us: seq<MarketUpdate>, i: nat, ref: OrderId)
    requires i < |us|
  {
    var u := us[i];
    || u.kind == SNAPSHOT_START
    || (u.ticker == t && u.kind == SNAPSHOT_CLEAR)
    || (u.ticker == t && u.kind == DELETE && u.orderRef == ref)
    || (u.ticker == t && u.kind == REPLACE && u.orderRef == ref && u.newRef !in Found(t, us, i))
  }

  /** Update i takes some of order `ref`: an execution or a partial cancel. */
  predicate Takes(t: TickerId, us: seq<MarketUpdate>, i: nat, ref: OrderId)
    requires i < |us|
  {
    us[i].ticker == t && us[i].orderRef == ref && (us[i].kind == CANCEL || us[i].kind == EXECUTE)
  }

  /** All that updates i+1..n-1 take of order `ref`. */
  function TakenSince(t: TickerId, us: seq<MarketUpdate>, i: nat, n: nat, ref: OrderId): nat
    requires i < n <= |us|
  {
    if n == i + 1 then 0
    else TakenSince(t, us, i, n - 1, ref) + if Takes(t, us, n - 1, ref) then us[n - 1].qty else 0
  }

  /** Order `ref` was entered by update i, and by update n it was neither removed nor used up. */
  ghost predicate RestsSince(t: TickerId, us: seq<MarketUpdate>, i: nat, n: nat, ref: OrderId) {
    && i < n <= |us| && Enters(t, us, i, ref)
    && forall k: nat :: i < k < n ==> Survives(t, us, i, k, ref)
  }

  predicate Survives(t: TickerId, us: seq<MarketUpdate>, i: nat, k: nat, ref: OrderId)
    requires i < k < |us|
  {
    !Removes(t, us, k, ref) && (Takes(t, us, k, ref) ==> TakenSince(t, us, i, k + 1, ref) < us[i].qty)
  }

  lemma {:induction false} FoldPrefix(t: TickerId, us: seq<MarketUpdate>, n: nat)
    requires n < |us|
    ensures Fold(t, EMPTY, us[..n + 1]) == Apply(t, Fold(t, EMPTY, us[..n]), us[n])
  {
    assert us[..n + 1][..n] == us[..n];
  }

  /** What the order entered by update i looks like after n updates. */
  ghost predicate LooksEntered(t: TickerId, us: seq<MarketUpdate>, i: nat, n: nat, ref: OrderId)
    requires i < n <= |us|
  {
    && ref in Found(t, us, n)
    && var o := Found(t, us, n)[ref];
    o.side == us[i].side && o.price == us[i].price && o.qty == us[i].qty - TakenSince(t, us, i, n, ref)
  }

  lemma {:induction false} EnteredRests(t: TickerId, us: seq<MarketUpdate>, i: nat, ref: OrderId)
    requires i < |us| && Enters(t, us, i, ref)
    ensures LooksEntered(t, us, i, i + 1, ref)
  {
    FoldPrefix(t, us, i);
  }

  lemma {:induction false} SurvivorRests(t: TickerId, us: seq<MarketUpdate>, i: nat, n: nat, ref: OrderId)
    requires i < n < |us| && LooksEntered(t, us, i, n, ref)
    ensures Survives(t, us, i, n, ref) <==> ref in Found(t, us, n + 1)
    ensures Survives(t, us, i, n, ref) ==> LooksEntered(t, us, i, n + 1, ref)
  {
    FoldPrefix(t, us, n);
  }

  /** An order that rests looks as it was entered, less what was taken. */
  lemma {:induction false} RestsAsEntered(t: TickerId, us: seq<MarketUpdate>, i: nat, n: nat, ref: OrderId)
    requires RestsSince(t, us, i, n, ref)
    ensures LooksEntered(t, us, i, n, ref)
    decreases n
  {
    if n == i + 1 {
      EnteredRests(t, us, i, ref);
    } else {
      assert Survives(t, us, i, n - 1, ref);
      RestsAsEntered(t, us, i, n - 1, ref);
      SurvivorRests(t, us, i, n - 1, ref);
    }
  }

  lemma {:induction false} NewlyThere(t: TickerId, us: seq<MarketUpdate>, n: nat, ref: OrderId)
    requires n < |us| && ref !in Found(t, us, n) && ref in Found(t, us, n + 1)
    ensures Enters(t, us, n, ref)
  {
    FoldPrefix(t, us, n);
  }

  /** And whatever the map holds was entered by some update and has rested since. */
  lemma {:induction false} HeldRests(t: TickerId, us: seq<MarketUpdate>, n: nat, ref: OrderId) returns (i: nat)
    requires n <= |us| && ref in Found(t, us, n)
    ensures RestsSince(t, us, i, n, ref)
    decreases n
  {
    assert us[..0] == [];
    if ref in Found(t, us, n - 1) {
      i := HeldRests(t, us, n - 1, ref);
      RestsAsEntered(t, us, i, n - 1, ref);
      SurvivorRests(t, us, i, n - 1, ref);
    } else {
      i := n - 1;
      NewlyThere(t, us, i, ref);
    }
  }

  /** After any updates an order is in the map exactly when some update entered it and none since removed it or
      used it up; it then has that update's side and price, and its quantity less all that was taken since. */
  lemma {:induction false} RestingIff(t: TickerId, us: seq<MarketUpdate>, n: nat, ref: OrderId)
    requires n <= |us|
    ensures ref in Found(t, us, n) <==> exists i: nat :: RestsSince(t, us, i, n, ref)
    ensures forall i: nat :: RestsSince(t, us, i, n, ref) ==> LooksEntered(t, us, i, n, ref)
  {
    forall i: nat | RestsSince(t, us, i, n, ref) ensures LooksEntered(t, us, i, n, ref) {
      RestsAsEntered(t, us, i, n, ref);
    }
    if ref in Found(t, us, n) {
      var i := HeldRests(t, us, n, ref);
    }
  }

  /** The view is inside a snapshot exactly from a START to the next END. */
  predicate Loading(us: seq<MarketUpdate>, n: nat)
    requires n <= |us|
  {
    n > 0 && (us[n - 1].kind == SNAPSHOT_START || (us[n - 1].kind != SNAPSHOT_END && Loading(us, n - 1)))
  }

  lemma {:induction false} InSnapshotIff(t: TickerId, us: seq<MarketUpdate>, n: nat)
    requires n <= |us|
    ensures Fold(t, EMPTY, us[..n]).inSnapshot <==> Loading(us, n)
  {
    if n > 0 {
      InSnapshotIff(t, us, n - 1);
      FoldPrefix(t, us, n - 1);
    }
  }
}
