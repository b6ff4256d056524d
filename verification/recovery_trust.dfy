/**
 When a reader of the queue may trust it: what a run has pushed determines the true book, for every
 exchange and every run it could have come from, exactly when its baseline is 1.
 */
module RecoveryTrust {
  import opened Types
  import opened FeedBook
  import opened Recovery
  import opened RecoveryRuns
  import opened RecoveryTheorems
  import opened RecoveryBoot

  function FreshRef(us: seq<MarketUpdate>): (r: OrderId)
    ensures forall u :: u in us ==> u.orderRef < r && u.newRef < r
  {
    if us == [] then 0 else
      var r, u := FreshRef(us[1..]), us[0];
      assert forall w :: w in us ==> w == u || w in us[1..];
      if r > u.orderRef && r > u.newRef then r else u.orderRef + u.newRef + r + 1
  }

  /** The history that agrees with `h` from entry b on and starts by adding order `ref`. */
  ghost function Rewritten(h: History, b: SeqNum, ref: OrderId): (g: History)
    requires 1 <= b <= |h| + 1
    ensures |g| == |h| && g[b - 1..] == h[b - 1..]
    ensures forall i :: 0 <= i < b - 1 ==> g[i] == MarketUpdate(i + 1, 0, ADD, BUY, 100, 10, ref + i, 0)
  {
    seq(b - 1, i requires 0 <= i < b - 1 => MarketUpdate(i + 1, 0, ADD, BUY, 100, 10, ref + i, 0)) + h[b - 1..]
  }

  /** What the consumer has pushed means the exchange's book at the point it has reached. */
  ghost predicate HoldsTruth(x: Exchange, c: Consumer, t: TickerId) {
    1 <= c.nextExp <= |x.h| + 1 && Fold(t, EMPTY, c.pushed) == TrueView(t, x.h, c.nextExp - 1)
  }

  /** Some run, before some truthful exchange, pushes `us` and nothing else. */
  ghost predicate Pushes(x: Exchange, states: seq<System>, events: seq<Event>, i: nat, us: seq<MarketUpdate>) {
    IsTruthful(x) && IsRun(x, states, events) && i < |states| && states[i].c.pushed == us
  }

  /** Whoever reads the queue and sees `us` may trust it: whatever exchange and run it came from. */
  ghost predicate Trustworthy(us: seq<MarketUpdate>) {
    forall x, states: seq<System>, events, i: nat, t :: Pushes(x, states, events, i, us) ==>
        HoldsTruth(x, states[i].c, t)
  }

  /** What a run has pushed is trustworthy exactly when its baseline is 1: a snapshot was delivered, or
      the first incremental taken was number 1. */
  lemma {:induction false} TrustworthyIffBaselineIsOne(x: Exchange, states: seq<System>, events: seq<Event>, i: nat)
    requires IsTruthful(x) && IsRun(x, states, events) && i < |states| && states[i].c.pushed != []
    ensures Trustworthy(states[i].c.pushed) <==> Baseline(states[i].c.pushed) == 1
  {
    var us := states[i].c.pushed;
    if Baseline(us) == 1 {
      forall x', states': seq<System>, events', i': nat, t | Pushes(x', states', events', i', us)
        ensures HoldsTruth(x', states'[i'].c, t)
      {
        PushedBookIsTrue(x', states', events', i', t);
        var n := states'[i'].c.nextExp;
        assert 1 <= n <= |x'.h| + 1 ==> x'.h[0..n - 1] == x'.h[..n - 1];
      }
    } else {
      RunKeepsInv(x, states, events, i);
      SeenEntries(x, us);
      var b, n := Baseline(us), states[i].c.nextExp;
      var g, states', events' := AnotherHistory(x.h, b, n);
      assert Pushes(Exchange(g, iset{}), states', events', n - b + 1, us);
    }
  }

  /** The reader has read a stretch of the history. */
  ghost predicate Seen(x: Exchange, us: seq<MarketUpdate>) {
    var r := Read(x, Fresh, us);
    us != [] && r.At? && r.base == us[0].seqNum && 1 <= r.base < r.next <= |x.h| + 1
        && us == x.h[r.base - 1..r.next - 1]
  }

  /** Without a snapshot, a reader that is not confused has done so. */
  lemma {:induction false} SeenEntries(x: Exchange, us: seq<MarketUpdate>)
    requires us != [] && !HasStart(us) && Read(x, Fresh, us).At?
    ensures Seen(x, us)
    decreases |us|
  {
    var vs, u := us[..|us| - 1], us[|us| - 1];
    assert us == vs + [u];
    ReadSnoc(x, Fresh, vs, u);
    if vs == [] {
      SeenFirst(x, u);
      assert us == [u];
    } else {
      forall j | 0 <= j < |vs| ensures !vs[j].kind.SNAPSHOT_START? { assert vs[j] == us[j]; }
      NotFreshAgain(x, vs);
      ReadBase(x, vs);
      SeenNext(x, Read(x, Fresh, vs), u);
      SeenEntries(x, vs);
      SeenSnoc(x, vs, u);
    }
  }

  lemma {:induction false} SeenSnoc(x: Exchange, vs: seq<MarketUpdate>, u: MarketUpdate)
    requires Seen(x, vs) && ReadOne(x, Read(x, Fresh, vs), u).At? && Read(x, Fresh, vs).next <= |x.h|
    requires u == x.h[Read(x, Fresh, vs).next - 1]
    ensures Seen(x, vs + [u])
  {
    var r := Read(x, Fresh, vs);
    ReadSnoc(x, Fresh, vs, u);
    SeenNext(x, r, u);
    OneEntryMore(x.h, r.base, r.next, vs, u);
  }

  lemma {:induction false} OneEntryMore(h: History, b: SeqNum, n: SeqNum, vs: seq<MarketUpdate>, u: MarketUpdate)
    requires 1 <= b < n <= |h| && vs == h[b - 1..n - 1] && u == h[n - 1]
    ensures vs + [u] == h[b - 1..n] && (vs + [u])[0] == vs[0]
  {
  }

  lemma {:induction false} SeenFirst(x: Exchange, u: MarketUpdate)
    requires ReadOne(x, Read(x, Fresh, []), u).At?
    ensures ReadOne(x, Read(x, Fresh, []), u) == At(u.seqNum, u.seqNum + 1)
    ensures 1 <= u.seqNum <= |x.h| && [u] == x.h[u.seqNum - 1..u.seqNum]
  {
  }

  lemma {:induction false} SeenNext(x: Exchange, r: Reader, u: MarketUpdate)
    requires !r.Fresh? && !r.InBlock? && ReadOne(x, r, u).At?
    ensures r.At? && ReadOne(x, r, u) == At(r.base, r.next + 1)
    ensures 1 <= r.next <= |x.h| && u == x.h[r.next - 1]
  {
  }

  /** The consumer after a cut snapshot and j live updates from entry b on. */
  ghost function LateState(g: History, b: SeqNum, j: nat): System
    requires 1 <= b && b - 1 + j <= |g|
  {
    if j == 0 then CUT else CUT.(c := CUT.c.(nextExp := b + j, pushed := g[b - 1..b - 1 + j]))
  }

  lemma {:induction false} LateStep(g: History, b: SeqNum, j: nat)
    requires IsHistory(g) && 1 <= b && b + j <= |g|
    ensures Follows(Exchange(g, iset{}), LateState(g, b, j), Live(g[b - 1 + j]), LateState(g, b, j + 1))
  {
    assert IsEntry(g, b + j);
    assert g[b - 1..b - 1 + j] + [g[b - 1 + j]] == g[b - 1..b + j];
    assert j == 0 ==> g[b - 1..b - 1 + j] == [];
  }

  lemma {:induction false} FirstCut(g: History)
    ensures Follows(Exchange(g, iset{}), BOOT, Eof, CUT)
  {
  }

  ghost function LateStage(g: History, b: SeqNum, k: nat): System
    requires 1 <= b && b - 2 + k <= |g|
  {
    if k == 0 then BOOT else LateState(g, b, k - 1)
  }

  ghost function LateEvent(g: History, b: SeqNum, k: nat): Event
    requires 1 <= b && b - 2 + k < |g|
  {
    if k == 0 then Eof else Live(g[b - 2 + k])
  }

  lemma {:induction false} LateFollows(g: History, b: SeqNum, k: nat)
    requires IsHistory(g) && 1 <= b && b - 1 + k <= |g| && b - 2 + k < |g|
    ensures Follows(Exchange(g, iset{}), LateStage(g, b, k), LateEvent(g, b, k), LateStage(g, b, k + 1))
  {
    if k == 0 {
      FirstCut(g);
    } else {
      LateStep(g, b, k - 1);
    }
  }

  /** A run that misses the snapshot and takes entries b..n-1 live. */
  lemma {:induction false} LateRun(g: History, b: SeqNum, n: SeqNum) returns (states: seq<System>, events: seq<Event>)
    requires IsHistory(g) && 1 <= b < n <= |g| + 1
    ensures IsRun(Exchange(g, iset{}), states, events) && |states| == n - b + 2
    ensures states[n - b + 1] == LateState(g, b, n - b)
  {
    events := seq(n - b + 1, k requires 0 <= k <= n - b => LateEvent(g, b, k));
    states := seq(n - b + 2, k requires 0 <= k <= n - b + 1 => LateStage(g, b, k));
    forall k: nat ensures StepAt(Exchange(g, iset{}), states, events, k) {
      if k < |events| { LateFollows(g, b, k); }
    }
  }

  /** Another history of which entries b..n-1 are the same, a run that saw only those, and a true book
      that they do not give. */
  lemma {:induction false} AnotherHistory(h: History, b: SeqNum, n: SeqNum)
    returns (g: History, states: seq<System>, events: seq<Event>)
    requires IsHistory(h) && 1 < b < n <= |h| + 1
    ensures Pushes(Exchange(g, iset{}), states, events, n - b + 1, h[b - 1..n - 1])
    ensures !HoldsTruth(Exchange(g, iset{}), states[n - b + 1].c, 0)
  {
    var ref := FreshRef(h);
    g := Rewritten(h, b, ref);
    RewrittenIsHistory(h, b, ref);
    states, events := LateRun(g, b, n);
    var seen := g[b - 1..n - 1];
    assert seen == g[b - 1..][..n - b] == h[b - 1..n - 1];
    forall u | u in seen ensures u.orderRef != ref && u.newRef != ref {
      assert u in h;
    }
    FoldLacks(0, EMPTY, seen, ref);
    FirstOrderStays(h, b, n, ref);
  }

  lemma {:induction false} FirstOrderStays(h: History, b: SeqNum, n: SeqNum, ref: OrderId)
    requires IsHistory(h) && 1 < b < n <= |h| + 1 && forall u :: u in h ==> u.orderRef < ref && u.newRef < ref
    ensures ref in TrueView(0, Rewritten(h, b, ref), n - 1).orders
  {
    var g := Rewritten(h, b, ref);
    RewrittenIsHistory(h, b, ref);
    var rest := g[1..n - 1];
    forall u | u in rest ensures !u.IsMarker() && u.orderRef != ref {
      var j :| 0 <= j < |rest| && rest[j] == u;
      assert u == g[j + 1] && IsEntry(g, j + 2);
      if j + 1 >= b - 1 { assert u == g[b - 1..][j + 2 - b] && u == h[j + 1]; }
    }
    assert g[..n - 1] == [g[0]] + rest;
    FoldAppend(0, EMPTY, [g[0]], rest);
    FoldSnoc(0, EMPTY, [], g[0]);
    assert [] + [g[0]] == [g[0]];
    FoldKeeps(0, Fold(0, EMPTY, [g[0]]), rest, ref);
  }

  lemma {:induction false} RewrittenIsHistory(h: History, b: SeqNum, ref: OrderId)
    requires IsHistory(h) && 1 <= b <= |h| + 1
    ensures IsHistory(Rewritten(h, b, ref))
  {
    var g := Rewritten(h, b, ref);
    forall k: SeqNum ensures IsEntry(g, k) {
      if b <= k <= |g| {
        assert IsEntry(h, k);
        assert g[k - 1] == g[b - 1..][k - b] && h[k - 1] == h[b - 1..][k - b];
      }
    }
  }
}
