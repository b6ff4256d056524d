/** Arrays of keyed entries scanned from the front, and the maps they stand for. */
module KeyedTables {

  /** Keys are pairwise different. */
  ghost predicate Keyed<K, V>(s: seq<(K, V)>) {
    forall i, j :: 0 <= i < j < |s| ==> s[i].0 != s[j].0
  }

  ghost predicate Has<K, V>(s: seq<(K, V)>, k: K) {
    exists i :: 0 <= i < |s| && s[i].0 == k
  }

  ghost function ToMap<K, V>(s: seq<(K, V)>): map<K, V> {
    if s == [] then map[] else ToMap(s[..|s| - 1])[s[|s| - 1].0 := s[|s| - 1].1]
  }

  lemma {:induction false} ToMapKeys<K, V>(s: seq<(K, V)>, k: K)
    ensures k in ToMap(s) <==> Has(s, k)
    decreases |s|
  {
    if s != [] {
      var t := s[..|s| - 1];
      ToMapKeys(t, k);
      if Has(t, k) {
        var i :| 0 <= i < |t| && t[i].0 == k;
        assert s[i].0 == k;
      }
      if Has(s, k) {
        var i :| 0 <= i < |s| && s[i].0 == k;
        assert i < |t| ==> t[i].0 == k;
      }
      assert s[|s| - 1].0 == k ==> Has(s, k);
    }
  }

  lemma {:induction false} ToMapAt<K, V>(s: seq<(K, V)>, i: nat)
    requires Keyed(s) && i < |s|
    ensures s[i].0 in ToMap(s) && ToMap(s)[s[i].0] == s[i].1
    decreases |s|
  {
    if i < |s| - 1 {
      ToMapAt(s[..|s| - 1], i);
    }
  }

  /** The map is the only one with these entries. */
  lemma {:induction false} ToMapIs<K, V>(s: seq<(K, V)>, m: map<K, V>)
    requires Keyed(s)
    requires forall i :: 0 <= i < |s| ==> s[i].0 in m && m[s[i].0] == s[i].1
    requires forall k :: k in m ==> Has(s, k)
    ensures ToMap(s) == m
  {
    var n := ToMap(s);
    forall k: K | k in n ensures k in m {
      ToMapKeys(s, k);
    }
    forall k: K | k in m ensures k in n && n[k] == m[k] {
      ToMapKeys(s, k);
      var i :| 0 <= i < |s| && s[i].0 == k;
      ToMapAt(s, i);
    }
  }

  lemma {:induction false} ToMapAppend<K, V>(s: seq<(K, V)>, x: (K, V))
    ensures ToMap(s + [x]) == ToMap(s)[x.0 := x.1]
  {
    assert (s + [x])[..|s|] == s;
  }

  lemma {:induction false} ToMapUpdate<K, V>(s: seq<(K, V)>, i: nat, v: V)
    requires Keyed(s) && i < |s|
    ensures Keyed(s[i := (s[i].0, v)]) && ToMap(s[i := (s[i].0, v)]) == ToMap(s)[s[i].0 := v]
  {
    var t, m := s[i := (s[i].0, v)], ToMap(s)[s[i].0 := v];
    assert forall j :: 0 <= j < |s| ==> t[j].0 == s[j].0;
    forall j | 0 <= j < |t| ensures t[j].0 in m && m[t[j].0] == t[j].1 { ToMapAt(s, j); }
    forall k | k in m ensures Has(t, k) {
      ToMapKeys(s, k);
      ToMapAt(s, i);
      var j :| 0 <= j < |s| && s[j].0 == k;
      assert t[j].0 == k;
    }
    ToMapIs(t, m);
  }

  /** Entry i replaced by the last one, and the table one shorter. */
  function SwapErase<T>(s: seq<T>, i: nat): seq<T>
    requires i < |s|
  {
    s[i := s[|s| - 1]][..|s| - 1]
  }

  lemma {:induction false} SwapEraseRemoves<K, V>(s: seq<(K, V)>, i: nat)
    requires Keyed(s) && i < |s|
    ensures Keyed(SwapErase(s, i)) && ToMap(SwapErase(s, i)) == ToMap(s) - {s[i].0}
  {
    var n := |s| - 1;
    var t, m := SwapErase(s, i), ToMap(s) - {s[i].0};
    assert forall j :: 0 <= j < n ==> t[j] == s[if j == i then n else j];
    forall j | 0 <= j < n ensures t[j].0 in m && m[t[j].0] == t[j].1 { ToMapAt(s, if j == i then n else j); }
    forall k | k in m ensures Has(t, k) {
      ToMapKeys(s, k);
      var j :| 0 <= j < |s| && s[j].0 == k;
      assert t[if j == n then i else j].0 == k;
    }
    ToMapIs(t, m);
  }

  /** Entry i filed under a new key. */
  lemma {:induction false} ToMapRekey<K, V>(s: seq<(K, V)>, i: nat, k: K)
    requires Keyed(s) && i < |s| && k !in ToMap(s)
    ensures Keyed(s[i := (k, s[i].1)]) && ToMap(s[i := (k, s[i].1)]) == (ToMap(s) - {s[i].0})[k := s[i].1]
    ensures s[i].0 in ToMap(s) && ToMap(s)[s[i].0] == s[i].1
  {
    var t, m := s[i := (k, s[i].1)], (ToMap(s) - {s[i].0})[k := s[i].1];
    forall j | 0 <= j < |s| ensures s[j].0 != k { ToMapAt(s, j); }
    forall j | 0 <= j < |t| ensures t[j].0 in m && m[t[j].0] == t[j].1 { ToMapAt(s, j); }
    forall r: K | r in m ensures Has(t, r) {
      ToMapKeys(s, r);
      if r == k { assert t[i].0 == k; } else { var j :| 0 <= j < |s| && s[j].0 == r; assert t[j].0 == r; }
    }
    ToMapAt(s, i);
    ToMapIs(t, m);
  }

  /** The first entry with the key, or the length. */
  method Scan<K(==), V>(s: seq<(K, V)>, k: K) returns (i: nat)
    ensures i <= |s| && (i < |s| ==> s[i].0 == k)
    ensures i < |s| <==> k in ToMap(s)
  {
    i := 0;
    while i < |s|
      invariant i <= |s| && forall j :: 0 <= j < i ==> s[j].0 != k
    {
      if s[i].0 == k {
        ToMapKeys(s, k);
        return;
      }
      i := i + 1;
    }
    ToMapKeys(s, k);
  }
}
