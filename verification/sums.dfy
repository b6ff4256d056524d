/** Sums over sequences and over the values of a map. */
module Sums {

  function Sum(s: seq<int>): int {
    if s == [] then 0 else Sum(s[..|s| - 1]) + s[|s| - 1]
  }

  lemma {:induction false} SumAppend(a: seq<int>, b: seq<int>)
    ensures Sum(a + b) == Sum(a) + Sum(b)
    decreases |b|
  {
    if b == [] {
      assert a + b == a;
    } else {
      assert (a + b)[..|a + b| - 1] == a + b[..|b| - 1];
      SumAppend(a, b[..|b| - 1]);
    }
  }

  lemma {:induction false} SumOne(x: int)
    ensures Sum([x]) == x
  {
    assert [x][..0] == [];
  }

  lemma {:induction false} SumRemove(s: seq<int>, i: nat)
    requires i < |s|
    ensures Sum(s[..i] + s[i + 1..]) == Sum(s) - s[i]
  {
    assert s == s[..i] + [s[i]] + s[i + 1..];
    SumAppend(s[..i] + [s[i]], s[i + 1..]);
    SumAppend(s[..i], [s[i]]);
    SumAppend(s[..i], s[i + 1..]);
    SumOne(s[i]);
  }

  lemma {:induction false} SumUpdate(s: seq<int>, i: nat, x: int)
    requires i < |s|
    ensures Sum(s[i := x]) == Sum(s) - s[i] + x
  {
    assert s[i := x] == s[..i] + [x] + s[i + 1..];
    SumAppend(s[..i] + [x], s[i + 1..]);
    SumAppend(s[..i], [x]);
    SumAppend(s[..i], s[i + 1..]);
    SumRemove(s, i);
    SumOne(x);
  }

  /** The sum of a map's values. */
  ghost function MapSum<K>(m: map<K, int>): int {
    if m == map[] then 0 else
      var k :| k in m;
      assert (m - {k}).Keys == m.Keys - {k};
      m[k] + MapSum(m - {k})
  }

  /** Any key may be taken out first. */
  lemma {:induction false} MapSumRemove<K>(m: map<K, int>, k: K)
    requires k in m
    ensures MapSum(m) == m[k] + MapSum(m - {k})
    decreases |m|
  {
    var c :| c in m && MapSum(m) == m[c] + MapSum(m - {c});
    if c != k {
      var a, b := m - {c}, m - {k};
      assert a.Keys == m.Keys - {c} && b.Keys == m.Keys - {k};
      MapSumRemove(a, k);
      MapSumRemove(b, c);
      assert a - {k} == b - {c};
    }
  }

  lemma {:induction false} MapSumInsert<K>(m: map<K, int>, k: K, x: int)
    requires k !in m
    ensures MapSum(m[k := x]) == MapSum(m) + x
  {
    MapSumRemove(m[k := x], k);
    assert m[k := x] - {k} == m;
  }

  /** A map summed along a sequence that lists its keys without repetition. */
  lemma {:induction false} MapSumListed<K>(m: map<K, int>, keys: seq<K>, values: seq<int>)
    requires |keys| == |values|
    requires forall i, j :: 0 <= i < j < |keys| ==> keys[i] != keys[j]
    requires forall k :: k in m <==> k in keys
    requires forall i :: 0 <= i < |keys| ==> m[keys[i]] == values[i]
    ensures MapSum(m) == Sum(values)
    decreases |keys|
  {
    if keys != [] {
      var n := |keys| - 1;
      var k := keys[n];
      MapSumRemove(m, k);
      MapSumListed(m - {k}, keys[..n], values[..n]);
    } else {
      assert m == map[];
    }
  }
}
