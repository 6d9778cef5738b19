/** Finite sums over sequences and maps, and when two of them agree. */
module Sums {
  function SumSeq(s: seq<nat>): nat {
    if s == [] then 0 else SumSeq(s[..|s| - 1]) + s[|s| - 1]
  }

  /** The sum of a map's values, in whatever order they are visited. */
  ghost function SumMap<K>(m: map<K, nat>): nat
    decreases |m|
  {
    if m == map[] then 0
    else
      var k :| k in m;
      m[k] + SumMap(m - {k})
  }

  lemma {:induction false} SumMapRemove<K>(m: map<K, nat>, k: K)
    requires k in m
    ensures SumMap(m) == m[k] + SumMap(m - {k})
    decreases |m|
  {
    var c :| c in m && SumMap(m) == m[c] + SumMap(m - {c});
    if c != k {
      SumMapRemove(m - {c}, k);
      SumMapRemove(m - {k}, c);
      assert m - {c} - {k} == m - {k} - {c};
    }
  }

  lemma SumMapInsert<K>(m: map<K, nat>, k: K, v: nat)
    requires k !in m
    ensures SumMap(m[k := v]) == SumMap(m) + v
  {
    var n := m[k := v];
    SumMapRemove(n, k);
    assert n - {k} == m;
  }

  /** Visiting every key once, in any order, gives the sum of the map. */
  lemma {:induction false} SumMapInOrder<K>(m: map<K, nat>, ks: seq<K>)
    requires forall i, j :: 0 <= i < j < |ks| ==> ks[i] != ks[j]
    requires m.Keys == set k | k in ks
    ensures SumSeq(seq(|ks|, i requires 0 <= i < |ks| => assert ks[i] in ks; m[ks[i]])) == SumMap(m)
    decreases |ks|
  {
    var vs := seq(|ks|, i requires 0 <= i < |ks| => assert ks[i] in ks; m[ks[i]]);
    if ks == [] {
      assert m == map[];
    } else {
      var n := |ks| - 1;
      var init, k := ks[..n], ks[n];
      assert k in ks;
      var rest := m - {k};
      assert forall x :: x in ks <==> x in init || x == k;
      SumMapInOrder(rest, init);
      var ws := seq(|init|, i requires 0 <= i < |init| => assert init[i] in init; rest[init[i]]);
      assert vs[..n] == ws;
      SumMapRemove(m, k);
    }
  }
}
