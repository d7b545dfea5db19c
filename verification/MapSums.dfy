/** Sums over the values of a finite map, used to say what a cached counter must equal. */
module MapSums {
  ghost function Sum<K(!new)>(m: map<K, nat>): nat {
    if m == map[] then 0
    else
      var k :| k in m;
      m[k] + Sum(m - {k})
  }

  lemma {:induction false} SumRemove<K(!new)>(m: map<K, nat>, k: K)
    requires k in m
    ensures Sum(m) == m[k] + Sum(m - {k})
    decreases |m|
  {
    var first :| first in m && Sum(m) == m[first] + Sum(m - {first});
    if first != k {
      SumRemove(m - {first}, k);
      SumRemove(m - {k}, first);
      assert m - {first} - {k} == m - {k} - {first};
    }
  }

  lemma SumPut<K(!new)>(m: map<K, nat>, k: K, v: nat)
    ensures Sum(m[k := v]) == (if k in m then Sum(m) - m[k] else Sum(m)) + v
    ensures k in m ==> Sum(m) >= m[k]
  {
    SumRemove(m[k := v], k);
    if k in m {
      SumRemove(m, k);
      assert m[k := v] - {k} == m - {k};
    } else {
      assert m[k := v] - {k} == m;
    }
  }
}
