/** The sum of a finite map's values. */
module Totals {
  function At<K>(m: map<K, nat>, k: K): (v: nat) { if k in m then m[k] else 0 }

  ghost function Total<K>(m: map<K, nat>): (n: nat)
  {
    if m == map[] then 0 else var k :| k in m; m[k] + Total(m - {k})
  }

  lemma {:induction false} TotalPick<K>(m: map<K, nat>, k: K)
    requires k in m
    ensures Total(m) == m[k] + Total(m - {k})
    decreases |m|
  {
    var j :| j in m && Total(m) == m[j] + Total(m - {j});
    if j != k {
      TotalPick(m - {j}, k);
      TotalPick(m - {k}, j);
      assert m - {j} - {k} == m - {k} - {j};
    }
  }

  lemma TotalUpdate<K>(m: map<K, nat>, k: K, v: nat)
    ensures Total(m[k := v]) == Total(m) - At(m, k) + v
  {
    TotalPick(m[k := v], k);
    if k in m {
      TotalPick(m, k);
      assert m[k := v] - {k} == m - {k};
    } else {
      assert m[k := v] - {k} == m;
    }
  }

  lemma TotalRemove<K>(m: map<K, nat>, k: K)
    ensures Total(m - {k}) == Total(m) - At(m, k)
  {
    if k in m { TotalPick(m, k); } else { assert m - {k} == m; }
  }
}
