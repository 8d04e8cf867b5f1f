/** Sums over finite maps. The order of summation never matters. */
module Sums {

  function Get<K>(m: map<K, int>, k: K): int {
    if k in m then m[k] else 0
  }

  ghost function Sum<K>(m: map<K, int>): int {
    if m == map[] then 0
    else
      var k :| k in m;
      m[k] + Sum(m - {k})
  }

  lemma {:induction false} SumRemove<K>(m: map<K, int>, k: K)
    requires k in m
    ensures Sum(m) == m[k] + Sum(m - {k})
    decreases |m|
  {
    var j :| j in m && Sum(m) == m[j] + Sum(m - {j});
    if j != k {
      SumRemove(m - {j}, k);
      SumRemove(m - {k}, j);
      assert m - {j} - {k} == m - {k} - {j};
    }
  }

  /** Setting one entry moves the sum by the difference; removing one takes its value out. */
  lemma SumUpdate<K>(m: map<K, int>, k: K, v: int)
    ensures Sum(m[k := v]) == Sum(m) - Get(m, k) + v
    ensures Sum(m - {k}) == Sum(m) - Get(m, k)
  {
    SumRemove(m[k := v], k);
    assert m[k := v] - {k} == m - {k};
    if k in m {
      SumRemove(m, k);
    } else {
      assert m - {k} == m;
    }
  }

  /** Nothing summed is negative, so no single entry exceeds the whole. */
  lemma {:induction false} SumBounds<K>(m: map<K, int>, k: K)
    requires forall j | j in m :: m[j] >= 0
    ensures 0 <= Get(m, k) <= Sum(m)
    decreases |m|
  {
    if k in m {
      SumRemove(m, k);
      SumBounds(m - {k}, k);
    } else if m != map[] {
      var j :| j in m;
      SumRemove(m, j);
      SumBounds(m - {j}, k);
    }
  }
}
