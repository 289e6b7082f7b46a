/** Sums over the values of a map. */
module MapSums {

  ghost function MapSum<T>(m: map<string, T>, w: T -> int): int {
    if m == map[] then 0 else
      var k :| k in m;
      w(m[k]) + MapSum(m - {k}, w)
  }

  /** The sum does not depend on the order in which the entries are added up. */
  lemma {:induction false} MapSumSplit<T>(m: map<string, T>, k: string, w: T -> int)
    requires k in m
    ensures MapSum(m, w) == w(m[k]) + MapSum(m - {k}, w)
    decreases |m|
  {
    var j :| j in m && MapSum(m, w) == w(m[j]) + MapSum(m - {j}, w);
    if j != k {
      MapSumSplit(m - {j}, k, w);
      MapSumSplit(m - {k}, j, w);
      assert m - {j} - {k} == m - {k} - {j};
    }
  }

  lemma {:induction false} MapSumUpdate<T>(m: map<string, T>, k: string, v: T, w: T -> int)
    ensures MapSum(m[k := v], w) == MapSum(m, w) - (if k in m then w(m[k]) else 0) + w(v)
  {
    MapSumSplit(m[k := v], k, w);
    if k in m {
      MapSumSplit(m, k, w);
      assert m[k := v] - {k} == m - {k};
    } else {
      assert m[k := v] - {k} == m;
    }
  }
}
