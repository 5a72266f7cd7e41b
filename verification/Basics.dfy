/** Shared vocabulary: optional values and sums over finite maps. */
module Basics {

  datatype Option<+T> = None | Some(value: T)

  /** The sum of all values of a map. */
  ghost function Total<K(!new)>(m: map<K, nat>): nat
    decreases |m|
  {
    if k :| k in m then m[k] + Total(m - {k}) else 0
  }

  /** The sum does not depend on the order in which the keys are visited. */
  lemma {:induction false} TotalSplit<K(!new)>(m: map<K, nat>, k: K)
    requires k in m
    ensures Total(m) == m[k] + Total(m - {k})
    decreases |m|
  {
    var j :| j in m && Total(m) == m[j] + Total(m - {j});
    if j != k {
      TotalSplit(m - {j}, k);
      TotalSplit(m - {k}, j);
      assert m - {j} - {k} == m - {k} - {j};
    }
  }

  lemma TotalInsert<K(!new)>(m: map<K, nat>, k: K, v: nat)
    requires k !in m
    ensures Total(m[k := v]) == Total(m) + v
  {
    TotalSplit(m[k := v], k);
    assert m[k := v] - {k} == m;
  }
}
