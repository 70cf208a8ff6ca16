/** Sums over finite maps. */
module Sums {

  ghost function Sum<K(!new)>(m: map<K, nat>): nat
    decreases |m|
  {
    if m == map[] then 0 else
      var k :| k in m;
      m[k] + Sum(m - {k})
  }

  /** The sum does not depend on the order in which the keys are visited. */
  lemma {:induction false} SumAt<K(!new)>(m: map<K, nat>, k: K)
    requires k in m
    ensures Sum(m) == m[k] + Sum(m - {k})
    decreases |m|
  {
    var j :| j in m && Sum(m) == m[j] + Sum(m - {j});
    if j != k {
      SumAt(m - {j}, k);
      SumAt(m - {k}, j);
      assert m - {k} - {j} == m - {j} - {k};
    }
  }

  lemma SumWithout<K(!new)>(m: map<K, nat>, k: K)
    ensures Sum(m) == Sum(m - {k}) + if k in m then m[k] else 0
  {
    if k in m {
      SumAt(m, k);
    } else {
      assert m - {k} == m;
    }
  }

  lemma SumPut<K(!new)>(m: map<K, nat>, k: K, n: nat)
    ensures Sum(m[k := n]) + (if k in m then m[k] else 0) == Sum(m) + n
  {
    SumWithout(m, k);
    SumAt(m[k := n], k);
    assert m[k := n] - {k} == m - {k};
  }

  lemma {:induction false} SumAtMost<K(!new)>(m: map<K, nat>, m': map<K, nat>)
    requires forall k :: (k in m <==> k in m') && (k in m ==> m'[k] <= m[k])
    ensures Sum(m') <= Sum(m)
    decreases |m|
  {
    if m == map[] {
      assert m' == map[];
    } else {
      var k :| k in m;
      SumAt(m, k);
      SumAt(m', k);
      SumAtMost(m - {k}, m' - {k});
    }
  }
}
