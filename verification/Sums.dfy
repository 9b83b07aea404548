// Totals over the values of a finite map.
module Sums {

  ghost function Sum<K>(m: map<K, real>): real {
    if m == map[] then 0.0 else
    var k :| k in m;
    m[k] + Sum(m - {k})
  }

  /** Any key may be taken out first. */
  lemma {:induction false} SumTakesOut<K>(m: map<K, real>, k: K)
    requires k in m
    ensures Sum(m) == m[k] + Sum(m - {k})
    decreases |m|
  {
    var j :| j in m && Sum(m) == m[j] + Sum(m - {j});
    if j != k {
      SumTakesOut(m - {j}, k);
      SumTakesOut(m - {k}, j);
      assert m - {j} - {k} == m - {k} - {j};
    }
  }

  /** Writing one entry moves the total by the difference. */
  lemma SumUpdates<K>(m: map<K, real>, k: K, v: real)
    ensures Sum(m[k := v]) == Sum(m) - (if k in m then m[k] else 0.0) + v
  {
    var m' := m[k := v];
    SumTakesOut(m', k);
    if k in m {
      SumTakesOut(m, k);
      assert m' - {k} == m - {k};
    } else {
      assert m' - {k} == m;
    }
  }

  lemma {:induction false} SumOfZeros<K>(m: map<K, real>)
    requires forall k :: k in m ==> m[k] == 0.0
    ensures Sum(m) == 0.0
    decreases |m|
  {
    if m == map[] {
    } else {
      var k :| k in m;
      SumTakesOut(m, k);
      SumOfZeros(m - {k});
    }
  }

  /** Totals add pointwise. */
  lemma {:induction false} SumAdds<K>(a: map<K, real>, b: map<K, real>, c: map<K, real>)
    requires a.Keys == b.Keys == c.Keys
    requires forall k :: k in a ==> c[k] == a[k] + b[k]
    ensures Sum(c) == Sum(a) + Sum(b)
    decreases |a|
  {
    if a != map[] {
      var k :| k in a;
      SumTakesOut(a, k);
      SumTakesOut(b, k);
      SumTakesOut(c, k);
      SumAdds(a - {k}, b - {k}, c - {k});
    } else {
      assert b == map[] && c == map[];
    }
  }
}
