/** Termination measures: lexicographic tuples, and sums over finite maps to put into them. */
module Sums {

  /** Compared component by component. */
  datatype Measure = Measure(m0: nat, m1: nat, m2: nat, m3: nat, m4: nat) {
    predicate Less(m: Measure) {
      || m0 < m.m0
      || (m0 == m.m0 && m1 < m.m1)
      || (m0 == m.m0 && m1 == m.m1 && m2 < m.m2)
      || (m0 == m.m0 && m1 == m.m1 && m2 == m.m2 && m3 < m.m3)
      || (m0 == m.m0 && m1 == m.m1 && m2 == m.m2 && m3 == m.m3 && m4 < m.m4)
    }
  }

  lemma LessTransitive(a: Measure, b: Measure, c: Measure)
    requires a.Less(b) && b.Less(c)
    ensures a.Less(c)
  {
  }

  ghost function Total(m: map<nat, nat>): nat
    decreases |m|
  {
    if m == map[] then 0
    else
      var k :| k in m;
      assert |m - {k}| < |m| by { assert (m - {k}).Keys == m.Keys - {k}; }
      m[k] + Total(m - {k})
  }

  lemma {:induction false} TotalSplit(m: map<nat, nat>, k: nat)
    requires k in m
    ensures Total(m) == m[k] + Total(m - {k})
    decreases |m|
  {
    var j :| j in m && Total(m) == m[j] + Total(m - {j});
    if j != k {
      assert |m - {j}| < |m| by { assert (m - {j}).Keys == m.Keys - {j}; }
      assert |m - {k}| < |m| by { assert (m - {k}).Keys == m.Keys - {k}; }
      TotalSplit(m - {j}, k);
      TotalSplit(m - {k}, j);
      assert m - {j} - {k} == m - {k} - {j};
    }
  }

  lemma {:induction false} TotalMono(m: map<nat, nat>, m': map<nat, nat>)
    requires m.Keys == m'.Keys && forall k | k in m :: m'[k] <= m[k]
    ensures Total(m') <= Total(m)
    decreases |m|
  {
    if m != map[] {
      var k :| k in m;
      assert |m - {k}| < |m| by { assert (m - {k}).Keys == m.Keys - {k}; }
      TotalSplit(m, k);
      TotalSplit(m', k);
      TotalMono(m - {k}, m' - {k});
    } else {
      assert m' == map[];
    }
  }

  lemma TotalLess(m: map<nat, nat>, m': map<nat, nat>, k: nat)
    requires m.Keys == m'.Keys && forall j | j in m :: m'[j] <= m[j]
    requires k in m && m'[k] < m[k]
    ensures Total(m') < Total(m)
  {
    TotalSplit(m, k);
    TotalSplit(m', k);
    TotalMono(m - {k}, m' - {k});
  }
}
