/**
  Sums over the rows of a table. A table is a map from primary key to row, so
  `SELECT count(*) ... WHERE p` and every budget of the models is a sum of a
  weight over the map's values.
*/
module Tally {

  ghost function Total<K(!new), V(!new)>(m: map<K, V>, f: V -> int): int
    decreases |m.Keys|
  {
    if m.Keys == {} then 0
    else
      var k :| k in m.Keys;
      assert (m - {k}).Keys == m.Keys - {k};
      f(m[k]) + Total(m - {k}, f)
  }

  /** The sum does not depend on the order in which the rows are visited. */
  lemma {:induction false} TotalSplit<K(!new), V(!new)>(m: map<K, V>, k: K, f: V -> int)
    requires k in m
    ensures Total(m, f) == f(m[k]) + Total(m - {k}, f)
    decreases |m.Keys|
  {
    var first :| first in m.Keys && Total(m, f) == f(m[first]) + Total(m - {first}, f);
    if first != k {
      assert (m - {first}).Keys == m.Keys - {first};
      assert (m - {k}).Keys == m.Keys - {k};
      TotalSplit(m - {first}, k, f);
      TotalSplit(m - {k}, first, f);
      assert m - {first} - {k} == m - {k} - {first};
    }
  }

  /** Updating one row changes the sum by that row's own difference. */
  lemma TotalUpdate<K(!new), V(!new)>(m: map<K, V>, k: K, v: V, f: V -> int)
    requires k in m
    ensures Total(m[k := v], f) == Total(m, f) - f(m[k]) + f(v)
  {
    TotalSplit(m, k, f);
    TotalSplit(m[k := v], k, f);
    assert m[k := v] - {k} == m - {k};
  }

  lemma TotalInsert<K(!new), V(!new)>(m: map<K, V>, k: K, v: V, f: V -> int)
    requires k !in m
    ensures Total(m[k := v], f) == Total(m, f) + f(v)
  {
    TotalSplit(m[k := v], k, f);
    assert m[k := v] - {k} == m;
  }

  /** Two tables over the same keys whose rows compare pointwise compare in sum. */
  lemma {:induction false} TotalMonotone<K(!new), V(!new)>(m: map<K, V>, n: map<K, V>, f: V -> int, g: V -> int)
    requires m.Keys == n.Keys
    requires forall k :: k in m ==> f(m[k]) <= g(n[k])
    ensures Total(m, f) <= Total(n, g)
    decreases |m.Keys|
  {
    if m.Keys != {} {
      var k :| k in m.Keys;
      assert (m - {k}).Keys == m.Keys - {k} == (n - {k}).Keys;
      TotalSplit(m, k, f);
      TotalSplit(n, k, g);
      TotalMonotone(m - {k}, n - {k}, f, g);
    }
  }

  lemma TotalEqual<K(!new), V(!new)>(m: map<K, V>, n: map<K, V>, f: V -> int, g: V -> int)
    requires m.Keys == n.Keys
    requires forall k :: k in m ==> f(m[k]) == g(n[k])
    ensures Total(m, f) == Total(n, g)
  {
    TotalMonotone(m, n, f, g);
    TotalMonotone(n, m, g, f);
  }

  lemma {:induction false} TotalNonNegative<K(!new), V(!new)>(m: map<K, V>, f: V -> int)
    requires forall k :: k in m ==> 0 <= f(m[k])
    ensures 0 <= Total(m, f)
    decreases |m.Keys|
  {
    if m.Keys != {} {
      var k :| k in m.Keys;
      assert (m - {k}).Keys == m.Keys - {k};
      TotalSplit(m, k, f);
      TotalNonNegative(m - {k}, f);
    }
  }

  /** A count is positive exactly when some row is counted. */
  lemma {:induction false} TotalPositive<K(!new), V(!new)>(m: map<K, V>, f: V -> int)
    requires forall k :: k in m ==> 0 <= f(m[k])
    ensures 0 < Total(m, f) <==> exists k :: k in m && 0 < f(m[k])
    decreases |m.Keys|
  {
    if m.Keys != {} {
      var k :| k in m.Keys;
      assert (m - {k}).Keys == m.Keys - {k};
      TotalSplit(m, k, f);
      TotalNonNegative(m - {k}, f);
      TotalPositive(m - {k}, f);
    }
  }

  /** The sum of pointwise sums is the sum of the sums. */
  lemma {:induction false} TotalAdd<K(!new), V(!new)>(m: map<K, V>, f: V -> int, g: V -> int, h: V -> int)
    requires forall k :: k in m ==> h(m[k]) == f(m[k]) + g(m[k])
    ensures Total(m, h) == Total(m, f) + Total(m, g)
    decreases |m.Keys|
  {
    if m.Keys != {} {
      var k :| k in m.Keys;
      assert (m - {k}).Keys == m.Keys - {k};
      TotalSplit(m, k, f);
      TotalSplit(m, k, g);
      TotalSplit(m, k, h);
      TotalAdd(m - {k}, f, g, h);
    }
  }

  /** Some key of a table that is not empty. */
  lemma AnyKey<K(!new), V(!new)>(m: map<K, V>) returns (k: K)
    requires m.Keys != {}
    ensures k in m
  {
    k :| k in m.Keys;
  }

  /** A row that a positive count counts. */
  lemma TotalWitness<K(!new), V(!new)>(m: map<K, V>, f: V -> int) returns (k: K)
    requires forall k :: k in m ==> 0 <= f(m[k])
    requires 0 < Total(m, f)
    ensures k in m && 0 < f(m[k])
  {
    TotalPositive(m, f);
    k :| k in m && 0 < f(m[k]);
  }

  lemma {:induction false} TotalSize<K(!new), V(!new)>(m: map<K, V>, f: V -> int)
    requires forall k :: k in m ==> f(m[k]) == 1
    ensures Total(m, f) == |m|
    decreases |m.Keys|
  {
    if m.Keys != {} {
      var k :| k in m.Keys;
      assert (m - {k}).Keys == m.Keys - {k};
      TotalSplit(m, k, f);
      TotalSize(m - {k}, f);
    }
  }

  lemma {:induction false} TotalScale<K(!new), V(!new)>(m: map<K, V>, f: V -> int, g: V -> int, c: int)
    requires forall k :: k in m ==> g(m[k]) == c * f(m[k])
    ensures Total(m, g) == c * Total(m, f)
    decreases |m.Keys|
  {
    if m.Keys != {} {
      var k :| k in m.Keys;
      assert (m - {k}).Keys == m.Keys - {k};
      TotalSplit(m, k, f);
      TotalSplit(m, k, g);
      TotalScale(m - {k}, f, g, c);
      Distribute(c, f(m[k]), Total(m - {k}, f));
    }
  }

  lemma Distribute(c: int, x: int, y: int)
    ensures c * (x + y) == c * x + c * y
  {}
}
