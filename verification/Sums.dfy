/** Sums over the rows of a finite table: what `SELECT SUM(f(row))` computes. */
module Sums {

  ghost function Sum<K, V>(m: map<K, V>, f: V -> int): int
  {
    if m == map[] then 0 else var k :| k in m; f(m[k]) + Sum(m - {k}, f)
  }

  /** The sum does not depend on the order in which rows are visited. */
  lemma {:induction false} SumRemove<K, V>(m: map<K, V>, f: V -> int, k: K)
    requires k in m
    ensures Sum(m, f) == f(m[k]) + Sum(m - {k}, f)
    decreases |m|
  {
    var j :| j in m && Sum(m, f) == f(m[j]) + Sum(m - {j}, f);
    if j != k {
      SumRemove(m - {j}, f, k);
      SumRemove(m - {k}, f, j);
      assert m - {j} - {k} == m - {k} - {j};
    }
  }

  /** Writing one row changes the sum by the difference of that row alone. */
  lemma SumUpdate<K, V>(m: map<K, V>, f: V -> int, k: K, v: V)
    ensures Sum(m[k := v], f) == Sum(m, f) - (if k in m then f(m[k]) else 0) + f(v)
  {
    SumRemove(m[k := v], f, k);
    assert m[k := v] - {k} == m - {k};
    if k in m {
      SumRemove(m, f, k);
    } else {
      assert m - {k} == m;
    }
  }

  lemma {:induction false} SumNonNegative<K, V>(m: map<K, V>, f: V -> int)
    requires forall k | k in m :: f(m[k]) >= 0
    ensures Sum(m, f) >= 0
    decreases |m|
  {
    if m != map[] {
      var k :| k in m && Sum(m, f) == f(m[k]) + Sum(m - {k}, f);
      SumNonNegative(m - {k}, f);
    }
  }

  /** A row is never larger than the total of non-negative rows. */
  lemma SumBoundsMember<K, V>(m: map<K, V>, f: V -> int, k: K)
    requires forall j | j in m :: f(m[j]) >= 0
    requires k in m
    ensures 0 <= f(m[k]) <= Sum(m, f)
  {
    SumRemove(m, f, k);
    SumNonNegative(m - {k}, f);
  }

  /** Rewriting rows without changing what they contribute keeps the sum. */
  lemma {:induction false} SumSameContributions<K, V>(m: map<K, V>, n: map<K, V>, f: V -> int)
    requires m.Keys == n.Keys
    requires forall k | k in m :: f(m[k]) == f(n[k])
    ensures Sum(m, f) == Sum(n, f)
    decreases |m|
  {
    if m == map[] {
      assert n == map[];
    } else {
      var k :| k in m && Sum(m, f) == f(m[k]) + Sum(m - {k}, f);
      SumRemove(n, f, k);
      SumSameContributions(m - {k}, n - {k}, f);
    }
  }

  /** Leaving out one row of a table of non-negative rows, and any others, loses at least that row. */
  lemma {:induction false} SumSubtable<K, V>(m: map<K, V>, n: map<K, V>, f: V -> int)
    requires forall k | k in n :: f(n[k]) >= 0
    requires forall k | k in m :: k in n && f(m[k]) == f(n[k])
    ensures Sum(m, f) <= Sum(n, f)
    decreases |m|
  {
    if m == map[] {
      SumNonNegative(n, f);
    } else {
      var k :| k in m && Sum(m, f) == f(m[k]) + Sum(m - {k}, f);
      SumRemove(n, f, k);
      SumSubtable(m - {k}, n - {k}, f);
    }
  }
}
