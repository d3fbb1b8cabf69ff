/** Sums over the values of a finite map, and how one write changes them. */
module Sums {
  ghost function Total<K>(m: map<K, int>): int
    decreases |m|
  {
    if m == map[] then 0
    else
      var k :| k in m;
      m[k] + Total(m - {k})
  }

  function At<K>(m: map<K, int>, k: K): int {
    if k in m then m[k] else 0
  }

  lemma {:induction false} TotalRemove<K>(m: map<K, int>, k: K)
    requires k in m
    ensures Total(m) == m[k] + Total(m - {k})
    decreases |m|
  {
    var j :| j in m && Total(m) == m[j] + Total(m - {j});
    if j != k {
      TotalRemove(m - {j}, k);
      TotalRemove(m - {k}, j);
      assert m - {j} - {k} == m - {k} - {j};
    }
  }

  /** Writing one key changes the sum by the difference at that key. */
  lemma TotalUpdate<K>(m: map<K, int>, k: K, v: int)
    ensures Total(m[k := v]) == Total(m) + v - At(m, k)
  {
    var n := m[k := v];
    TotalRemove(n, k);
    if k in m {
      TotalRemove(m, k);
      assert n - {k} == m - {k};
    } else {
      assert n - {k} == m;
    }
  }

  /** Deleting a key takes its value out of the sum. */
  lemma TotalDelete<K>(m: map<K, int>, k: K)
    ensures Total(m - {k}) == Total(m) - At(m, k)
  {
    if k in m {
      TotalRemove(m, k);
    } else {
      assert m - {k} == m;
    }
  }

  lemma {:induction false} TotalNonNegative<K>(m: map<K, int>)
    requires forall k :: k in m ==> m[k] >= 0
    ensures Total(m) >= 0
    ensures forall k :: k in m ==> m[k] <= Total(m)
    decreases |m|
  {
    forall k | k in m
      ensures 0 <= m[k] <= Total(m)
    {
      TotalRemove(m, k);
      TotalNonNegative(m - {k});
    }
    if m != map[] {
      var k :| k in m;
      assert 0 <= m[k] <= Total(m);
    }
  }

  /** Two maps without a common key, one of them rebuilt by its key k. */
  lemma MergeLast<K>(a: map<K, int>, b: map<K, int>, k: K)
    requires k in b
    ensures a + b == (a + (b - {k}))[k := b[k]]
  {
  }

  /** The sum over two maps without a common key. */
  lemma {:induction false} TotalSplit<K>(a: map<K, int>, b: map<K, int>)
    requires forall k :: k in b ==> k !in a
    ensures Total(a + b) == Total(a) + Total(b)
    decreases |b|
  {
    if b == map[] {
      assert a + b == a;
    } else {
      var k :| k in b;
      TotalSplit(a, b - {k});
      hide Total;
      MergeLast(a, b, k);
      TotalUpdate(a + (b - {k}), k, b[k]);
      TotalRemove(b, k);
    }
  }
}
