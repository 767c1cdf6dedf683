/** Sums of a weight over the rows of a keyed table, as SUM computes them. */
module MapSums {

  ghost function Pick<K(!new), V>(m: map<K, V>): K
    requires m != map[]
    ensures Pick(m) in m
  {
    var k :| k in m;
    k
  }

  ghost function Total<K(!new), V>(m: map<K, V>, w: V -> real): real
    decreases |m|
  {
    if m == map[] then 0.0
    else var k := Pick(m); w(m[k]) + Total(m - {k}, w)
  }

  /** Any row may be taken out first. */
  lemma {:induction false} TotalSplit<K(!new), V>(m: map<K, V>, w: V -> real, k: K)
    requires k in m
    ensures Total(m, w) == w(m[k]) + Total(m - {k}, w)
    decreases |m|
  {
    var j := Pick(m);
    if j != k {
      TotalSplit(m - {j}, w, k);
      TotalSplit(m - {k}, w, j);
      assert m - {j} - {k} == m - {k} - {j};
    }
  }

  lemma TotalInsert<K(!new), V>(m: map<K, V>, w: V -> real, k: K, v: V)
    requires k !in m
    ensures Total(m[k := v], w) == Total(m, w) + w(v)
  {
    TotalSplit(m[k := v], w, k);
    assert m[k := v] - {k} == m;
  }

  lemma TotalUpdate<K(!new), V>(m: map<K, V>, w: V -> real, k: K, v: V)
    requires k in m
    ensures Total(m[k := v], w) == Total(m, w) - w(m[k]) + w(v)
  {
    TotalSplit(m, w, k);
    TotalSplit(m[k := v], w, k);
    assert m[k := v] - {k} == m - {k};
  }

  /** Heavier rows give a heavier sum; in particular equal weights give equal sums. */
  lemma {:induction false} TotalMonotone<K(!new), V>(m: map<K, V>, w: V -> real, x: V -> real)
    requires forall k :: k in m ==> w(m[k]) <= x(m[k])
    ensures Total(m, w) <= Total(m, x)
    decreases |m|
  {
    if m != map[] {
      TotalMonotone(m - {Pick(m)}, w, x);
    }
  }

  lemma {:induction false} TotalNonnegative<K(!new), V>(m: map<K, V>, w: V -> real)
    requires forall k :: k in m ==> w(m[k]) >= 0.0
    ensures Total(m, w) >= 0.0
    decreases |m|
  {
    if m != map[] {
      TotalNonnegative(m - {Pick(m)}, w);
    }
  }

  lemma TotalBoundsRow<K(!new), V>(m: map<K, V>, w: V -> real, k: K)
    requires k in m && forall j :: j in m ==> w(m[j]) >= 0.0
    ensures w(m[k]) <= Total(m, w)
  {
    TotalSplit(m, w, k);
    TotalNonnegative(m - {k}, w);
  }

  lemma {:induction false} TotalZero<K(!new), V>(m: map<K, V>, w: V -> real)
    requires forall k :: k in m ==> w(m[k]) == 0.0
    ensures Total(m, w) == 0.0
    decreases |m|
  {
    if m != map[] {
      TotalZero(m - {Pick(m)}, w);
    }
  }

  /** Weighing the rows a condition leaves out with zero is summing over the rows it selects. */
  lemma {:induction false} TotalWhere<K(!new), V(!new)>(m: map<K, V>, w: V -> real, rows: map<K, V>, x: V -> real)
    requires forall k :: k in rows ==> k in m && rows[k] == m[k] && w(m[k]) == x(m[k])
    requires forall k :: k in m && k !in rows ==> w(m[k]) == 0.0
    ensures Total(m, w) == Total(rows, x)
    decreases |m|
  {
    if m == map[] {
      assert rows == map[];
    } else {
      var k := Pick(m);
      if k in rows {
        TotalSplit(rows, x, k);
      } else {
        assert rows - {k} == rows;
      }
      TotalWhere(m - {k}, w, rows - {k}, x);
    }
  }
}
