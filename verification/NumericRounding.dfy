/**
 What a numeric column stores, in terms of numbers: the decimal rounded to the column's scale, a half away
 from zero; and what the comparison's classes mean.
 */
module NumericRounding {
  import opened Options
  import opened Reconciliation

  /** A power of ten. */
  function Tens(n: nat): (p: nat)
    ensures p > 0
  {
    if n == 0 then 1 else Tens(n - 1) * 10
  }

  function Absolute(x: int): nat {
    if x >= 0 then x else -x
  }

  lemma {:induction false} ShiftedIs(m: nat, places: nat)
    ensures Shifted(m, places) == m * Tens(places)
  {
    if places > 0 {
      ShiftedIs(m, places - 1);
      Regroup(m, Tens(places - 1));
    }
  }

  lemma Regroup(m: nat, t: nat)
    ensures 10 * (m * t) == m * (t * 10)
  {
  }

  lemma {:induction false} PowerIs(n: nat)
    ensures PowerOfTen(n) == Tens(n)
  {
    if n > 0 {
      PowerIs(n - 1);
    }
  }

  /** Dropping digits leaves the quotient by their power of ten. */
  lemma {:induction false} TruncatedIs(m: nat, places: nat)
    ensures Truncated(m, places) * Tens(places) <= m < (Truncated(m, places) + 1) * Tens(places)
  {
    if places > 0 {
      TruncatedIs(m, places - 1);
      DropOne(Truncated(m, places - 1), Tens(places - 1), m);
    }
  }

  lemma DropOne(q: nat, t: nat, m: nat)
    requires t > 0 && q * t <= m < (q + 1) * t
    ensures (q / 10) * (t * 10) <= m < (q / 10 + 1) * (t * 10)
  {
    var a, b := q / 10, q % 10;
    assert q == 10 * a + b;
    Spread(a, b, t);
    Ordered(q + 1, 10 * a + 10, t);
    Ordered(10 * a, q, t);
  }

  lemma Ordered(x: nat, y: nat, t: nat)
    requires x <= y
    ensures x * t <= y * t
  {
  }

  lemma Spread(a: nat, b: nat, t: nat)
    ensures (10 * a) * t == a * (t * 10) && (10 * a + 10) * t == (a + 1) * (t * 10)
    ensures (10 * a + b) * t == a * (t * 10) + b * t
  {
  }

  /** The nearest multiple of the unit, upwards from a half. */
  predicate Nearest(m: nat, unit: nat, rounded: nat) {
    2 * (rounded * unit) - unit <= 2 * m < 2 * (rounded * unit) + unit
  }

  lemma RescaledRounds(m: nat, scale: nat, wanted: nat)
    ensures scale > wanted ==> Nearest(m, Tens(scale - wanted), Rescaled(m, scale, wanted))
    ensures scale <= wanted ==> Rescaled(m, scale, wanted) == m * Tens(wanted - scale)
  {
    if scale > wanted {
      var k := scale - wanted;
      TruncatedIs(m, k - 1);
      FirstDigitDecides(Truncated(m, k - 1), Tens(k - 1), m);
    } else {
      ShiftedIs(m, wanted - scale);
    }
  }

  lemma FirstDigitDecides(q: nat, t: nat, m: nat)
    requires t > 0 && q * t <= m < (q + 1) * t
    ensures Nearest(m, t * 10, q / 10 + if q % 10 >= 5 then 1 else 0)
  {
    var a, b := q / 10, q % 10;
    assert q == 10 * a + b;
    Spread(a, b, t);
    assert (q + 1) * t == q * t + t;
    assert (a + 1) * (t * 10) == a * (t * 10) + t * 10;
    if b >= 5 {
      Ordered(5, b, t);
      Ordered(b + 1, 10, t);
      assert (b + 1) * t == b * t + t;
    } else {
      Ordered(b + 1, 5, t);
      assert (b + 1) * t == b * t + t;
    }
  }

  /**
   A decimal is stored with the column's scale, its sign, and the magnitude nearest to its own, a half away
   from zero, exactly if that has no more digits than the column's precision; else it overflows.
   */
  lemma StoredIsNearest(d: Decimal, column: Column, stored: Decimal)
    ensures Canonical(d, column) == Some(stored)
       <==> && stored.scale == column.scale && Absolute(stored.coefficient) < Tens(column.precision)
            && (stored.coefficient != 0 ==> (stored.coefficient < 0 <==> d.coefficient < 0))
            && if d.scale > column.scale
               then Nearest(Absolute(d.coefficient), Tens(d.scale - column.scale), Absolute(stored.coefficient))
               else Absolute(stored.coefficient) == Absolute(d.coefficient) * Tens(column.scale - d.scale)
  {
    var m := Rescaled(Absolute(d.coefficient), d.scale, column.scale);
    RescaledRounds(Absolute(d.coefficient), d.scale, column.scale);
    PowerIs(column.precision);
    if d.scale > column.scale && Nearest(Absolute(d.coefficient), Tens(d.scale - column.scale),
                                         Absolute(stored.coefficient)) {
      NearestIsOne(Absolute(d.coefficient), Tens(d.scale - column.scale), m, Absolute(stored.coefficient));
    }
  }

  lemma NearestIsOne(m: nat, unit: nat, a: nat, b: nat)
    requires unit > 0 && Nearest(m, unit, a) && Nearest(m, unit, b)
    ensures a == b
  {
    assert (a + 1) * unit == a * unit + unit && (b + 1) * unit == b * unit + unit;
    LessFactor(a, b + 1, unit);
    LessFactor(b, a + 1, unit);
  }

  lemma LessFactor(x: nat, y: nat, unit: nat)
    requires x * unit < y * unit
    ensures x < y
  {
    if y <= x {
      Ordered(y, x, unit);
    }
  }

  /** Two decimals are the same exactly if they denote the same number. */
  lemma SameIffEqual(a: Decimal, b: Decimal)
    ensures SameValue(a, b) <==> a.coefficient * Tens(b.scale) == b.coefficient * Tens(a.scale)
  {
    ShiftedIs(Absolute(a.coefficient), b.scale);
    ShiftedIs(Absolute(b.coefficient), a.scale);
    SignedProduct(a.coefficient, Tens(b.scale));
    SignedProduct(b.coefficient, Tens(a.scale));
  }

  lemma SignedProduct(x: int, t: nat)
    requires t > 0
    ensures x * t == if x < 0 then -(Absolute(x) * t) else Absolute(x) * t
    ensures x < 0 <==> x * t < 0
  {
  }

  // --------------------------------------------------------------------------- what the classes mean

  /** Both are missing, or both are stored as one and the same decimal. */
  predicate StoredAlike(a: Option<Decimal>, b: Option<Decimal>, column: Column) {
    match (a, b)
    case (None, None) => true
    case (Some(x), Some(y)) => Canonical(x, column).Some? && Canonical(x, column) == Canonical(y, column)
    case _ => false
  }

  predicate EqualNumbers(a: Option<Decimal>, b: Option<Decimal>) {
    match (a, b)
    case (None, None) => true
    case (Some(x), Some(y)) => x.coefficient * Tens(y.scale) == y.coefficient * Tens(x.scale)
    case _ => false
  }

  predicate TooLarge(a: Option<Decimal>, column: Column) {
    a.Some? && Canonical(a.value, column).None?
  }

  /**
   A candidate is exact when all its numerics are stored alike and are the same numbers, equivalent when they
   are only stored alike, overflows when some source or stored numeric is too large, and is else a mismatch.
   */
  lemma ClassesMean(source: seq<Option<Decimal>>, stored: seq<Option<Decimal>>, columns: seq<Column>)
    requires |source| == |stored| == |columns|
    ensures var kind := Class(source, Some(stored), columns);
            && (kind.Overflow? <==> exists n :: 0 <= n < |columns|
                                                && (TooLarge(source[n], columns[n]) || TooLarge(stored[n], columns[n])))
            && (kind.Exact? || kind.Equivalent?
                <==> forall n :: 0 <= n < |columns| ==> StoredAlike(source[n], stored[n], columns[n]))
            && (kind.Exact?
                <==> forall n :: 0 <= n < |columns| ==>
                                   StoredAlike(source[n], stored[n], columns[n]) && EqualNumbers(source[n], stored[n]))
    ensures Class(source, None, columns).Mismatch?
  {
    forall n | 0 <= n < |columns|
      ensures TooLarge(source[n], columns[n]) <==> CanonicalOf(source[n], columns[n]).Err?
      ensures TooLarge(stored[n], columns[n]) <==> CanonicalOf(stored[n], columns[n]).Err?
      ensures StoredAlike(source[n], stored[n], columns[n])
         <==> && !TooLarge(source[n], columns[n]) && !TooLarge(stored[n], columns[n])
              && CanonicalOf(source[n], columns[n]) == CanonicalOf(stored[n], columns[n])
      ensures EqualNumbers(source[n], stored[n])
         <==> && (source[n].None? <==> stored[n].None?)
              && (source[n].Some? && stored[n].Some? ==> SameValue(source[n].value, stored[n].value))
    {
      if source[n].Some? && stored[n].Some? {
        SameIffEqual(source[n].value, stored[n].value);
      }
    }
  }
}
