/** Resting energy requirement (RER): a 21-row reference table from body
    weight in kilograms to kcal/day, clamped at both ends and linearly
    interpolated in between; and the pound/kilogram conversions. */
module RerEstimator {

  /** One row of the reference table. The table's pound column is never
      read and is not kept. */
  datatype Row = Row(kg: real, rer: real)

  /** The 21 rows, written as two halves so that looking up a row does not
      walk one long chain of appends. */
  const Table: seq<Row> := [
    Row(0.5, 39.0), Row(0.9, 65.0), Row(1.4, 88.0), Row(1.8, 110.0),
    Row(2.3, 130.0), Row(2.7, 149.0), Row(3.2, 167.0), Row(3.6, 184.0),
    Row(4.1, 200.0), Row(4.5, 218.0)] + [
    Row(5.0, 234.0), Row(5.5, 250.0),
    Row(5.9, 265.0), Row(6.4, 280.0), Row(6.8, 295.0), Row(7.3, 310.0),
    Row(7.7, 324.0), Row(8.2, 339.0), Row(8.6, 353.0), Row(9.1, 366.0),
    Row(11.4, 433.0)]

  /** Index of the table's last row. */
  const Last: nat := |Table| - 1

  const LbsPerKg: real := 2.20462

  function LbsToKg(lbs: real): (kg: real)
    ensures kg * LbsPerKg == lbs
    ensures lbs > 0.0 ==> 0.0 < kg < lbs
  {
    lbs / LbsPerKg
  }

  function KgToLbs(kg: real): (lbs: real)
    ensures lbs / LbsPerKg == kg
    ensures kg > 0.0 ==> lbs > kg
  {
    kg * LbsPerKg
  }

  lemma LbsKgRoundTrip(x: real)
    ensures LbsToKg(KgToLbs(x)) == x
    ensures KgToLbs(LbsToKg(x)) == x
  {
  }

  /** A usable reference table: at least two rows, and both columns grow
      strictly from row to row. */
  ghost predicate WellFormed(t: seq<Row>)
  {
    |t| >= 2 && forall i :: 0 <= i < |t| - 1 ==> t[i].kg < t[i + 1].kg && t[i].rer < t[i + 1].rer
  }

  lemma TableWellFormed()
    ensures WellFormed(Table) && |Table| == 21 && Last == 20
    ensures Table[0] == Row(0.5, 39.0) && Table[Last] == Row(11.4, 433.0)
  {
    // The twenty consecutive pairs, in four groups of five.
    forall i | 0 <= i < |Table| - 1
      ensures Table[i].kg < Table[i + 1].kg && Table[i].rer < Table[i + 1].rer
    {
      if i < 10 {
        if i < 5 {} else {}
      } else {
        if i < 15 {} else {}
      }
    }
  }

  /** In a well-formed table a later row never has a smaller weight or a
      smaller RER, and a strictly later row has a strictly larger weight. */
  lemma {:induction false} RowsOrdered(t: seq<Row>, i: nat, j: nat)
    requires WellFormed(t)
    requires i <= j < |t|
    ensures t[i].kg <= t[j].kg && t[i].rer <= t[j].rer
    ensures i < j ==> t[i].kg < t[j].kg
    decreases j - i
  {
    if i < j {
      RowsOrdered(t, i + 1, j);
    }
  }

  lemma AllRowsOrdered(t: seq<Row>)
    requires WellFormed(t)
    ensures forall i, j :: 0 <= i <= j < |t| ==> t[i].kg <= t[j].kg && t[i].rer <= t[j].rer
    ensures forall i, j :: 0 <= i < j < |t| ==> t[i].kg < t[j].kg
  {
    forall i, j | 0 <= i <= j < |t|
      ensures t[i].kg <= t[j].kg && t[i].rer <= t[j].rer
      ensures i < j ==> t[i].kg < t[j].kg
    {
      RowsOrdered(t, i, j);
    }
  }

  /** The straight line through (lo.kg, lo.rer) and (hi.kg, hi.rer), at w. */
  function Lerp(lo: Row, hi: Row, w: real): real
    requires lo.kg < hi.kg
  {
    var ratio := (w - lo.kg) / (hi.kg - lo.kg);
    lo.rer + ratio * (hi.rer - lo.rer)
  }

  lemma LerpEndpoints(lo: Row, hi: Row)
    requires lo.kg < hi.kg
    ensures Lerp(lo, hi, lo.kg) == lo.rer
    ensures Lerp(lo, hi, hi.kg) == hi.rer
  {
  }

  /** Between its end points the line stays between the end values. */
  lemma LerpWithin(lo: Row, hi: Row, w: real)
    requires lo.kg < hi.kg && lo.rer <= hi.rer
    requires lo.kg <= w <= hi.kg
    ensures lo.rer <= Lerp(lo, hi, w) <= hi.rer
  {
    var d := hi.kg - lo.kg;
    var ratio := (w - lo.kg) / d;
    UnitRatio(w - lo.kg, d);
    ScaleOrder(hi.rer - lo.rer, 0.0, ratio);
    ScaleOrder(hi.rer - lo.rer, ratio, 1.0);
  }

  /** A part of a positive whole, divided by the whole, lies in [0, 1]. */
  lemma UnitRatio(x: real, d: real)
    requires d > 0.0 && 0.0 <= x <= d
    ensures 0.0 <= x / d <= 1.0
  {
  }

  /** Scaling by a non-negative factor keeps the order of two reals. */
  lemma ScaleOrder(c: real, x: real, y: real)
    requires c >= 0.0 && x <= y
    ensures x * c <= y * c
  {
    assert y * c - x * c == (y - x) * c;
  }

  /** The line does not decrease when its end values do not. */
  lemma LerpMonotonic(lo: Row, hi: Row, v: real, w: real)
    requires lo.kg < hi.kg && lo.rer <= hi.rer
    requires v <= w
    ensures Lerp(lo, hi, v) <= Lerp(lo, hi, w)
  {
    var d := hi.kg - lo.kg;
    var rv, rw := (v - lo.kg) / d, (w - lo.kg) / d;
    assert rw - rv == (w - v) / d;
    assert rv <= rw;
    assert rw * (hi.rer - lo.rer) - rv * (hi.rer - lo.rer) == (rw - rv) * (hi.rer - lo.rer);
  }

  /** Rows i and i + 1 of t bracket weight w. */
  ghost predicate Brackets(t: seq<Row>, w: real, i: int)
  {
    0 <= i < |t| - 1 && t[i].kg <= w <= t[i + 1].kg
  }

  /** Row i is the first row that, with its successor, brackets w. */
  ghost predicate IsFirstBracket(t: seq<Row>, w: real, i: int)
  {
    Brackets(t, w, i) && forall j :: 0 <= j < i ==> !Brackets(t, w, j)
  }

  /** Linear interpolation between rows i and i + 1. */
  function Interpolate(t: seq<Row>, w: real, i: nat): real
    requires WellFormed(t) && i < |t| - 1
  {
    Lerp(t[i], t[i + 1], w)
  }

  /** The search loop started at row i: the first bracketing pair from i on
      is interpolated; past the last pair it falls back to the first row's
      RER. */
  function Scan(t: seq<Row>, w: real, i: nat): real
    requires WellFormed(t) && i <= |t| - 1
    decreases |t| - 1 - i
  {
    if i == |t| - 1 then t[0].rer
    else if w >= t[i].kg && w <= t[i + 1].kg then Interpolate(t, w, i)
    else Scan(t, w, i + 1)
  }

  /** The estimate from table t: clamped to the first and last rows,
      scanned in between. */
  function Estimate(t: seq<Row>, w: real): real
    requires WellFormed(t)
  {
    if w <= t[0].kg then t[0].rer
    else if w >= t[|t| - 1].kg then t[|t| - 1].rer
    else Scan(t, w, 0)
  }

  /** The RER the estimator gives for a weight in kilograms: the first
      row's RER at or below its weight, the last row's at or above its
      weight. */
  function RerOf(weightKg: real): (rer: real)
    ensures weightKg <= 0.5 ==> rer == 39.0
    ensures weightKg >= 11.4 ==> rer == 433.0
  {
    TableWellFormed();
    Estimate(Table, weightKg)
  }

  /** The estimator's search, over any well-formed table: clamp at both
      ends, otherwise walk the consecutive pairs and interpolate on the
      first one that brackets the weight. */
  method ScanTable(t: seq<Row>, weightKg: real) returns (rer: real)
    requires WellFormed(t)
    ensures rer == Estimate(t, weightKg)
  {
    if weightKg <= t[0].kg {
      return t[0].rer;
    }
    if weightKg >= t[|t| - 1].kg {
      return t[|t| - 1].rer;
    }
    for i := 0 to |t| - 1
      invariant Scan(t, weightKg, i) == Scan(t, weightKg, 0)
    {
      var lower := t[i];
      var upper := t[i + 1];
      if weightKg >= lower.kg && weightKg <= upper.kg {
        var ratio := (weightKg - lower.kg) / (upper.kg - lower.kg);
        return lower.rer + ratio * (upper.rer - lower.rer);
      }
    }
    return t[0].rer;
  }

  method CalculateRer(weightKg: real) returns (rer: real)
    ensures rer == RerOf(weightKg)
  {
    TableWellFormed();
    rer := ScanTable(Table, weightKg);
  }

  /** From row k on, the scan stops at the first bracketing pair i. */
  lemma {:induction false} ScanStopsAtFirstBracket(t: seq<Row>, w: real, k: nat, i: nat)
    requires WellFormed(t)
    requires k <= i && Brackets(t, w, i)
    requires forall j :: k <= j < i ==> !Brackets(t, w, j)
    ensures Scan(t, w, k) == Interpolate(t, w, i)
    decreases i - k
  {
    if k < i {
      assert !Brackets(t, w, k);
      ScanStopsAtFirstBracket(t, w, k + 1, i);
    }
  }

  /** Strictly inside the table's range some pair brackets the weight:
      found by walking up from row k. */
  lemma {:induction false} FindBracket(t: seq<Row>, w: real, k: nat) returns (i: nat)
    requires WellFormed(t)
    requires k < |t| - 1 && t[k].kg <= w < t[|t| - 1].kg
    requires forall j :: 0 <= j < k ==> !Brackets(t, w, j)
    ensures IsFirstBracket(t, w, i)
    decreases |t| - k
  {
    if w <= t[k + 1].kg {
      i := k;
    } else {
      assert k + 1 < |t| - 1;
      i := FindBracket(t, w, k + 1);
    }
  }

  /** Strictly inside the table's range the scan always finds a bracketing
      pair, so its fallback is never taken: the estimate is the
      interpolation on the first bracketing pair and lies between that
      pair's RER values. */
  lemma EstimateInterpolatesFirstBracket(t: seq<Row>, w: real) returns (i: nat)
    requires WellFormed(t)
    requires t[0].kg < w < t[|t| - 1].kg
    ensures IsFirstBracket(t, w, i)
    ensures Estimate(t, w) == Interpolate(t, w, i)
    ensures t[i].rer <= Estimate(t, w) <= t[i + 1].rer
  {
    i := FindBracket(t, w, 0);
    ScanStopsAtFirstBracket(t, w, 0, i);
    LerpWithin(t[i], t[i + 1], w);
  }

  /** Any bracketing pair gives the estimate, not only the first one: two
      brackets can only share an end point, where both lines agree. */
  lemma EstimateOnBracket(t: seq<Row>, w: real, i: nat)
    requires WellFormed(t)
    requires Brackets(t, w, i)
    ensures Estimate(t, w) == Interpolate(t, w, i)
    ensures t[i].rer <= Estimate(t, w) <= t[i + 1].rer
  {
    AllRowsOrdered(t);
    LerpEndpoints(t[i], t[i + 1]);
    LerpWithin(t[i], t[i + 1], w);
    if w <= t[0].kg {
      assert i == 0;
    } else if w >= t[|t| - 1].kg {
      assert i == |t| - 2;
    } else {
      var j := EstimateInterpolatesFirstBracket(t, w);
      assert j <= i;
      if j < i {
        assert w == t[j + 1].kg == t[i].kg;
        assert j + 1 == i;
        LerpEndpoints(t[j], t[j + 1]);
      }
    }
  }

  /** The estimate never leaves the range of the RER column. */
  lemma EstimateBounds(t: seq<Row>, w: real)
    requires WellFormed(t)
    ensures t[0].rer <= Estimate(t, w) <= t[|t| - 1].rer
  {
    AllRowsOrdered(t);
    if t[0].kg < w < t[|t| - 1].kg {
      var i := EstimateInterpolatesFirstBracket(t, w);
    }
  }

  lemma EstimateMonotonic(t: seq<Row>, v: real, w: real)
    requires WellFormed(t)
    requires v <= w
    ensures Estimate(t, v) <= Estimate(t, w)
  {
    EstimateBounds(t, v);
    EstimateBounds(t, w);
    if t[0].kg < v && w < t[|t| - 1].kg {
      AllRowsOrdered(t);
      var i := EstimateInterpolatesFirstBracket(t, v);
      var j := EstimateInterpolatesFirstBracket(t, w);
      assert i <= j;
      if i == j {
        LerpMonotonic(t[i], t[i + 1], v, w);
      } else {
        assert t[i + 1].rer <= t[j].rer;
      }
    }
  }

  /** Strictly inside (0.5, 11.4) kg the RER is the interpolation on the
      first bracketing pair of rows, and lies between their RER values. */
  lemma RerInterpolatesFirstBracket(w: real) returns (i: nat)
    requires 0.5 < w < 11.4
    ensures IsFirstBracket(Table, w, i)
    ensures RerOf(w) == Interpolate(Table, w, i)
    ensures Table[i].rer <= RerOf(w) <= Table[i + 1].rer
  {
    TableWellFormed();
    i := EstimateInterpolatesFirstBracket(Table, w);
  }

  /** Between two consecutive rows the RER is their interpolation, and lies
      between their RER values; a weight both of its brackets share gets
      the same value from either. */
  lemma RerOnBracket(w: real, i: nat)
    requires Brackets(Table, w, i)
    ensures RerOf(w) == Interpolate(Table, w, i)
    ensures Table[i].rer <= RerOf(w) <= Table[i + 1].rer
  {
    TableWellFormed();
    EstimateOnBracket(Table, w, i);
  }

  /** A weight equal to a row's weight gives that row's RER exactly,
      including the weights two brackets share. */
  lemma RerTableHit(k: nat)
    requires k < |Table|
    ensures RerOf(Table[k].kg) == Table[k].rer
  {
    TableWellFormed();
    if k > 0 {
      RerOnBracket(Table[k].kg, k - 1);
      LerpEndpoints(Table[k - 1], Table[k]);
    }
  }

  lemma RerBounds(w: real)
    ensures 39.0 <= RerOf(w) <= 433.0
  {
    TableWellFormed();
    EstimateBounds(Table, w);
  }

  lemma RerMonotonic(v: real, w: real)
    requires v <= w
    ensures RerOf(v) <= RerOf(w)
  {
    TableWellFormed();
    EstimateMonotonic(Table, v, w);
  }

  /** A weight between two rows: 3.0 kg lies 0.6 of the way from 2.7 kg to
      3.2 kg, so its RER is 149 + 0.6 * 18 = 159.8. */
  lemma RerBetweenRows()
    ensures RerOf(3.0) == 159.8
  {
    TableWellFormed();
    assert Table[5] == Row(2.7, 149.0) && Table[6] == Row(3.2, 167.0);
    RerOnBracket(3.0, 5);
    var ratio := (3.0 - 2.7) / (3.2 - 2.7);
    assert ratio == 0.6;
    assert Lerp(Table[5], Table[6], 3.0) == 149.0 + ratio * 18.0;
  }
}
