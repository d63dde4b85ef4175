/**
 * The NURBS knot vectors (src/maths/nurbs.ts). Each maker allocates
 * n + degree + 2 slots for n + 1 control points and fills them by index in
 * one or more loops; only the number of points matters, not their values.
 * `knotIndexRange`, `domain` and `intervals` read the usable part of a knot
 * vector back out.
 */
module Nurbs {
  import opened Wrappers
  import JsArray

  /** `n + degree + 2` with `n = points.length - 1`. */
  function KnotCount(numberOfPoints: nat, degree: nat): nat {
    numberOfPoints + degree + 1
  }

  /** Clamped knot j: degree + 1 zeros, then 1, 2, ..., then degree + 1 copies of n - degree + 1. */
  function ClampedKnot(numberOfPoints: nat, degree: nat, j: int): int {
    var n := numberOfPoints - 1;
    if j >= n + 1 then n - degree + 1
    else if j <= degree then 0
    else j - degree
  }

  /** What `makeClampedKnots` and `makeKnots(.., 'clamped')` leave in the array. */
  function ClampedKnots(numberOfPoints: nat, degree: nat): (knots: seq<int>)
    ensures |knots| == KnotCount(numberOfPoints, degree)
  {
    seq(KnotCount(numberOfPoints, degree), j => ClampedKnot(numberOfPoints, degree, j))
  }

  /** What `makeClosedKnots` leaves in the array: knot i is i - degree. */
  function ClosedKnots(numberOfPoints: nat, degree: nat): (knots: seq<int>)
    ensures |knots| == KnotCount(numberOfPoints, degree)
  {
    seq(KnotCount(numberOfPoints, degree), j => j - degree)
  }

  /** What `makeLeftClampedRightOpenKnots` leaves in the array: degree + 1 zeros, then i - degree. */
  function LeftClampedRightOpenKnots(numberOfPoints: nat, degree: nat): (knots: seq<int>)
    ensures |knots| == KnotCount(numberOfPoints, degree)
  {
    seq(KnotCount(numberOfPoints, degree), j => if j <= degree then 0 else j - degree)
  }

  /** What `makeLeftOpenRightClampedKnots` leaves in the array: i - degree, then degree + 1 copies of n - degree + 1. */
  function LeftOpenRightClampedKnots(numberOfPoints: nat, degree: nat): (knots: seq<int>)
    ensures |knots| == KnotCount(numberOfPoints, degree)
  {
    var n := numberOfPoints - 1;
    seq(KnotCount(numberOfPoints, degree), j => if j < n + 1 then j - degree else n - degree + 1)
  }

  /** What `makeKnots(.., 'uniform')` leaves in the array: knot i is i. */
  function UniformKnots(numberOfPoints: nat, degree: nat): (knots: seq<int>)
    ensures |knots| == KnotCount(numberOfPoints, degree)
  {
    seq(KnotCount(numberOfPoints, degree), j => j)
  }

  /** The three loops shared by `makeClampedKnots` and the clamped branch of `makeKnots`. */
  method FillClamped(knots: array<int>, numberOfPoints: nat, degree: nat)
    requires knots.Length == KnotCount(numberOfPoints, degree)
    modifies knots
    ensures knots[..] == ClampedKnots(numberOfPoints, degree)
  {
    var n := numberOfPoints - 1;
    var knotCount := n + degree + 2;
    var i := 0;
    while i <= degree
      invariant 0 <= i <= degree + 1
      invariant forall j :: 0 <= j < i ==> knots[j] == 0
    {
      knots[i] := 0;
      i := i + 1;
    }
    i := 1;
    while i <= n - degree
      invariant 1 <= i <= (if n - degree > 0 then n - degree else 0) + 1
      invariant forall j :: 0 <= j <= degree ==> knots[j] == 0
      invariant forall j :: degree < j < degree + i ==> knots[j] == j - degree
    {
      knots[degree + i] := i;
      i := i + 1;
    }
    i := knotCount - degree - 1;
    while i < knotCount
      invariant n + 1 <= i <= knotCount
      invariant forall j :: 0 <= j < i ==> knots[j] == ClampedKnot(numberOfPoints, degree, j)
    {
      knots[i] := n - degree + 1;
      i := i + 1;
    }
  }

  /** `makeClampedKnots(points, degree)`. */
  method MakeClampedKnots<T>(points: seq<T>, degree: nat) returns (knots: array<int>)
    ensures fresh(knots)
    ensures knots[..] == ClampedKnots(|points|, degree)
  {
    knots := new int[KnotCount(|points|, degree)];
    FillClamped(knots, |points|, degree);
  }

  /** `makeClosedKnots(points, degree)`. */
  method MakeClosedKnots<T>(points: seq<T>, degree: nat) returns (knots: array<int>)
    ensures fresh(knots)
    ensures knots[..] == ClosedKnots(|points|, degree)
  {
    var n := |points| - 1;
    var knotCount := n + degree + 2;
    knots := new int[knotCount];
    var i := 0;
    while i < knotCount
      invariant 0 <= i <= knotCount
      invariant forall j :: 0 <= j < i ==> knots[j] == j - degree
    {
      knots[i] := i - degree;
      i := i + 1;
    }
  }

  /** `makeLeftClampedRightOpenKnots(points, degree)`. */
  method MakeLeftClampedRightOpenKnots<T>(points: seq<T>, degree: nat) returns (knots: array<int>)
    ensures fresh(knots)
    ensures knots[..] == LeftClampedRightOpenKnots(|points|, degree)
  {
    var n := |points| - 1;
    var knotCount := n + degree + 2;
    knots := new int[knotCount];
    var i := 0;
    while i <= degree
      invariant 0 <= i <= degree + 1
      invariant forall j :: 0 <= j < i ==> knots[j] == 0
    {
      knots[i] := 0;
      i := i + 1;
    }
    i := degree + 1;
    while i < knotCount
      invariant degree + 1 <= i <= knotCount
      invariant forall j :: 0 <= j < i ==> knots[j] == if j <= degree then 0 else j - degree
    {
      knots[i] := i - degree;
      i := i + 1;
    }
  }

  /** `makeLeftOpenRightClampedKnots(points, degree)`. */
  method MakeLeftOpenRightClampedKnots<T>(points: seq<T>, degree: nat) returns (knots: array<int>)
    ensures fresh(knots)
    ensures knots[..] == LeftOpenRightClampedKnots(|points|, degree)
  {
    var n := |points| - 1;
    var knotCount := n + degree + 2;
    knots := new int[knotCount];
    var i := 0;
    while i < knotCount - degree - 1
      invariant 0 <= i <= n + 1
      invariant forall j :: 0 <= j < i ==> knots[j] == j - degree
    {
      knots[i] := i - degree;
      i := i + 1;
    }
    i := knotCount - degree - 1;
    while i < knotCount
      invariant n + 1 <= i <= knotCount
      invariant forall j :: 0 <= j < i ==> knots[j] == if j < n + 1 then j - degree else n - degree + 1
    {
      knots[i] := n - degree + 1;
      i := i + 1;
    }
  }

  /** The `method` argument of `makeKnots`. */
  datatype KnotMethod = Uniform | Clamped

  /** `makeKnots(numberOfPoints, degree, method)`. */
  method MakeKnots(numberOfPoints: nat, degree: nat, kind: KnotMethod) returns (knots: array<int>)
    ensures fresh(knots)
    ensures knots[..] == if kind == Uniform then UniformKnots(numberOfPoints, degree) else ClampedKnots(numberOfPoints, degree)
  {
    var n := numberOfPoints - 1;
    var knotCount := n + degree + 2;
    knots := new int[knotCount];
    if kind == Uniform {
      var i := 0;
      while i < knotCount
        invariant 0 <= i <= knotCount
        invariant forall j :: 0 <= j < i ==> knots[j] == j
      {
        knots[i] := i;
        i := i + 1;
      }
    } else {
      FillClamped(knots, numberOfPoints, degree);
    }
  }

  /** Knots never decrease along the vector. */
  ghost predicate NonDecreasing(knots: seq<int>) {
    forall i, j :: 0 <= i <= j < |knots| ==> knots[i] <= knots[j]
  }

  /**
   * With no more degree than there are spans (degree <= n), the clamped vector
   * opens with degree + 1 zeros, closes with degree + 1 copies of
   * n - degree + 1, holds i at index degree + i in between (so j - degree at index j), and never decreases.
   */
  lemma ClampedKnotsShape(numberOfPoints: nat, degree: nat)
    requires degree < numberOfPoints
    ensures var knots := ClampedKnots(numberOfPoints, degree);
      var n := numberOfPoints - 1;
      && (forall j :: 0 <= j <= degree ==> knots[j] == 0)
      && (forall j :: |knots| - degree - 1 <= j < |knots| ==> knots[j] == n - degree + 1)
      && (forall j :: degree < j <= n ==> knots[j] == j - degree)
      && NonDecreasing(knots)
  {
  }

  /**
   * With a degree above n the clamped vector is no longer in order: its last
   * slots are overwritten with n - degree + 1, which lies below the zeros.
   */
  lemma ClampedKnotsUnorderedWhenDegreeTooHigh(numberOfPoints: nat, degree: nat)
    requires 0 < numberOfPoints < degree
    ensures var knots := ClampedKnots(numberOfPoints, degree);
      knots[0] == 0 && knots[|knots| - 1] < 0 && !NonDecreasing(knots)
  {
    var knots := ClampedKnots(numberOfPoints, degree);
    assert knots[0] > knots[|knots| - 1];
  }

  /** The closed vector counts up from -degree in steps of one. */
  lemma ClosedKnotsIncrease(numberOfPoints: nat, degree: nat)
    ensures var knots := ClosedKnots(numberOfPoints, degree);
      && knots[0] == -(degree as int)
      && forall i, j :: 0 <= i < j < |knots| ==> knots[j] - knots[i] == j - i
  {
  }

  /** The left-clamped, right-open vector opens with degree + 1 zeros, then counts up by one, and never decreases. */
  lemma LeftClampedRightOpenShape(numberOfPoints: nat, degree: nat)
    ensures var knots := LeftClampedRightOpenKnots(numberOfPoints, degree);
      && (forall j :: 0 <= j <= degree ==> knots[j] == 0)
      && (forall j :: degree < j < |knots| ==> knots[j] == knots[j - 1] + 1)
      && NonDecreasing(knots)
  {
  }

  /** The left-open, right-clamped vector counts up by one, closes with degree + 1 equal knots, and never decreases. */
  lemma LeftOpenRightClampedShape(numberOfPoints: nat, degree: nat)
    ensures var knots := LeftOpenRightClampedKnots(numberOfPoints, degree);
      && (forall j :: 0 < j < numberOfPoints ==> knots[j] == knots[j - 1] + 1)
      && (forall j :: numberOfPoints <= j < |knots| ==> knots[j] == numberOfPoints - degree)
      && NonDecreasing(knots)
  {
  }

  /** `knotIndexRange(knots, degree)`: the first and last knot index of the usable part. */
  function KnotIndexRange(knots: seq<int>, degree: nat): (range: (int, int))
    ensures range.1 - range.0 == |knots| - 2 * degree - 1
  {
    (degree, |knots| - degree - 1)
  }

  /** `domain(knots, degree)`: the knots at the two ends of the usable part; `undefined` when out of range. */
  function Domain(knots: seq<int>, degree: nat): (d: (Option<int>, Option<int>))
    ensures d.0 == JsArray.At(knots, KnotIndexRange(knots, degree).0)
    ensures d.1 == JsArray.At(knots, KnotIndexRange(knots, degree).1)
  {
    (JsArray.At(knots, degree), JsArray.At(knots, |knots| - degree - 1))
  }

  /** `intervals(knots, degree)`: `knots.slice(degree, knots.length - degree)`. */
  function Intervals(knots: seq<int>, degree: nat): (r: seq<int>)
  {
    JsArray.Slice(knots, degree, |knots| - degree)
  }

  /**
   * When the vector has room for the usable part, `intervals` is the run of
   * knots from one end of `knotIndexRange` to the other, and so starts and
   * ends on the two knots `domain` reports.
   */
  lemma IntervalsSpanDomain(knots: seq<int>, degree: nat)
    requires 2 * degree < |knots|
    ensures var r := Intervals(knots, degree);
      var range := KnotIndexRange(knots, degree);
      && |r| == |knots| - 2 * degree
      && r == knots[range.0..range.1 + 1]
      && Domain(knots, degree) == (Some(r[0]), Some(r[|r| - 1]))
  {
  }

  /** Zero, one, ..., m: the breakpoints of a knot vector whose usable part has unit spans. */
  function Breakpoints(m: nat): (r: seq<int>)
    ensures |r| == m + 1
  {
    seq(m + 1, i => i)
  }

  /** A vector that holds j - degree at every index j from degree to n + 1 has unit breakpoints from 0 to n - degree + 1. */
  lemma UnitUsablePart(knots: seq<int>, numberOfPoints: nat, degree: nat)
    requires degree < numberOfPoints && |knots| == KnotCount(numberOfPoints, degree)
    requires forall j :: degree <= j <= numberOfPoints ==> knots[j] == j - degree
    ensures Intervals(knots, degree) == Breakpoints(numberOfPoints - degree)
    ensures Domain(knots, degree) == (Some(0), Some(numberOfPoints - degree))
  {
    IntervalsSpanDomain(knots, degree);
  }

  /**
   * All four knot makers give the same usable part when degree <= n: the
   * domain runs from 0 to n - degree + 1 and the intervals are the integers
   * between, one per span.
   */
  lemma MakersShareDomain(numberOfPoints: nat, degree: nat)
    requires degree < numberOfPoints
    ensures var m := numberOfPoints - degree;
      && Intervals(ClampedKnots(numberOfPoints, degree), degree) == Breakpoints(m)
      && Intervals(ClosedKnots(numberOfPoints, degree), degree) == Breakpoints(m)
      && Intervals(LeftClampedRightOpenKnots(numberOfPoints, degree), degree) == Breakpoints(m)
      && Intervals(LeftOpenRightClampedKnots(numberOfPoints, degree), degree) == Breakpoints(m)
      && Domain(ClampedKnots(numberOfPoints, degree), degree) == (Some(0), Some(m))
      && Domain(ClosedKnots(numberOfPoints, degree), degree) == (Some(0), Some(m))
      && Domain(LeftClampedRightOpenKnots(numberOfPoints, degree), degree) == (Some(0), Some(m))
      && Domain(LeftOpenRightClampedKnots(numberOfPoints, degree), degree) == (Some(0), Some(m))
  {
    UnitUsablePart(ClampedKnots(numberOfPoints, degree), numberOfPoints, degree);
    UnitUsablePart(ClosedKnots(numberOfPoints, degree), numberOfPoints, degree);
    UnitUsablePart(LeftClampedRightOpenKnots(numberOfPoints, degree), numberOfPoints, degree);
    UnitUsablePart(LeftOpenRightClampedKnots(numberOfPoints, degree), numberOfPoints, degree);
  }

  /** The uniform vector's usable part runs from degree to n + 1 in unit steps. */
  lemma UniformDomain(numberOfPoints: nat, degree: nat)
    requires degree < numberOfPoints
    ensures var knots := UniformKnots(numberOfPoints, degree);
      && Domain(knots, degree) == (Some(degree), Some(numberOfPoints))
      && Intervals(knots, degree) == seq(numberOfPoints - degree + 1, i => degree + i)
  {
    IntervalsSpanDomain(UniformKnots(numberOfPoints, degree), degree);
  }
}
