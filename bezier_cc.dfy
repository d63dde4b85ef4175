/**
 * The arc-length parametrised Bézier curve of the native calculation library
 * (src/libs/calculation/src/bezier.cc): four control points, a table of
 * nodes built once by `evaluate`, and position look-ups by distance.
 */
module BezierCc {
  import opened Wrappers
  import opened Geometry
  import BinarySearch
  import Polyline
  import CubicBezier

  /** `(int)(estimate_length() * 20.0f)`: the cast truncates the non-negative product. */
  function NodeCount(estimate: real): (n: nat)
    requires estimate >= 0.0
    ensures n as real <= estimate * 20.0 < n as real + 1.0
  {
    (estimate * 20.0).Floor
  }

  /**
   * The parameter of node i as written: i / (n - 1), which for a lone node is
   * the float division 0 / 0 and yields NaN (`None` here).
   */
  function ParameterAsWritten(i: nat, n: nat): (t: Option<real>)
    requires i < n
    ensures t.None? <==> n == 1
    ensures n >= 2 ==> t == Some(CubicBezier.Parameter(i, n))
  {
    if n == 1 then None else Some(i as real / (n - 1) as real)
  }

  /** The distance between two points of the x axis. */
  const AxisDistance: Chord := (a: Vec3, b: Vec3) => if a.x >= b.x then a.x - b.x else b.x - a.x

  /** A short straight curve along the x axis, 0.06 long, with evenly spaced control points. */
  const ShortP0: Vec3 := Origin
  const ShortP1: Vec3 := Vec3(0.02, 0.0, 0.0)
  const ShortP2: Vec3 := Vec3(0.04, 0.0, 0.0)
  const ShortP3: Vec3 := Vec3(0.06, 0.0, 0.0)

  /** The estimate visits that curve at evenly spaced points of the x axis. */
  lemma ShortCurvePoint(k: nat)
    requires k < 8
    ensures CubicBezier.EstimateRoute(ShortP0, ShortP1, ShortP2, ShortP3)[k + 1] ==
      Vec3(0.06 * CubicBezier.EstimateParameter(k), 0.0, 0.0)
  {
    assert ShortP1 == Mix(ShortP0, ShortP3, 1.0 / 3.0) && ShortP2 == Mix(ShortP0, ShortP3, 2.0 / 3.0);
    CubicBezier.EvenlySpacedIsStraight(ShortP0, ShortP3, CubicBezier.EstimateParameter(k));
  }

  /** The estimate of that curve is its length. */
  lemma ShortEstimate()
    ensures CubicBezier.EstimatedLength(ShortP0, ShortP1, ShortP2, ShortP3, AxisDistance) == 0.06
  {
    var route := CubicBezier.EstimateRoute(ShortP0, ShortP1, ShortP2, ShortP3);
    forall k | 0 <= k < 8
      ensures route[k + 1] == Vec3(0.06 * CubicBezier.EstimateParameter(k), 0.0, 0.0)
    {
      ShortCurvePoint(k);
    }
    var step := 0.12 / 14.0;
    assert Polyline.PathLength(route, 1, AxisDistance) == 0.0;
    assert Polyline.PathLength(route, 2, AxisDistance) == step;
    assert Polyline.PathLength(route, 3, AxisDistance) == 2.0 * step;
    assert Polyline.PathLength(route, 4, AxisDistance) == 3.0 * step;
    assert Polyline.PathLength(route, 5, AxisDistance) == 4.0 * step;
    assert Polyline.PathLength(route, 6, AxisDistance) == 5.0 * step;
    assert Polyline.PathLength(route, 7, AxisDistance) == 6.0 * step;
    assert Polyline.PathLength(route, 8, AxisDistance) == 7.0 * step;
  }

  /**
   * For that curve `evaluate` makes exactly one node, and the parameter of
   * that node is 0 / 0.
   */
  lemma LoneNodeHasNoParameter()
    ensures NodeCount(CubicBezier.EstimatedLength(ShortP0, ShortP1, ShortP2, ShortP3, AxisDistance)) == 1
    ensures ParameterAsWritten(0, 1).None?
  {
    ShortEstimate();
  }

  /** The nodes `evaluate` builds, with a lone node placed at the curve's start. */
  function Evaluated(cp1: Vec3, cp2: Vec3, cp3: Vec3, cp4: Vec3, chord: Chord): (nodes: seq<Polyline.Node>)
    ensures |nodes| == NodeCount(CubicBezier.EstimatedLength(cp1, cp2, cp3, cp4, chord))
  {
    CubicBezier.Sampled(cp1, cp2, cp3, cp4, NodeCount(CubicBezier.EstimatedLength(cp1, cp2, cp3, cp4, chord)), chord)
  }

  /** `position_at_distance` as written: `None` where it dereferences `nodes.end()`. */
  function PositionAtDistanceAsWritten(nodes: seq<Polyline.Node>, d: real): (p: Option<Vec3>)
    ensures |nodes| < 2 ==> p == Some(Origin)
    ensures p.None? <==> |nodes| >= 2 && BinarySearch.LowerBoundOf(nodes, d, Polyline.DistanceKey) == |nodes|
  {
    if |nodes| < 2 then Some(Origin)
    else
      var next := BinarySearch.LowerBoundOf(nodes, d, Polyline.DistanceKey);
      if next == 0 then Some(nodes[0].position)
      else if next == |nodes| then None
      else Some(Mix(nodes[next - 1].position, nodes[next].position, Polyline.Fraction(nodes[next - 1], nodes[next], d, DoubleEpsilon)))
  }

  /**
   * The look-up the code evidently intends: a distance past the last node
   * gives the last node's position.
   */
  function PositionAtDistance(nodes: seq<Polyline.Node>, d: real): (p: Vec3)
  {
    if |nodes| < 2 then Origin
    else
      var next := BinarySearch.LowerBoundOf(nodes, d, Polyline.DistanceKey);
      if next == 0 then nodes[0].position
      else if next == |nodes| then nodes[|nodes| - 1].position
      else Mix(nodes[next - 1].position, nodes[next].position, Polyline.Fraction(nodes[next - 1], nodes[next], d, DoubleEpsilon))
  }

  /** Two nodes, 1 apart: a look-up at distance 2 runs past the end. */
  lemma PastTheEndIsUndefined()
    ensures PositionAtDistanceAsWritten([Polyline.Node(Origin, 0.0), Polyline.Node(Vec3(1.0, 0.0, 0.0), 1.0)], 2.0).None?
  {
    var nodes := [Polyline.Node(Origin, 0.0), Polyline.Node(Vec3(1.0, 0.0, 0.0), 1.0)];
    BinarySearch.LowerBoundAtBoundary(nodes, 2.0, Polyline.DistanceKey);
    assert BinarySearch.Keys(nodes, Polyline.DistanceKey) == [0.0, 1.0];
  }

  /** Up to the last node's distance the code as written and the corrected look-up agree. */
  lemma AsWrittenAgreesWithinLength(nodes: seq<Polyline.Node>, d: real)
    requires |nodes| >= 2 && d <= nodes[|nodes| - 1].distance
    ensures PositionAtDistanceAsWritten(nodes, d) == Some(PositionAtDistance(nodes, d))
  {
    BinarySearch.LowerBoundAtBoundary(nodes, d, Polyline.DistanceKey);
  }

  /**
   * On a table in distance order the look-up clamps to the ends and, inside,
   * blends the two nodes whose distances bracket d.
   */
  lemma PositionAtDistanceBrackets(nodes: seq<Polyline.Node>, d: real)
    requires |nodes| >= 2 && BinarySearch.Sorted(Polyline.Distances(nodes))
    ensures d <= nodes[0].distance ==> PositionAtDistance(nodes, d) == nodes[0].position
    ensures nodes[|nodes| - 1].distance < d ==> PositionAtDistance(nodes, d) == nodes[|nodes| - 1].position
    ensures nodes[0].distance < d <= nodes[|nodes| - 1].distance ==>
      var k := BinarySearch.LowerBoundOf(nodes, d, Polyline.DistanceKey);
      && 0 < k < |nodes|
      && nodes[k - 1].distance < d <= nodes[k].distance
      && PositionAtDistance(nodes, d) == Mix(nodes[k - 1].position, nodes[k].position, Polyline.Fraction(nodes[k - 1], nodes[k], d, DoubleEpsilon))
  {
    BinarySearch.LowerBoundPartitions(nodes, d, Polyline.DistanceKey);
  }

  /** At a node's own distance, when it lies clearly beyond its predecessor, the look-up returns that node. */
  lemma PositionAtNodeDistance(nodes: seq<Polyline.Node>, k: nat)
    requires 0 < k < |nodes| && BinarySearch.Sorted(Polyline.Distances(nodes))
    requires nodes[k].distance - nodes[k - 1].distance > DoubleEpsilon
    ensures PositionAtDistance(nodes, nodes[k].distance) == nodes[k].position
  {
    var d := nodes[k].distance;
    BinarySearch.LowerBoundPartitions(nodes, d, Polyline.DistanceKey);
    var r := BinarySearch.LowerBoundOf(nodes, d, Polyline.DistanceKey);
    var ds := Polyline.Distances(nodes);
    assert ds[k - 1] < d;
    assert r == k;
    var gap := nodes[k].distance - nodes[k - 1].distance;
    DividedByItself(gap);
  }

  /**
   * On an evaluated table with at least two nodes the look-up starts at the
   * first control point and ends at the last one.
   */
  lemma EvaluatedEnds(cp1: Vec3, cp2: Vec3, cp3: Vec3, cp4: Vec3, chord: Chord, d: real)
    ensures var nodes := Evaluated(cp1, cp2, cp3, cp4, chord);
      && (|nodes| >= 2 && d <= 0.0 ==> PositionAtDistance(nodes, d) == cp1)
      && (|nodes| >= 2 && d > Polyline.LastDistance(nodes) ==> PositionAtDistance(nodes, d) == cp4)
  {
    var nodes := Evaluated(cp1, cp2, cp3, cp4, chord);
    var n := |nodes|;
    if n >= 2 {
      CubicBezier.SampledSpansCurve(cp1, cp2, cp3, cp4, n, chord);
      Polyline.TableSorted(CubicBezier.SampleRoute(cp1, cp2, cp3, cp4, n), chord);
      PositionAtDistanceBrackets(nodes, d);
    }
  }

  lemma DividedByItself(x: real)
    requires x > 0.0
    ensures x / x == 1.0
  {
  }

  /** `class bezier`: the control points, the chord measure, and the node table. */
  class Bezier {
    const cp1: Vec3
    const cp2: Vec3
    const cp3: Vec3
    const cp4: Vec3
    const chord: Chord
    var nodes: seq<Polyline.Node>

    /** The table is the one `evaluate` builds for the control points. */
    ghost predicate Valid()
      reads this
    {
      nodes == Evaluated(cp1, cp2, cp3, cp4, chord)
    }

    /** The constructor stores the control points and evaluates the table. */
    constructor(cp1: Vec3, cp2: Vec3, cp3: Vec3, cp4: Vec3, chord: Chord)
      ensures this.cp1 == cp1 && this.cp2 == cp2 && this.cp3 == cp3 && this.cp4 == cp4 && this.chord == chord
      ensures Valid()
    {
      this.cp1, this.cp2, this.cp3, this.cp4 := cp1, cp2, cp3, cp4;
      this.chord := chord;
      new;
      Evaluate();
    }

    /** `estimate_length`: eight chords through t = 0, 2/14, ..., 14/14. */
    method EstimateLength() returns (length: real)
      ensures length == CubicBezier.EstimatedLength(cp1, cp2, cp3, cp4, chord)
    {
      ghost var route := CubicBezier.EstimateRoute(cp1, cp2, cp3, cp4);
      var lastPos := cp1;
      length := 0.0;
      var i := 0;
      ghost var k := 0;
      while i < 15
        invariant 0 <= k <= 8 && i == 2 * k
        invariant lastPos == route[k]
        invariant length == Polyline.PathLength(route, k, chord)
      {
        var t := i as real / 14.0;
        assert t == CubicBezier.EstimateParameter(k);
        var pos := CubicBezier.BezierPoint(cp1, cp2, cp3, cp4, t);
        length := length + chord(pos, lastPos);
        lastPos := pos;
        i, k := i + 2, k + 1;
      }
    }

    /** `evaluate`: rebuilds the table, one node per sample, each with the distance walked so far. */
    method Evaluate()
      modifies this
      ensures nodes == Evaluated(cp1, cp2, cp3, cp4, chord)
    {
      nodes := [];
      var estimate := EstimateLength();
      var n := NodeCount(estimate);
      if n == 0 {
        return;
      }
      ghost var route := CubicBezier.SampleRoute(cp1, cp2, cp3, cp4, n);
      var distance := 0.0;
      var lastPos := cp1;
      var i := 0;
      ghost var table := Polyline.Table(route, chord);
      while i < n
        invariant 0 <= i <= n
        invariant lastPos == route[i]
        invariant distance == Polyline.PathLength(route, i, chord)
        invariant nodes == table[..i]
      {
        var t := CubicBezier.Parameter(i, n);
        var position := CubicBezier.BezierPoint(cp1, cp2, cp3, cp4, t);
        assert position == route[i + 1];
        Polyline.TableGrows(route, chord, i);
        distance := distance + chord(position, lastPos);
        nodes := nodes + [Polyline.Node(position, distance)];
        lastPos := position;
        i := i + 1;
      }
      assert table[..n] == table;
    }

    /** `length`: the distance recorded at the last node, which is the walk through every sample. */
    function Length(): (r: real)
      reads this
      requires Valid()
      ensures var n := NodeCount(CubicBezier.EstimatedLength(cp1, cp2, cp3, cp4, chord));
        r == Polyline.PathLength(CubicBezier.SampleRoute(cp1, cp2, cp3, cp4, n), n, chord)
    {
      var n := NodeCount(CubicBezier.EstimatedLength(cp1, cp2, cp3, cp4, chord));
      Polyline.TableLength(CubicBezier.SampleRoute(cp1, cp2, cp3, cp4, n), chord);
      Polyline.LastDistance(nodes)
    }

    /** `position_at_distance`, with a distance past the end giving the curve's end. */
    function PositionAt(distance: real): (p: Vec3)
      reads this
      requires Valid()
      ensures |nodes| < 2 ==> p == Origin
      ensures |nodes| >= 2 && distance <= 0.0 ==> p == cp1
      ensures |nodes| >= 2 && distance > Polyline.LastDistance(nodes) ==> p == cp4
    {
      EvaluatedEnds(cp1, cp2, cp3, cp4, chord, distance);
      PositionAtDistance(nodes, distance)
    }
  }
}
