/**
 * Curve node tables (src/maths/curve.ts): nodes carrying a matrix and the
 * distance walked along the curve up to it, built by appending and looked up
 * by distance. Matrices are an orientation placed at a position; how an
 * orientation is computed (lookAt, quaternion slerp) is not modelled and
 * enters as a parameter or as data.
 */
module Curve {
  import opened Geometry
  import opened Wrappers
  import BinarySearch
  import opened UniformSample
  import JsArray

  /** `CurveNode`: a matrix and the distance along the curve at it. */
  datatype CurveNode = CurveNode(matrix: Matrix, distanceAtCurve: real)

  /** The position a node sits at. */
  function PositionOf(n: CurveNode): Vec3 { n.matrix.position }

  /**
   * What a look-up by distance answers: a stored matrix (or a fresh identity),
   * or the blend `lerp(from, to, t)` of two stored matrices.
   */
  datatype Pose = Exact(matrix: Matrix) | Blend(from: Matrix, to: Matrix, t: real)

  /** Where a pose is: blending two matrices blends their positions. */
  function PoseAt(p: Pose): Vec3 {
    match p
    case Exact(m) => m.position
    case Blend(a, b, t) => Mix(a.position, b.position, t)
  }

  /** `length(curve)`: the last node's distance, 0 for an empty curve. */
  function Length(curve: seq<CurveNode>): (r: real)
    ensures |curve| == 0 ==> r == 0.0
    ensures |curve| > 0 ==> r == curve[|curve| - 1].distanceAtCurve
  {
    if |curve| == 0 then 0.0 else curve[|curve| - 1].distanceAtCurve
  }

  /** The distance walked from `points[0]` to `points[k]` through the points in between. */
  function Walked(points: seq<Vec3>, k: nat, chord: Chord): (d: real)
    requires k < |points|
    ensures d >= 0.0
  {
    if k == 0 then 0.0 else Walked(points, k - 1, chord) + chord(points[k - 1], points[k])
  }

  /** The positions of the nodes, in order. */
  function Positions(curve: seq<CurveNode>): (ps: seq<Vec3>)
    ensures |ps| == |curve|
    ensures forall i :: 0 <= i < |curve| ==> ps[i] == curve[i].matrix.position
  {
    seq(|curve|, i requires 0 <= i < |curve| => curve[i].matrix.position)
  }

  /**
   * The table invariant the insertions keep: the first node is at distance 0
   * and each further node adds the chord from its predecessor's position.
   */
  ghost predicate Accumulates(curve: seq<CurveNode>, chord: Chord) {
    && (|curve| > 0 ==> curve[0].distanceAtCurve == 0.0)
    && forall i :: 0 < i < |curve| ==>
         curve[i].distanceAtCurve == curve[i - 1].distanceAtCurve + chord(PositionOf(curve[i - 1]), PositionOf(curve[i]))
  }

  /** On an accumulating table node i records the walk through the positions up to it. */
  lemma {:induction false} AccumulatesIsWalk(curve: seq<CurveNode>, chord: Chord, i: nat)
    requires Accumulates(curve, chord) && i < |curve|
    ensures curve[i].distanceAtCurve == Walked(Positions(curve), i, chord)
  {
    if i > 0 {
      AccumulatesIsWalk(curve, chord, i - 1);
    }
  }

  /** The key the search compares: a node's distance. */
  function DistanceKey(n: CurveNode, i: int): real { n.distanceAtCurve }

  /** Distances along an accumulating table never decrease. */
  lemma {:induction false} AccumulatesMonotone(curve: seq<CurveNode>, chord: Chord, i: nat, j: nat)
    requires Accumulates(curve, chord) && i <= j < |curve|
    ensures curve[i].distanceAtCurve <= curve[j].distanceAtCurve
    decreases j
  {
    if i < j {
      AccumulatesMonotone(curve, chord, i, j - 1);
    }
  }

  /** So an accumulating table is one the search may run on. */
  lemma AccumulatesIsSorted(curve: seq<CurveNode>, chord: Chord)
    requires Accumulates(curve, chord)
    ensures BinarySearch.Sorted(BinarySearch.Keys(curve, DistanceKey))
  {
    var ks := BinarySearch.Keys(curve, DistanceKey);
    forall i, j | 0 <= i <= j < |ks| ensures ks[i] <= ks[j] {
      AccumulatesMonotone(curve, chord, i, j);
    }
  }

  /**
   * `matrixAtDistance`: a fresh identity without a bracket; otherwise the
   * blend of the bracketing nodes at the clamped fraction, or the left node's
   * matrix when their distances are within `Number.EPSILON`.
   */
  function MatrixAtDistance(curve: seq<CurveNode>, at: real): (r: Pose)
    ensures |curve| < 2 ==> r == Exact(Identity)
    ensures r.Blend? ==> 0.0 <= r.t <= 1.0
  {
    match BinarySearch.FindBoundingIndices(curve, at, DistanceKey)
    case None => Exact(Identity)
    case Some((l, r)) =>
      var left, right := curve[l], curve[r];
      var gap := right.distanceAtCurve - left.distanceAtCurve;
      if gap > DoubleEpsilon then Blend(left.matrix, right.matrix, Clamp((at - left.distanceAtCurve) / gap, 0.0, 1.0))
      else Exact(left.matrix)
  }

  /** At or before the first node's distance the look-up lands on the first node. */
  lemma MatrixAtDistanceBeforeStart(curve: seq<CurveNode>, at: real)
    requires |curve| >= 2 && BinarySearch.Sorted(BinarySearch.Keys(curve, DistanceKey))
    requires at <= curve[0].distanceAtCurve
    ensures PoseAt(MatrixAtDistance(curve, at)) == PositionOf(curve[0])
  {
    BinarySearch.BoundingIndicesBracket(curve, at, DistanceKey);
    var gap := curve[1].distanceAtCurve - curve[0].distanceAtCurve;
    if gap > DoubleEpsilon {
      RatioBounds(at - curve[0].distanceAtCurve, gap);
    }
  }

  /**
   * Past the last node's distance the look-up lands on the last node, unless
   * the last two nodes are within `Number.EPSILON` of each other, when it
   * answers the one before.
   */
  lemma MatrixAtDistancePastEnd(curve: seq<CurveNode>, at: real)
    requires |curve| >= 2 && BinarySearch.Sorted(BinarySearch.Keys(curve, DistanceKey))
    requires curve[|curve| - 1].distanceAtCurve < at
    ensures var n := |curve|;
      && (curve[n - 1].distanceAtCurve - curve[n - 2].distanceAtCurve > DoubleEpsilon ==>
            PoseAt(MatrixAtDistance(curve, at)) == PositionOf(curve[n - 1]))
      && (curve[n - 1].distanceAtCurve - curve[n - 2].distanceAtCurve <= DoubleEpsilon ==>
            MatrixAtDistance(curve, at) == Exact(curve[n - 2].matrix))
  {
    var n := |curve|;
    BinarySearch.BoundingIndicesBracket(curve, at, DistanceKey);
    var gap := curve[n - 1].distanceAtCurve - curve[n - 2].distanceAtCurve;
    if gap > DoubleEpsilon {
      RatioBounds(at - curve[n - 2].distanceAtCurve, gap);
    }
  }

  /**
   * Inside the table the look-up blends the two neighbours whose distances
   * bracket `at`, at the fraction that lands exactly on `at`.
   */
  lemma MatrixAtDistanceInside(curve: seq<CurveNode>, at: real)
    requires |curve| >= 2 && BinarySearch.Sorted(BinarySearch.Keys(curve, DistanceKey))
    requires curve[0].distanceAtCurve < at <= curve[|curve| - 1].distanceAtCurve
    ensures var (l, r) := BinarySearch.FindBoundingIndices(curve, at, DistanceKey).value;
      var gap := curve[r].distanceAtCurve - curve[l].distanceAtCurve;
      var pose := MatrixAtDistance(curve, at);
      && l + 1 == r
      && curve[l].distanceAtCurve < at <= curve[r].distanceAtCurve
      && (gap > DoubleEpsilon ==>
            pose.Blend? && pose.from == curve[l].matrix && pose.to == curve[r].matrix &&
            curve[l].distanceAtCurve + pose.t * gap == at)
      && (gap <= DoubleEpsilon ==> pose == Exact(curve[l].matrix))
  {
    BinarySearch.BoundingIndicesBracket(curve, at, DistanceKey);
    var (l, r) := BinarySearch.FindBoundingIndices(curve, at, DistanceKey).value;
    var gap := curve[r].distanceAtCurve - curve[l].distanceAtCurve;
    if gap > DoubleEpsilon {
      RatioBounds(at - curve[l].distanceAtCurve, gap);
    }
  }

  /** The distance `insertMatrix` gives a node appended after `curve`. */
  function NextDistance(curve: seq<CurveNode>, matrix: Matrix, chord: Chord): (d: real)
    ensures |curve| == 0 ==> d == 0.0
    ensures |curve| > 0 ==> d >= curve[|curve| - 1].distanceAtCurve
  {
    if |curve| == 0 then 0.0
    else curve[|curve| - 1].distanceAtCurve + chord(PositionOf(curve[|curve| - 1]), matrix.position)
  }

  /** The table after `insertMatrix(curve, matrix)`. */
  function Appended(curve: seq<CurveNode>, matrix: Matrix, chord: Chord): (r: seq<CurveNode>)
    ensures |r| == |curve| + 1
  {
    curve + [CurveNode(matrix, NextDistance(curve, matrix, chord))]
  }

  /**
   * Appending keeps the table accumulating, leaves the old nodes alone, and
   * grows the length by the chord from the old last position (0 on an empty table).
   */
  lemma AppendedAccumulates(curve: seq<CurveNode>, matrix: Matrix, chord: Chord)
    requires Accumulates(curve, chord)
    ensures var r := Appended(curve, matrix, chord);
      && Accumulates(r, chord)
      && r[..|curve|] == curve
      && r[|curve|].matrix == matrix
      && Length(r) == if |curve| == 0 then 0.0 else Length(curve) + chord(PositionOf(curve[|curve| - 1]), matrix.position)
  {
    var r := Appended(curve, matrix, chord);
    assert r[..|curve|] == curve;
  }

  /** `applyLookRelativeAt`: a new orientation for a matrix turned towards a point (not modelled). */
  type Aim = (Matrix, Vec3) -> Orientation

  /** Turn a matrix towards a point, keeping where it is. */
  function Look(m: Matrix, p: Vec3, aim: Aim): (r: Matrix)
    ensures r.position == m.position
  {
    Matrix(aim(m, p), m.position)
  }

  /** The table after `insertPosition(curve, position)`. */
  function PositionInserted(curve: seq<CurveNode>, position: Vec3, aim: Aim, chord: Chord): (r: seq<CurveNode>)
    ensures |r| == |curve| + 1
  {
    if |curve| == 0 then Appended(curve, SetPosition(Identity, position), chord)
    else
      var last := curve[|curve| - 1];
      var once := Look(last.matrix, position, aim);
      var turned := if |curve| == 1 then Look(once, position, aim) else once;
      Appended(curve[|curve| - 1 := last.(matrix := turned)], SetPosition(turned, position), chord)
  }

  /**
   * Inserting a position keeps the table accumulating, leaves every node but
   * the old last one untouched, only turns that one (its position and distance
   * stay), and appends a node at the position with the previous node's orientation.
   */
  lemma PositionInsertedKeeps(curve: seq<CurveNode>, position: Vec3, aim: Aim, chord: Chord)
    requires Accumulates(curve, chord)
    ensures var r := PositionInserted(curve, position, aim, chord);
      && Accumulates(r, chord)
      && (forall i :: 0 <= i < |curve| - 1 ==> r[i] == curve[i])
      && (forall i :: 0 <= i < |curve| ==>
            PositionOf(r[i]) == PositionOf(curve[i]) && r[i].distanceAtCurve == curve[i].distanceAtCurve)
      && PositionOf(r[|curve|]) == position
      && (|curve| > 0 ==> r[|curve|].matrix.orientation == r[|curve| - 1].matrix.orientation)
      && (|curve| == 0 ==> r[0] == CurveNode(SetPosition(Identity, position), 0.0))
  {
    if |curve| > 0 {
      var last := curve[|curve| - 1];
      var once := Look(last.matrix, position, aim);
      var turned := if |curve| == 1 then Look(once, position, aim) else once;
      var kept := curve[|curve| - 1 := last.(matrix := turned)];
      assert Accumulates(kept, chord);
      AppendedAccumulates(kept, SetPosition(turned, position), chord);
    }
  }

  /** A curve node table that grows at its end (the `CurveNode[]` the helpers push onto). */
  class Curve {
    /** The distance between two positions. */
    const chord: Chord
    var nodes: seq<CurveNode>

    /** `const curve: CurveNode[] = []`. */
    constructor (chord: Chord)
      ensures this.chord == chord && nodes == []
    {
      this.chord := chord;
      nodes := [];
    }

    /** `insertMatrix`: append the matrix with the distance walked so far. */
    method InsertMatrix(matrix: Matrix)
      modifies this
      ensures nodes == Appended(old(nodes), matrix, chord)
    {
      var distanceAtCurve := 0.0;
      if |nodes| > 0 {
        var lastNode := nodes[|nodes| - 1];
        distanceAtCurve := lastNode.distanceAtCurve + chord(lastNode.matrix.position, matrix.position);
      }
      nodes := nodes + [CurveNode(matrix, distanceAtCurve)];
    }

    /**
     * `insertPosition`: turn the last node towards the position (twice when it
     * is the only node), then append its matrix moved to the position; on an
     * empty curve append an identity moved there.
     */
    method InsertPosition(position: Vec3, aim: Aim)
      modifies this
      ensures nodes == PositionInserted(old(nodes), position, aim, chord)
    {
      if |nodes| > 0 {
        var lastNode := nodes[|nodes| - 1];
        var matrix := lastNode.matrix;
        if |nodes| == 1 {
          matrix := Look(matrix, position, aim);
        }
        matrix := Look(matrix, position, aim);
        nodes := nodes[|nodes| - 1 := lastNode.(matrix := matrix)];
        InsertMatrix(SetPosition(matrix, position));
        return;
      }
      InsertMatrix(SetPosition(Identity, position));
    }
  }

  /**
   * `fromUniformSample`: n = max(floor((to - from) * resolution), 2) positions
   * `positionFn(at, t)` inserted in order, t running from 0 to 1.
   */
  method FromUniformSample(from: real, to: real, resolution: real, positionFn: (real, real) -> Vec3, aim: Aim, chord: Chord)
    returns (curve: Curve)
    ensures fresh(curve) && curve.chord == chord
    ensures |curve.nodes| == CountAt(to - from, resolution)
    ensures Accumulates(curve.nodes, chord)
    ensures forall i :: 0 <= i < |curve.nodes| ==>
      var t := Parameter(i, |curve.nodes|);
      PositionOf(curve.nodes[i]) == positionFn(At(from, to - from, t), t)
  {
    curve := new Curve(chord);
    var length := to - from;
    var numberOfNodes := CountAt(length, resolution);
    for i := 0 to numberOfNodes
      invariant curve.chord == chord && |curve.nodes| == i
      invariant Accumulates(curve.nodes, chord)
      invariant forall k :: 0 <= k < i ==>
        PositionOf(curve.nodes[k]) == positionFn(At(from, length, Parameter(k, numberOfNodes)), Parameter(k, numberOfNodes))
    {
      var t := Parameter(i, numberOfNodes);
      var at := At(from, length, t);
      PositionInsertedKeeps(curve.nodes, positionFn(at, t), aim, chord);
      curve.InsertPosition(positionFn(at, t), aim);
    }
  }

  /** `lookAt(eye, target)`: the orientation of a matrix looking from one point at another (not modelled). */
  type LookAt = (Vec3, Vec3) -> Orientation

  /**
   * What `fromPointsBasic` builds: nothing below two points; otherwise node i
   * at point i, looking from point i + 1 back at it (the last node keeps the
   * orientation of the one before), at the distance walked to point i.
   */
  function BasicNodes(points: seq<Vec3>, lookAt: LookAt, chord: Chord): (curve: seq<CurveNode>)
    ensures |points| < 2 ==> curve == []
    ensures |points| >= 2 ==> |curve| == |points|
  {
    if |points| < 2 then []
    else
      var n := |points|;
      seq(n, i requires 0 <= i < n =>
        var j := if i < n - 1 then i else n - 2;
        CurveNode(Matrix(lookAt(points[j + 1], points[j]), points[i]), Walked(points, i, chord)))
  }

  /** Node i of the basic table. */
  lemma BasicNodeAt(points: seq<Vec3>, lookAt: LookAt, chord: Chord, i: nat)
    requires 2 <= |points| && i < |points|
    ensures var j := if i < |points| - 1 then i else |points| - 2;
      BasicNodes(points, lookAt, chord)[i] ==
        CurveNode(Matrix(lookAt(points[j + 1], points[j]), points[i]), Walked(points, i, chord))
    ensures PositionOf(BasicNodes(points, lookAt, chord)[i]) == points[i]
    ensures BasicNodes(points, lookAt, chord)[i].distanceAtCurve == Walked(points, i, chord)
  {
  }

  /** `fromPointsBasic`: one node per segment's start, then the last point with the last orientation. */
  method FromPointsBasic(points: seq<Vec3>, lookAt: LookAt, chord: Chord) returns (curve: seq<CurveNode>)
    ensures curve == BasicNodes(points, lookAt, chord)
  {
    curve := [];
    if |points| < 2 {
      return;
    }
    ghost var target := BasicNodes(points, lookAt, chord);
    var distanceAtCurve := 0.0;
    for i := 0 to |points| - 1
      invariant curve == target[..i]
      invariant distanceAtCurve == Walked(points, i, chord)
    {
      var left, right := points[i], points[i + 1];
      BasicNodeAt(points, lookAt, chord, i);
      JsArray.PushNext(target, i);
      curve := curve + [CurveNode(Matrix(lookAt(right, left), left), distanceAtCurve)];
      distanceAtCurve := distanceAtCurve + chord(left, right);
    }
    var n := |points|;
    var lastNode := curve[|curve| - 1];
    var lastPoint := points[|points| - 1];
    BasicNodeAt(points, lookAt, chord, n - 2);
    BasicNodeAt(points, lookAt, chord, n - 1);
    JsArray.PushNext(target, n - 1);
    curve := curve + [CurveNode(SetPosition(lastNode.matrix, lastPoint), distanceAtCurve)];
    assert target[..n] == target;
  }

  /** The basic table sits on the points. */
  lemma BasicNodesOnPoints(points: seq<Vec3>, lookAt: LookAt, chord: Chord)
    requires |points| >= 2
    ensures Positions(BasicNodes(points, lookAt, chord)) == points
  {
    var curve := BasicNodes(points, lookAt, chord);
    forall i | 0 <= i < |points| ensures Positions(curve)[i] == points[i] {
      BasicNodeAt(points, lookAt, chord, i);
    }
  }

  /**
   * The basic table accumulates the chords between its points, so its length
   * is the walk through all the points.
   */
  lemma BasicNodesAccumulate(points: seq<Vec3>, lookAt: LookAt, chord: Chord)
    requires |points| >= 2
    ensures Accumulates(BasicNodes(points, lookAt, chord), chord)
    ensures Length(BasicNodes(points, lookAt, chord)) == Walked(points, |points| - 1, chord)
  {
    var curve := BasicNodes(points, lookAt, chord);
    BasicNodeAt(points, lookAt, chord, |points| - 1);
    assert Length(curve) == Walked(points, |points| - 1, chord);
    BasicNodeAt(points, lookAt, chord, 0);
    forall i | 0 < i < |curve|
      ensures curve[i].distanceAtCurve == curve[i - 1].distanceAtCurve + chord(PositionOf(curve[i - 1]), PositionOf(curve[i]))
    {
      BasicNodeAt(points, lookAt, chord, i);
      BasicNodeAt(points, lookAt, chord, i - 1);
    }
  }
}
