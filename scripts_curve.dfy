/**
 * The build scripts' curve helpers (scripts/src/maths/curve.ts). Building a
 * curve (`insertMatrix`, `insertPosition`, `createFromUniformSample`) and its
 * length (`getLength`) behave as in the application's curve module and are
 * modelled there; what differs is the look-up, which brackets a distance with
 * the scripts' own search and first/last tests instead of clamping.
 */
module ScriptsCurve {
  import opened Geometry
  import opened Wrappers
  import BinarySearch
  import ScriptsLowerBound
  import Curve

  /**
   * `findCurveNodeIndices`: nothing below two nodes; `[0, 1]` when the search
   * stops at the first node, the last pair when it runs off the end, and the
   * two nodes around the search result otherwise.
   */
  function FindCurveNodeIndices(curve: seq<Curve.CurveNode>, findValue: real, findFn: Curve.CurveNode -> real): (r: Option<(nat, nat)>)
    ensures r.None? <==> |curve| < 2
    ensures r.Some? ==> r.value.0 + 1 == r.value.1 < |curve|
  {
    if |curve| < 2 then None
    else
      var lowerNodeIndex := BinarySearch.LowerBoundOf(curve, findValue, ScriptsLowerBound.IndexFree(findFn));
      var nextNodeIndex, currentNodeIndex := lowerNodeIndex, lowerNodeIndex - 1;
      if nextNodeIndex == 0 then Some((0, 1))
      else if currentNodeIndex == |curve| - 1 then Some((|curve| - 2, |curve| - 1))
      else Some((currentNodeIndex, nextNodeIndex))
  }

  /**
   * The first/last tests pick the same pair as clamping the search result to
   * [1, length - 1] does in `findBoundingIndices`.
   */
  lemma SameAsBoundingIndices(curve: seq<Curve.CurveNode>, findValue: real, findFn: Curve.CurveNode -> real)
    ensures FindCurveNodeIndices(curve, findValue, findFn) ==
      BinarySearch.FindBoundingIndices(curve, findValue, ScriptsLowerBound.IndexFree(findFn))
  {
  }

  /** The accessor `(node) => node.distanceAtCurve`. */
  function DistanceAtCurve(n: Curve.CurveNode): real { n.distanceAtCurve }

  /**
   * `getMatrixAtDistance`: a fresh identity without a pair; otherwise the
   * blend of the pair at the clamped fraction, or the first of the pair when
   * their distances are within `Number.EPSILON`.
   */
  function GetMatrixAtDistance(curve: seq<Curve.CurveNode>, at: real): (r: Curve.Pose)
    ensures |curve| < 2 ==> r == Curve.Exact(Identity)
    ensures r.Blend? ==> 0.0 <= r.t <= 1.0
  {
    match FindCurveNodeIndices(curve, at, DistanceAtCurve)
    case None => Curve.Exact(Identity)
    case Some((i, j)) =>
      var from, to := curve[i], curve[j];
      var deltaDistanceAtCurve := to.distanceAtCurve - from.distanceAtCurve;
      if deltaDistanceAtCurve > DoubleEpsilon then
        Curve.Blend(from.matrix, to.matrix, Clamp((at - from.distanceAtCurve) / deltaDistanceAtCurve, 0.0, 1.0))
      else Curve.Exact(from.matrix)
  }

  /** The scripts' look-up answers what the application's `matrixAtDistance` answers. */
  lemma SameAsMatrixAtDistance(curve: seq<Curve.CurveNode>, at: real)
    ensures GetMatrixAtDistance(curve, at) == Curve.MatrixAtDistance(curve, at)
  {
    SameAsBoundingIndices(curve, at, DistanceAtCurve);
    assert BinarySearch.Keys(curve, ScriptsLowerBound.IndexFree(DistanceAtCurve)) ==
      BinarySearch.Keys(curve, Curve.DistanceKey);
  }
}
