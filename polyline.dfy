/**
 * Arc-length tables: a route of points is walked from its start and every
 * point after the first becomes a node that records the distance travelled so
 * far (the `nodes` of bezier.cc and the `CurveNode[]` of the scripts' Bézier
 * helper).
 */
module Polyline {
  import opened Geometry
  import BinarySearch

  /** `node` of bezier.h and `CurveNode` of scripts/helper/bezier.ts. */
  datatype Node = Node(position: Vec3, distance: real)

  /** The distance travelled along `route[0..k]`, one chord per step. */
  function PathLength(route: seq<Vec3>, k: nat, chord: Chord): (d: real)
    requires k < |route|
    ensures d >= 0.0
  {
    if k == 0 then 0.0 else PathLength(route, k - 1, chord) + chord(route[k], route[k - 1])
  }

  /** Walking further never makes the distance shorter. */
  lemma {:induction false} PathLengthMonotone(route: seq<Vec3>, j: nat, k: nat, chord: Chord)
    requires j <= k < |route|
    ensures PathLength(route, j, chord) <= PathLength(route, k, chord)
    decreases k
  {
    if j < k {
      PathLengthMonotone(route, j, k - 1, chord);
    }
  }

  /** The chord is a distance: going through a third point is never shorter. */
  ghost predicate TriangleInequality(chord: Chord) {
    forall a, b, c :: chord(c, a) <= chord(c, b) + chord(b, a)
  }

  /** For a true distance, the walk is at least as long as the straight line from start to end. */
  lemma {:induction false} PathLengthAtLeastStraight(route: seq<Vec3>, k: nat, chord: Chord)
    requires k < |route|
    requires TriangleInequality(chord) && chord(route[0], route[0]) == 0.0
    ensures chord(route[k], route[0]) <= PathLength(route, k, chord)
  {
    if k > 0 {
      PathLengthAtLeastStraight(route, k - 1, chord);
      assert chord(route[k], route[0]) <= chord(route[k], route[k - 1]) + chord(route[k - 1], route[0]);
    }
  }

  /**
   * The nodes laid along a route: node `i` sits on `route[i + 1]` and records
   * the distance walked from `route[0]` to it.
   */
  function Table(route: seq<Vec3>, chord: Chord): (nodes: seq<Node>)
    requires |route| >= 1
    ensures |nodes| == |route| - 1
    ensures forall i :: 0 <= i < |nodes| ==> nodes[i].position == route[i + 1]
  {
    seq(|route| - 1, i requires 0 <= i < |route| - 1 => Node(route[i + 1], PathLength(route, i + 1, chord)))
  }

  /**
   * Building the table one node at a time: the next node sits on the next
   * point of the route with one more chord added to the distance so far.
   */
  lemma TableGrows(route: seq<Vec3>, chord: Chord, i: nat)
    requires i + 1 < |route|
    ensures PathLength(route, i + 1, chord) == PathLength(route, i, chord) + chord(route[i + 1], route[i])
    ensures Table(route, chord)[..i + 1] ==
      Table(route, chord)[..i] + [Node(route[i + 1], PathLength(route, i + 1, chord))]
  {
    var table := Table(route, chord);
    assert table[..i + 1] == table[..i] + [table[i]];
  }

  /** The key the searches compare: a node's distance. */
  function DistanceKey(n: Node, i: int): real { n.distance }

  /** The distances of a table, in order. */
  function Distances(nodes: seq<Node>): (ds: seq<real>)
    ensures |ds| == |nodes|
    ensures forall i :: 0 <= i < |nodes| ==> ds[i] == nodes[i].distance
  {
    BinarySearch.Keys(nodes, DistanceKey)
  }

  /**
   * How the distances accumulate: the first node records the first chord and
   * each further node adds the chord from the point before it.
   */
  lemma TableAccumulates(route: seq<Vec3>, chord: Chord)
    requires |route| >= 2
    ensures var nodes := Table(route, chord);
      && nodes[0].distance == chord(route[1], route[0])
      && forall i :: 0 < i < |nodes| ==>
           nodes[i].distance == nodes[i - 1].distance + chord(route[i + 1], route[i])
  {
    var nodes := Table(route, chord);
    assert PathLength(route, 0, chord) == 0.0;
    forall i | 0 < i < |nodes|
      ensures nodes[i].distance == nodes[i - 1].distance + chord(route[i + 1], route[i])
    {
      assert nodes[i].distance == PathLength(route, i + 1, chord);
      assert nodes[i - 1].distance == PathLength(route, i, chord);
    }
  }

  /** A table's distances never decrease, so the searches may run on it. */
  lemma TableSorted(route: seq<Vec3>, chord: Chord)
    requires |route| >= 1
    ensures BinarySearch.Sorted(Distances(Table(route, chord)))
  {
    var ds := Distances(Table(route, chord));
    forall i, j | 0 <= i <= j < |ds| ensures ds[i] <= ds[j] {
      PathLengthMonotone(route, i + 1, j + 1, chord);
    }
  }

  /**
   * Where between two neighbouring nodes the distance d falls, as a fraction
   * of the gap between them, clamped to [0, 1]; 0 when the gap is within the
   * threshold.
   */
  function Fraction(current: Node, next: Node, d: real, threshold: real): (t: real)
    requires threshold >= 0.0
    ensures 0.0 <= t <= 1.0
    ensures next.distance - current.distance <= threshold ==> t == 0.0
    ensures next.distance - current.distance > threshold && current.distance <= d <= next.distance ==>
      current.distance + t * (next.distance - current.distance) == d
  {
    var gap := next.distance - current.distance;
    if gap > threshold then Clamp((d - current.distance) / gap, 0.0, 1.0) else 0.0
  }

  /** `length(nodes)` and `bezier::length`: the last node's distance, 0 without nodes. */
  function LastDistance(nodes: seq<Node>): (d: real)
    ensures |nodes| > 0 ==> d == nodes[|nodes| - 1].distance
    ensures |nodes| == 0 ==> d == 0.0
  {
    if |nodes| == 0 then 0.0 else nodes[|nodes| - 1].distance
  }

  /** The length of a table is the distance walked along the whole route, and no node lies beyond it. */
  lemma TableLength(route: seq<Vec3>, chord: Chord)
    requires |route| >= 1
    ensures LastDistance(Table(route, chord)) == PathLength(route, |route| - 1, chord)
    ensures forall n :: n in Table(route, chord) ==> 0.0 <= n.distance <= LastDistance(Table(route, chord))
  {
    var nodes := Table(route, chord);
    forall n | n in nodes ensures 0.0 <= n.distance <= LastDistance(nodes) {
      var i :| 0 <= i < |nodes| && nodes[i] == n;
      PathLengthMonotone(route, i + 1, |route| - 1, chord);
    }
  }
}
