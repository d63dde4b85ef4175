/**
 * The cubic Bézier curve shared by bezier.cc and scripts/helper/bezier.ts:
 * `bezier_fast`/`bezierFast`, the eight-chord length estimate, and the routes
 * of sample points that `evaluate` turns into arc-length tables.
 */
module CubicBezier {
  import opened Geometry
  import Polyline

  /** One coordinate of `bezierFast`: the Bernstein blend of four values. */
  function Blend(a: real, b: real, c: real, d: real, t: real): real {
    var t1 := 1.0 - t;
    t1 * t1 * t1 * a + 3.0 * t1 * t1 * t * b + 3.0 * t1 * t * t * c + t * t * t * d
  }

  /** `bezier_fast` and `bezierFast`: the curve starts at p0 and ends at p3. */
  function BezierPoint(p0: Vec3, p1: Vec3, p2: Vec3, p3: Vec3, t: real): (b: Vec3)
    ensures t == 0.0 ==> b == p0
    ensures t == 1.0 ==> b == p3
  {
    Vec3(Blend(p0.x, p1.x, p2.x, p3.x, t), Blend(p0.y, p1.y, p2.y, p3.y, t), Blend(p0.z, p1.z, p2.z, p3.z, t))
  }

  /** The four Bernstein weights sum to one: four equal control values give that value everywhere. */
  lemma BlendOfConstant(a: real, t: real)
    ensures Blend(a, a, a, a, t) == a
  {
    var t1 := 1.0 - t;
    calc {
      Blend(a, a, a, a, t);
      (t1 * t1 * t1 + 3.0 * t1 * t1 * t + 3.0 * t1 * t * t + t * t * t) * a;
      { assert t1 + t == 1.0; }
      (t1 + t) * (t1 + t) * (t1 + t) * a;
    }
  }

  /** Control values evenly spaced between a and d move linearly from a to d. */
  lemma BlendOfEvenlySpaced(a: real, d: real, t: real)
    ensures Blend(a, a + (d - a) / 3.0, a + 2.0 * (d - a) / 3.0, d, t) == a + (d - a) * t
  {
    var t1 := 1.0 - t;
    var k := d - a;
    calc {
      Blend(a, a + k / 3.0, a + 2.0 * k / 3.0, d, t);
      Blend(a, a, a, a, t) + (t1 * t1 * t * k + 2.0 * t1 * t * t * k + t * t * t * k);
      { BlendOfConstant(a, t); }
      a + t * k * (t1 * t1 + 2.0 * t1 * t + t * t);
      { assert t1 + t == 1.0; }
      a + t * k * ((t1 + t) * (t1 + t));
    }
  }

  /** A curve whose inner control points split the chord from p0 to p3 in thirds is that straight segment. */
  lemma EvenlySpacedIsStraight(p0: Vec3, p3: Vec3, t: real)
    ensures BezierPoint(p0, Mix(p0, p3, 1.0 / 3.0), Mix(p0, p3, 2.0 / 3.0), p3, t) == Mix(p0, p3, t)
  {
    BlendOfEvenlySpaced(p0.x, p3.x, t);
    BlendOfEvenlySpaced(p0.y, p3.y, t);
    BlendOfEvenlySpaced(p0.z, p3.z, t);
    assert p0.x + (p3.x - p0.x) * (1.0 / 3.0) == p0.x + (p3.x - p0.x) / 3.0;
    assert p0.y + (p3.y - p0.y) * (1.0 / 3.0) == p0.y + (p3.y - p0.y) / 3.0;
    assert p0.z + (p3.z - p0.z) * (1.0 / 3.0) == p0.z + (p3.z - p0.z) / 3.0;
    assert p0.x + (p3.x - p0.x) * (2.0 / 3.0) == p0.x + 2.0 * (p3.x - p0.x) / 3.0;
    assert p0.y + (p3.y - p0.y) * (2.0 / 3.0) == p0.y + 2.0 * (p3.y - p0.y) / 3.0;
    assert p0.z + (p3.z - p0.z) * (2.0 / 3.0) == p0.z + 2.0 * (p3.z - p0.z) / 3.0;
  }

  /** The parameter of the k-th chord's end in `estimate_length`: t = i / 14 with i = 2k. */
  function EstimateParameter(k: nat): (t: real)
    ensures 0.0 <= t
  {
    (2 * k) as real / 14.0
  }

  /**
   * The points `estimate_length` walks through: it starts at p0 and visits the
   * curve at t = i / 14 for i = 0, 2, ..., 14, ending at p3.
   */
  function EstimateRoute(p0: Vec3, p1: Vec3, p2: Vec3, p3: Vec3): (route: seq<Vec3>)
    ensures |route| == 9
    ensures route[0] == p0 && route[1] == p0 && route[8] == p3
    ensures forall k :: 0 <= k < 8 ==> route[k + 1] == BezierPoint(p0, p1, p2, p3, EstimateParameter(k))
  {
    [p0] + seq(8, k requires 0 <= k < 8 => BezierPoint(p0, p1, p2, p3, EstimateParameter(k)))
  }

  /** What `estimate_length`/`estimateLength` return: the length of the eight chords. */
  function EstimatedLength(p0: Vec3, p1: Vec3, p2: Vec3, p3: Vec3, chord: Chord): (length: real)
    ensures length >= 0.0
  {
    Polyline.PathLength(EstimateRoute(p0, p1, p2, p3), 8, chord)
  }

  /** For a true distance the estimate is never below the distance between the curve's end points. */
  lemma EstimateAtLeastEndToEnd(p0: Vec3, p1: Vec3, p2: Vec3, p3: Vec3, chord: Chord)
    requires Polyline.TriangleInequality(chord) && chord(p0, p0) == 0.0
    ensures chord(p3, p0) <= EstimatedLength(p0, p1, p2, p3, chord)
  {
    Polyline.PathLengthAtLeastStraight(EstimateRoute(p0, p1, p2, p3), 8, chord);
  }

  /**
   * The curve parameter of sample i among n: i / (n - 1), spreading the samples
   * evenly from 0 to 1; a lone sample sits at 0.
   */
  function Parameter(i: nat, n: nat): (t: real)
    requires i < n
    ensures 0.0 <= t <= 1.0
    ensures i == 0 ==> t == 0.0
    ensures n >= 2 && i == n - 1 ==> t == 1.0
  {
    if n == 1 then 0.0 else i as real / (n - 1) as real
  }

  /** With two samples or more the parameter is the plain ratio i / (n - 1). */
  lemma ParameterIsRatio(i: nat, n: nat)
    requires i < n && n >= 2
    ensures Parameter(i, n) == i as real / (n - 1) as real
  {
  }

  /** The points `evaluate` walks through with n samples: p0, then the samples in order. */
  function SampleRoute(p0: Vec3, p1: Vec3, p2: Vec3, p3: Vec3, n: nat): (route: seq<Vec3>)
    ensures |route| == n + 1
    ensures route[0] == p0
    ensures forall i :: 0 <= i < n ==> route[i + 1] == BezierPoint(p0, p1, p2, p3, Parameter(i, n))
  {
    [p0] + seq(n, i requires 0 <= i < n => BezierPoint(p0, p1, p2, p3, Parameter(i, n)))
  }

  /** The arc-length table of n samples of the curve. */
  function Sampled(p0: Vec3, p1: Vec3, p2: Vec3, p3: Vec3, n: nat, chord: Chord): (nodes: seq<Polyline.Node>)
    ensures |nodes| == n
  {
    Polyline.Table(SampleRoute(p0, p1, p2, p3, n), chord)
  }

  /**
   * With at least two samples the table runs from the curve's start to its end,
   * in order of distance, and its length is the walk through every sample.
   */
  lemma SampledSpansCurve(p0: Vec3, p1: Vec3, p2: Vec3, p3: Vec3, n: nat, chord: Chord)
    requires n >= 2
    ensures var nodes := Sampled(p0, p1, p2, p3, n, chord);
      && nodes[0].position == p0
      && nodes[n - 1].position == p3
      && nodes[0].distance == chord(p0, p0)
      && Polyline.LastDistance(nodes) == Polyline.PathLength(SampleRoute(p0, p1, p2, p3, n), n, chord)
  {
    var route := SampleRoute(p0, p1, p2, p3, n);
    Polyline.TableAccumulates(route, chord);
    Polyline.TableLength(route, chord);
  }
}
