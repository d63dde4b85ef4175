/**
 * The Bézier helper of the build scripts (scripts/helper/bezier.ts): length
 * estimate, arc-length tables at a chosen resolution, look-ups by distance
 * through the scripts' upper-bound search, and re-sampling at even distances.
 */
module BezierTs {
  import opened Geometry
  import Polyline
  import CubicBezier
  import LowerBoundJs
  import BinarySearch
  import JsArray
  import opened UniformSample
  import opened Wrappers

  /** The threshold below which two neighbouring distances count as equal. */
  const GapThreshold: real := 0.0001

  /** The `distance` property the search reads. */
  function Distance(n: Polyline.Node): real { n.distance }

  /** `estimateLength`: eight chords through t = 0, 2/14, ..., 14/14. */
  method EstimateLength(p0: Vec3, p1: Vec3, p2: Vec3, p3: Vec3, chord: Chord) returns (length: real)
    ensures length == CubicBezier.EstimatedLength(p0, p1, p2, p3, chord)
  {
    ghost var route := CubicBezier.EstimateRoute(p0, p1, p2, p3);
    var lastPosition := p0;
    length := 0.0;
    var i := 0;
    ghost var k := 0;
    while i < 15
      invariant 0 <= k <= 8 && i == 2 * k
      invariant lastPosition == route[k]
      invariant length == Polyline.PathLength(route, k, chord)
    {
      var t := i as real / 14.0;
      assert t == CubicBezier.EstimateParameter(k);
      var position := CubicBezier.BezierPoint(p0, p1, p2, p3, t);
      length := length + chord(position, lastPosition);
      lastPosition := position;
      i, k := i + 2, k + 1;
    }
  }

  /** The number of nodes `evaluate` makes at a resolution. */
  function EvaluatedCount(p0: Vec3, p1: Vec3, p2: Vec3, p3: Vec3, resolution: real, chord: Chord): (n: nat)
    ensures n >= 2
  {
    CountAt(CubicBezier.EstimatedLength(p0, p1, p2, p3, chord), resolution)
  }

  /** `evaluate`: at least two samples, each with the distance walked so far. */
  method Evaluate(p0: Vec3, p1: Vec3, p2: Vec3, p3: Vec3, resolution: real, chord: Chord)
    returns (nodes: seq<Polyline.Node>)
    ensures nodes == CubicBezier.Sampled(p0, p1, p2, p3, EvaluatedCount(p0, p1, p2, p3, resolution, chord), chord)
  {
    var distance := 0.0;
    nodes := [];
    var estimate := EstimateLength(p0, p1, p2, p3, chord);
    var numberOfNodes := CountAt(estimate, resolution);
    var lastPosition := p0;
    ghost var route := CubicBezier.SampleRoute(p0, p1, p2, p3, numberOfNodes);
    ghost var table := Polyline.Table(route, chord);
    var i := 0;
    while i < numberOfNodes
      invariant 0 <= i <= numberOfNodes
      invariant lastPosition == route[i]
      invariant distance == Polyline.PathLength(route, i, chord)
      invariant nodes == table[..i]
    {
      var t := i as real / (numberOfNodes - 1) as real;
      CubicBezier.ParameterIsRatio(i, numberOfNodes);
      var position := CubicBezier.BezierPoint(p0, p1, p2, p3, t);
      assert position == route[i + 1];
      Polyline.TableGrows(route, chord, i);
      distance := distance + chord(position, lastPosition);
      nodes := nodes + [Polyline.Node(position, distance)];
      lastPosition := position;
      i := i + 1;
    }
    assert table[..numberOfNodes] == table;
    assert table == CubicBezier.Sampled(p0, p1, p2, p3, numberOfNodes, chord);
  }

  /**
   * `getPositionAtDistance` as written: the answer, and the table after the
   * call, whose node before the answer has been moved onto the answer
   * because `lerp` updates `currentNode.position` in place.
   */
  function PositionAtDistanceAsWritten(nodes: seq<Polyline.Node>, at: real): (r: (Vec3, seq<Polyline.Node>))
    ensures |r.1| == |nodes|
  {
    if |nodes| < 2 then (Origin, nodes)
    else
      var lower := LowerBoundJs.UpperBoundOf(nodes, at, Distance);
      if lower == 0 then (nodes[0].position, nodes)
      else if lower == |nodes| then (nodes[|nodes| - 1].position, nodes)
      else
        var current, next := nodes[lower - 1], nodes[lower];
        var p := Mix(current.position, next.position, Polyline.Fraction(current, next, at, GapThreshold));
        (p, nodes[lower - 1 := current.(position := p)])
  }

  /**
   * The node whose position object `getPositionAtDistance` returns on a
   * table of two nodes or more: the first node, the last node, or the node
   * that `lerp` moved onto the answer. After the call that node holds the
   * answer.
   */
  function AnswerNode(nodes: seq<Polyline.Node>, at: real): (k: nat)
    requires |nodes| >= 2
    ensures k < |nodes|
    ensures var (p, after) := PositionAtDistanceAsWritten(nodes, at); after[k].position == p
  {
    var lower := LowerBoundJs.UpperBoundOf(nodes, at, Distance);
    if lower == 0 then 0 else if lower == |nodes| then |nodes| - 1 else lower - 1
  }

  /** The look-up without the side effect: a pure function of the table. */
  function PositionAtDistance(nodes: seq<Polyline.Node>, at: real): (p: Vec3)
    ensures |nodes| < 2 ==> p == Origin
  {
    if |nodes| < 2 then Origin
    else
      var lower := LowerBoundJs.UpperBoundOf(nodes, at, Distance);
      if lower == 0 then nodes[0].position
      else if lower == |nodes| then nodes[|nodes| - 1].position
      else
        var current, next := nodes[lower - 1], nodes[lower];
        Mix(current.position, next.position, Polyline.Fraction(current, next, at, GapThreshold))
  }

  /**
   * The code as written answers what the pure look-up answers, and leaves
   * the table alone except for the node before the answer, which it moves
   * onto the answer. The last node never moves.
   */
  lemma AsWrittenAnswersThenMoves(nodes: seq<Polyline.Node>, at: real)
    ensures var (p, after) := PositionAtDistanceAsWritten(nodes, at);
      && p == PositionAtDistance(nodes, at)
      && (forall i :: 0 <= i < |nodes| ==>
            after[i].distance == nodes[i].distance &&
            (after[i].position == nodes[i].position || after[i].position == p))
      && (|nodes| > 0 ==> after[|nodes| - 1] == nodes[|nodes| - 1])
  {
  }

  /** A look-up as written changes no distance and never moves the last node. */
  lemma AsWrittenKeepsDistances(nodes: seq<Polyline.Node>, at: real)
    ensures var after := PositionAtDistanceAsWritten(nodes, at).1;
      && (forall i :: 0 <= i < |nodes| ==> after[i].distance == nodes[i].distance)
      && (|nodes| > 0 ==> after[|nodes| - 1] == nodes[|nodes| - 1])
  {
    AsWrittenAnswersThenMoves(nodes, at);
  }

  /**
   * `getPositionAtDistance` on the table it updates. The source hands back a
   * node's own position object, so `held` names that node; it is None for
   * the fresh origin returned below two nodes.
   */
  method GetPositionAtDistance(nodes: array<Polyline.Node>, at: real) returns (p: Vec3, held: Option<nat>)
    modifies nodes
    ensures (p, nodes[..]) == PositionAtDistanceAsWritten(old(nodes[..]), at)
    ensures held == if nodes.Length < 2 then None else Some(AnswerNode(old(nodes[..]), at))
  {
    if nodes.Length < 2 {
      return Origin, None;
    }
    var lowerElement := LowerBoundJs.LowerBound(nodes[..], at, Distance);
    if lowerElement == 0 {
      return nodes[0].position, Some(0);
    }
    if lowerElement == nodes.Length {
      return nodes[nodes.Length - 1].position, Some(nodes.Length - 1);
    }
    var currentNode, nextNode := nodes[lowerElement - 1], nodes[lowerElement];
    var t := Polyline.Fraction(currentNode, nextNode, at, GapThreshold);
    p := Mix(currentNode.position, nextNode.position, t);
    nodes[lowerElement - 1] := currentNode.(position := p);
    held := Some(lowerElement - 1);
  }

  /**
   * On three nodes at distances 0, 10 and 20 the search stops at the first
   * node whose distance exceeds `at`.
   */
  lemma LadderSearch(nodes: seq<Polyline.Node>, at: real)
    requires |nodes| == 3
    requires nodes[0].distance == 0.0 && nodes[1].distance == 10.0 && nodes[2].distance == 20.0
    ensures LowerBoundJs.UpperBoundOf(nodes, at, Distance) ==
      if at < 0.0 then 0 else if at < 10.0 then 1 else if at < 20.0 then 2 else 3
  {
    assert LowerBoundJs.Keys(nodes, Distance) == [0.0, 10.0, 20.0];
    LowerBoundJs.UpperBoundPartitions(nodes, at, Distance);
  }

  /**
   * Asking the same distance twice gives two answers. On nodes at distances
   * 0, 10 and 20 the look-up of 5 answers the midpoint of the first two
   * nodes and moves the first node there; the second look-up of 5 then
   * blends from the moved node and lands a quarter of the way from the
   * second node instead (x = 5, then x = 7.5 on nodes along the x axis).
   */
  lemma RepeatedQueryDrifts(nodes: seq<Polyline.Node>)
    requires |nodes| == 3
    requires nodes[0].distance == 0.0 && nodes[1].distance == 10.0 && nodes[2].distance == 20.0
    requires nodes[0].position != nodes[1].position
    ensures var (p, after) := PositionAtDistanceAsWritten(nodes, 5.0);
      var q := PositionAtDistanceAsWritten(after, 5.0).0;
      && p == Mix(nodes[0].position, nodes[1].position, 0.5)
      && q == Mix(p, nodes[1].position, 0.5)
      && p != q
  {
    var a, b := nodes[0].position, nodes[1].position;
    LadderSearch(nodes, 5.0);
    assert Polyline.Fraction(nodes[0], nodes[1], 5.0, GapThreshold) == 0.5;
    var (p, after) := PositionAtDistanceAsWritten(nodes, 5.0);
    assert after == nodes[0 := Polyline.Node(p, 0.0)];
    LadderSearch(after, 5.0);
    assert Polyline.Fraction(after[0], after[1], 5.0, GapThreshold) == 0.5;
    if a.x != b.x {
      assert p.x != Mix(p, b, 0.5).x;
    } else if a.y != b.y {
      assert p.y != Mix(p, b, 0.5).y;
    } else {
      assert p.z != Mix(p, b, 0.5).z;
    }
  }

  /**
   * On a table in distance order the pure look-up clamps to the ends and,
   * inside, blends the two nodes with distance(current) <= at < distance(next).
   */
  lemma PositionAtDistanceBrackets(nodes: seq<Polyline.Node>, at: real)
    requires |nodes| >= 2 && BinarySearch.Sorted(LowerBoundJs.Keys(nodes, Distance))
    ensures at < nodes[0].distance ==> PositionAtDistance(nodes, at) == nodes[0].position
    ensures nodes[|nodes| - 1].distance <= at ==> PositionAtDistance(nodes, at) == nodes[|nodes| - 1].position
    ensures nodes[0].distance <= at < nodes[|nodes| - 1].distance ==>
      var k := LowerBoundJs.UpperBoundOf(nodes, at, Distance);
      && 0 < k < |nodes|
      && nodes[k - 1].distance <= at < nodes[k].distance
      && PositionAtDistance(nodes, at) ==
           Mix(nodes[k - 1].position, nodes[k].position, Polyline.Fraction(nodes[k - 1], nodes[k], at, GapThreshold))
  {
    LowerBoundJs.UpperBoundPartitions(nodes, at, Distance);
  }

  /** The distance of sample i among n, spread evenly over a length. */
  function UniformDistance(i: nat, n: nat, length: real): (at: real)
    requires i < n && n >= 2
    ensures i == 0 ==> at == 0.0
    ensures i == n - 1 ==> at == length
  {
    (i as real / (n - 1) as real) * length
  }

  /** The nodes `evaluateUniform` makes from a table: even distances, looked-up positions. */
  function Uniform(nodes: seq<Polyline.Node>, n: nat): (r: seq<Polyline.Node>)
    requires n >= 2
    ensures |r| == n
  {
    seq(n, i requires 0 <= i < n =>
      var at := UniformDistance(i, n, Polyline.LastDistance(nodes));
      Polyline.Node(PositionAtDistance(nodes, at), at))
  }

  /** The fine table `evaluateUniform` looks positions up in: the curve at resolution 40. */
  function FineTable(p0: Vec3, p1: Vec3, p2: Vec3, p3: Vec3, chord: Chord): (nodes: seq<Polyline.Node>)
    ensures |nodes| >= 2
  {
    CubicBezier.Sampled(p0, p1, p2, p3, EvaluatedCount(p0, p1, p2, p3, 40.0, chord), chord)
  }

  /** The nodes `evaluateUniform` makes from the curve. */
  function UniformTable(p0: Vec3, p1: Vec3, p2: Vec3, p3: Vec3, resolution: real, chord: Chord): (r: seq<Polyline.Node>)
    ensures |r| >= 2
  {
    var nodes := FineTable(p0, p1, p2, p3, chord);
    Uniform(nodes, CountAt(Polyline.LastDistance(nodes), resolution))
  }

  /**
   * Look-ups as written at the distances `ats` in turn, starting on the
   * table `nodes`: the table they leave behind and, for each look-up, the
   * node whose position object it returned.
   */
  function LookUps(nodes: seq<Polyline.Node>, ats: seq<real>): (r: (seq<Polyline.Node>, seq<nat>))
    requires |nodes| >= 2
    ensures |r.0| == |nodes| && |r.1| == |ats|
    ensures forall j :: 0 <= j < |ats| ==> r.1[j] < |nodes|
    decreases |ats|
  {
    if |ats| == 0 then (nodes, [])
    else
      var before := LookUps(nodes, ats[..|ats| - 1]);
      var at := ats[|ats| - 1];
      (PositionAtDistanceAsWritten(before.0, at).1, before.1 + [AnswerNode(before.0, at)])
  }

  /** One more look-up after those at `ats`. */
  lemma LookUpsStep(nodes: seq<Polyline.Node>, ats: seq<real>, at: real)
    requires |nodes| >= 2
    ensures var table := LookUps(nodes, ats).0;
      && LookUps(nodes, ats + [at]).0 == PositionAtDistanceAsWritten(table, at).1
      && LookUps(nodes, ats + [at]).1 == LookUps(nodes, ats).1 + [AnswerNode(table, at)]
  {
    assert (ats + [at])[..|ats|] == ats;
  }

  /** The n even distances over a length. */
  function EvenDistances(n: nat, length: real): (ats: seq<real>)
    requires n >= 2
    ensures |ats| == n
  {
    seq(n, i requires 0 <= i < n => UniformDistance(i, n, length))
  }

  /**
   * What `evaluateUniform` as written returns: node i has the i-th even
   * distance and shares the position object of the node its look-up
   * returned, which later look-ups may have moved. The positions are read
   * once the loop is over.
   */
  function UniformAsWritten(nodes: seq<Polyline.Node>, n: nat): (r: seq<Polyline.Node>)
    requires |nodes| >= 2 && n >= 2
    ensures |r| == n
  {
    var ats := EvenDistances(n, Polyline.LastDistance(nodes));
    var run := LookUps(nodes, ats);
    seq(n, i requires 0 <= i < n => Polyline.Node(run.0[run.1[i]].position, ats[i]))
  }

  /**
   * The loop of `evaluateUniform` on the fine table it updates: n look-ups
   * at even distances over the table's length, and the node each returned.
   */
  method UniformLookUps(nodes: array<Polyline.Node>, n: nat) returns (pushed: seq<nat>)
    requires nodes.Length >= 2 && n >= 2
    modifies nodes
    ensures (nodes[..], pushed) == LookUps(old(nodes[..]), EvenDistances(n, Polyline.LastDistance(old(nodes[..]))))
  {
    ghost var fine := nodes[..];
    var splineLength := Polyline.LastDistance(nodes[..]);
    ghost var ats := EvenDistances(n, splineLength);
    pushed := [];
    var i := 0;
    while i < n
      invariant 0 <= i <= n
      invariant (nodes[..], pushed) == LookUps(fine, ats[..i])
    {
      var at := UniformDistance(i, n, splineLength);
      assert ats[..i + 1] == ats[..i] + [at];
      LookUpsStep(fine, ats[..i], at);
      var position, held := GetPositionAtDistance(nodes, at);
      pushed := pushed + [held.value];
      i := i + 1;
    }
    assert ats[..n] == ats;
  }

  /**
   * `evaluateUniform`: a fine table at resolution 40, then
   * max(floor(length * resolution), 2) look-ups at even distances along it.
   * Each look-up may move a node of the fine table, and each pushed node
   * shares the position object the look-up returned.
   */
  method EvaluateUniform(p0: Vec3, p1: Vec3, p2: Vec3, p3: Vec3, resolution: real, chord: Chord)
    returns (newNodes: seq<Polyline.Node>)
    ensures var fine := FineTable(p0, p1, p2, p3, chord);
      newNodes == UniformAsWritten(fine, CountAt(Polyline.LastDistance(fine), resolution))
  {
    var fine := Evaluate(p0, p1, p2, p3, 40.0, chord);
    var nodes := new Polyline.Node[|fine|](i requires 0 <= i < |fine| => fine[i]);
    assert nodes[..] == fine;
    var splineLength := Polyline.LastDistance(fine);
    var numberOfNodes := CountAt(splineLength, resolution);
    var pushed := UniformLookUps(nodes, numberOfNodes);
    var table := nodes[..];
    newNodes := seq(numberOfNodes, j requires 0 <= j < numberOfNodes =>
      Polyline.Node(table[pushed[j]].position, UniformDistance(j, numberOfNodes, splineLength)));
    assert newNodes == UniformAsWritten(fine, numberOfNodes);
  }

  /**
   * The re-sampling the code evidently intends: the same loop with a
   * look-up that leaves the fine table alone (`clone()` before `lerp`).
   */
  method EvaluateUniformCorrected(p0: Vec3, p1: Vec3, p2: Vec3, p3: Vec3, resolution: real, chord: Chord)
    returns (newNodes: seq<Polyline.Node>)
    ensures newNodes == UniformTable(p0, p1, p2, p3, resolution, chord)
  {
    newNodes := [];
    var nodes := Evaluate(p0, p1, p2, p3, 40.0, chord);
    var splineLength := Polyline.LastDistance(nodes);
    var numberOfNodes := CountAt(splineLength, resolution);
    assert nodes == FineTable(p0, p1, p2, p3, chord);
    ghost var target := Uniform(nodes, numberOfNodes);
    var i := 0;
    while i < numberOfNodes
      invariant 0 <= i <= numberOfNodes
      invariant newNodes == target[..i]
    {
      var at := UniformDistance(i, numberOfNodes, splineLength);
      var position := PositionAtDistance(nodes, at);
      assert target[i] == Polyline.Node(position, at);
      newNodes := newNodes + [Polyline.Node(position, at)];
      JsArray.PushNext(target, i);
      i := i + 1;
    }
    assert target[..numberOfNodes] == target;
  }

  /** Look-ups as written change no distance of the table and never move its last node. */
  lemma {:induction false} LookUpsKeepDistances(nodes: seq<Polyline.Node>, ats: seq<real>)
    requires |nodes| >= 2
    ensures var table := LookUps(nodes, ats).0;
      && (forall j :: 0 <= j < |nodes| ==> table[j].distance == nodes[j].distance)
      && table[|nodes| - 1] == nodes[|nodes| - 1]
    decreases |ats|
  {
    if |ats| > 0 {
      var init, at := ats[..|ats| - 1], ats[|ats| - 1];
      assert ats == init + [at];
      LookUpsKeepDistances(nodes, init);
      LookUpsStep(nodes, init, at);
      AsWrittenKeepsDistances(LookUps(nodes, init).0, at);
    }
  }

  /**
   * On a table in distance order the code as written and the intended
   * re-sampling agree on every distance and on the last node, which sits on
   * the table's last node.
   */
  lemma UniformAsWrittenAgreesAtEnd(nodes: seq<Polyline.Node>, n: nat)
    requires n >= 2 && |nodes| >= 2 && BinarySearch.Sorted(LowerBoundJs.Keys(nodes, Distance))
    ensures var r, u := UniformAsWritten(nodes, n), Uniform(nodes, n);
      && (forall i :: 0 <= i < n ==> r[i].distance == u[i].distance)
      && r[n - 1] == u[n - 1]
      && r[n - 1].position == nodes[|nodes| - 1].position
  {
    var length := Polyline.LastDistance(nodes);
    var ats := EvenDistances(n, length);
    var init := ats[..n - 1];
    assert ats == init + [length];
    var before := LookUps(nodes, init).0;
    LookUpsKeepDistances(nodes, init);
    LookUpsKeepDistances(nodes, ats);
    LookUpsStep(nodes, init, length);
    assert LowerBoundJs.Keys(before, Distance) == LowerBoundJs.Keys(nodes, Distance);
    LowerBoundJs.UpperBoundPartitions(before, length, Distance);
    assert AnswerNode(before, length) == |nodes| - 1;
    UniformEndsOnLastNode(nodes, n);
  }

  /**
   * One look-up as written on nodes at distances 0, 10 and 20: below 10 it
   * returns the first node's object, moved by the blend; from 10 to 20 the
   * second node's, moved likewise; from 20 on the last node's, unmoved.
   */
  lemma LadderLookUp(table: seq<Polyline.Node>, at: real)
    requires |table| == 3 && 0.0 <= at
    requires table[0].distance == 0.0 && table[1].distance == 10.0 && table[2].distance == 20.0
    ensures var after, k := PositionAtDistanceAsWritten(table, at).1, AnswerNode(table, at);
      && (at < 10.0 ==>
            k == 0 && after == table[0 := Polyline.Node(Mix(table[0].position, table[1].position, at / 10.0), 0.0)])
      && (10.0 <= at < 20.0 ==>
            k == 1 && after == table[1 := Polyline.Node(Mix(table[1].position, table[2].position, (at - 10.0) / 10.0), 10.0)])
      && (20.0 <= at ==> k == 2 && after == table)
  {
    LadderSearch(table, at);
  }

  /**
   * The five look-ups at 0, 5, 10, 15 and 20 on nodes a, b and c at
   * distances 0, 10 and 20: the look-up at 5 moves a's object onto the
   * midpoint of a and b, the look-up at 15 moves b's object onto the
   * midpoint of b and c, and the look-ups return a, a, b, b and c's objects.
   */
  lemma LadderLookUps(nodes: seq<Polyline.Node>, ats: seq<real>)
    requires |nodes| == 3
    requires nodes[0].distance == 0.0 && nodes[1].distance == 10.0 && nodes[2].distance == 20.0
    requires ats == [0.0, 5.0, 10.0, 15.0, 20.0]
    ensures var a, b, c := nodes[0].position, nodes[1].position, nodes[2].position;
      LookUps(nodes, ats)
      == ([Polyline.Node(Mix(a, b, 0.5), 0.0), Polyline.Node(Mix(b, c, 0.5), 10.0), nodes[2]], [0, 0, 1, 1, 2])
  {
    var a, b, c := nodes[0].position, nodes[1].position, nodes[2].position;
    var s0: seq<real> := [];
    var s1, s2, s3, s4, s5 := s0 + [0.0], s0 + [0.0, 5.0], s0 + [0.0, 5.0, 10.0], s0 + [0.0, 5.0, 10.0, 15.0],
      s0 + [0.0, 5.0, 10.0, 15.0, 20.0];
    var ab, bc := Mix(a, b, 0.5), Mix(b, c, 0.5);
    // the look-up at 0 returns a and moves nothing
    LookUpsStep(nodes, s0, 0.0);
    LadderLookUp(nodes, 0.0);
    var t1 := LookUps(nodes, s1).0;
    assert t1 == nodes;
    assert LookUps(nodes, s1).1 == [0];
    // the look-up at 5 returns a's object, moved onto the midpoint of a and b
    assert s2 == s1 + [5.0];
    LookUpsStep(nodes, s1, 5.0);
    LadderLookUp(t1, 5.0);
    var t2 := LookUps(nodes, s2).0;
    assert t2 == nodes[0 := Polyline.Node(ab, 0.0)];
    assert LookUps(nodes, s2).1 == [0, 0];
    // the look-up at 10 returns b and moves nothing
    assert s3 == s2 + [10.0];
    LookUpsStep(nodes, s2, 10.0);
    LadderLookUp(t2, 10.0);
    var t3 := LookUps(nodes, s3).0;
    assert t3 == t2;
    assert LookUps(nodes, s3).1 == [0, 0, 1];
    // the look-up at 15 returns b's object, moved onto the midpoint of b and c
    assert s4 == s3 + [15.0];
    LookUpsStep(nodes, s3, 15.0);
    LadderLookUp(t3, 15.0);
    var t4 := LookUps(nodes, s4).0;
    assert t4 == [Polyline.Node(ab, 0.0), Polyline.Node(bc, 10.0), nodes[2]];
    assert LookUps(nodes, s4).1 == [0, 0, 1, 1];
    // the look-up at 20 returns c and moves nothing
    assert s5 == s4 + [20.0];
    LookUpsStep(nodes, s4, 20.0);
    LadderLookUp(t4, 20.0);
    assert LookUps(nodes, s5).0 == t4;
    assert LookUps(nodes, s5).1 == [0, 0, 1, 1, 2];
    assert s5 == ats;
  }

  /**
   * The re-sampling as written drifts off the curve. On nodes a, b and c at
   * distances 0, 10 and 20, five samples at 0, 5, 10, 15 and 20 are meant
   * to be a, the midpoint of a and b, b, the midpoint of b and c, and c.
   * The samples at 0 and 10 share the objects that the look-ups at 5 and 15
   * then move, so as written each midpoint comes out twice.
   */
  lemma UniformAsWrittenDrifts(nodes: seq<Polyline.Node>)
    requires |nodes| == 3
    requires nodes[0].distance == 0.0 && nodes[1].distance == 10.0 && nodes[2].distance == 20.0
    ensures var a, b, c := nodes[0].position, nodes[1].position, nodes[2].position;
      var ab, bc := Mix(a, b, 0.5), Mix(b, c, 0.5);
      var r, u := UniformAsWritten(nodes, 5), Uniform(nodes, 5);
      && [u[0].position, u[1].position, u[2].position, u[3].position, u[4].position] == [a, ab, b, bc, c]
      && [r[0].position, r[1].position, r[2].position, r[3].position, r[4].position] == [ab, ab, bc, bc, c]
  {
    var length := Polyline.LastDistance(nodes);
    assert length == 20.0;
    assert UniformDistance(1, 5, length) == 5.0;
    assert UniformDistance(2, 5, length) == 10.0;
    assert UniformDistance(3, 5, length) == 15.0;
    assert EvenDistances(5, length) == [0.0, 5.0, 10.0, 15.0, 20.0];
    LadderLookUps(nodes, EvenDistances(5, length));
    UniformSamplesLadder(nodes);
  }

  /** The intended re-sampling of nodes a, b and c at distances 0, 10 and 20 at 0, 5, 10, 15 and 20. */
  lemma UniformSamplesLadder(nodes: seq<Polyline.Node>)
    requires |nodes| == 3
    requires nodes[0].distance == 0.0 && nodes[1].distance == 10.0 && nodes[2].distance == 20.0
    ensures var a, b, c := nodes[0].position, nodes[1].position, nodes[2].position;
      var u := Uniform(nodes, 5);
      [u[0].position, u[1].position, u[2].position, u[3].position, u[4].position]
      == [a, Mix(a, b, 0.5), b, Mix(b, c, 0.5), c]
  {
    var length := Polyline.LastDistance(nodes);
    assert UniformDistance(1, 5, length) == 5.0;
    assert UniformDistance(2, 5, length) == 10.0;
    assert UniformDistance(3, 5, length) == 15.0;
    LadderSearch(nodes, 0.0);
    LadderSearch(nodes, 5.0);
    LadderSearch(nodes, 10.0);
    LadderSearch(nodes, 15.0);
    LadderSearch(nodes, 20.0);
    assert Polyline.Fraction(nodes[0], nodes[1], 5.0, GapThreshold) == 0.5;
    assert Polyline.Fraction(nodes[1], nodes[2], 15.0, GapThreshold) == 0.5;
  }

  /** Node i of the re-sampling: the even distance and the position looked up there. */
  lemma UniformNode(nodes: seq<Polyline.Node>, n: nat, i: nat)
    requires n >= 2 && i < n
    ensures var at := UniformDistance(i, n, Polyline.LastDistance(nodes));
      Uniform(nodes, n)[i] == Polyline.Node(PositionAtDistance(nodes, at), at)
  {
  }

  /**
   * On any table the re-sampled distances run from 0 to the table's length in
   * equal steps of length / (n - 1).
   */
  lemma UniformEvenlySpaced(nodes: seq<Polyline.Node>, n: nat)
    requires n >= 2
    ensures var r, length := Uniform(nodes, n), Polyline.LastDistance(nodes);
      && r[0].distance == 0.0
      && r[|r| - 1].distance == length
      && forall i :: 0 < i < |r| ==> r[i].distance - r[i - 1].distance == length / (|r| - 1) as real
  {
    var r, length := Uniform(nodes, n), Polyline.LastDistance(nodes);
    UniformNode(nodes, n, 0);
    UniformNode(nodes, n, n - 1);
    forall i | 0 < i < n
      ensures r[i].distance - r[i - 1].distance == length / (n - 1) as real
    {
      UniformNode(nodes, n, i);
      UniformNode(nodes, n, i - 1);
      EvenStep(i, n, length);
    }
  }

  /** On a table in distance order the last re-sampled node sits on the table's last node. */
  lemma UniformEndsOnLastNode(nodes: seq<Polyline.Node>, n: nat)
    requires n >= 2 && |nodes| >= 2 && BinarySearch.Sorted(LowerBoundJs.Keys(nodes, Distance))
    ensures Uniform(nodes, n)[n - 1].position == nodes[|nodes| - 1].position
  {
    UniformNode(nodes, n, n - 1);
    PositionAtDistanceBrackets(nodes, Polyline.LastDistance(nodes));
  }

  /** What `evaluateUniform` yields ends on the curve's end point. */
  lemma UniformTableEndsOnCurveEnd(p0: Vec3, p1: Vec3, p2: Vec3, p3: Vec3, resolution: real, chord: Chord)
    ensures var r := UniformTable(p0, p1, p2, p3, resolution, chord);
      r[|r| - 1].position == p3
  {
    var m := EvaluatedCount(p0, p1, p2, p3, 40.0, chord);
    var route := CubicBezier.SampleRoute(p0, p1, p2, p3, m);
    var nodes := FineTable(p0, p1, p2, p3, chord);
    assert nodes == CubicBezier.Sampled(p0, p1, p2, p3, m, chord) == Polyline.Table(route, chord);
    CubicBezier.SampledSpansCurve(p0, p1, p2, p3, m, chord);
    Polyline.TableSorted(route, chord);
    assert LowerBoundJs.Keys(nodes, Distance) == Polyline.Distances(nodes);
    UniformEndsOnLastNode(nodes, CountAt(Polyline.LastDistance(nodes), resolution));
  }

  /** Neighbouring even distances differ by length / (n - 1). */
  lemma EvenStep(i: nat, n: nat, length: real)
    requires 0 < i < n && n >= 2
    ensures UniformDistance(i, n, length) - UniformDistance(i - 1, n, length) == length / (n - 1) as real
  {
    var d := (n - 1) as real;
    calc {
      UniformDistance(i, n, length) - UniformDistance(i - 1, n, length);
      (i as real / d) * length - ((i - 1) as real / d) * length;
      ((i as real - (i - 1) as real) / d) * length;
      (1.0 / d) * length;
    }
  }
}
