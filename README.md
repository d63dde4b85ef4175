# Verified model of the coaster editor's arc-length tables, searches and NoLimits 2 park codec

This Dafny project models four groups of sequential logic from a roller-coaster
editor and proves properties about them. The editor reads and writes NoLimits 2
park files.

- **Arc-length tables.** A cubic Bézier curve, or any curve built node by node,
  becomes a table of nodes. Each node records the distance walked so far. The
  tables are then queried by distance:
  - `bezier.cc` of the native calculation library (`BezierCc`, class `Bezier`);
  - its TypeScript twin in the build scripts (`BezierTs`);
  - the node tables of `src/maths/curve.ts` (`Curve`, class `Curve`);
  - the node tables of `scripts/src/maths/curve.ts` (`ScriptsCurve`).

  The shared pieces are the curve itself (`CubicBezier`), the walk that
  accumulates distances (`Polyline`) and the point helpers (`Geometry`).
  The scripts' look-up moves a node of the table it searches, and their
  re-sampling keeps the objects of those nodes. Both are modelled as written,
  next to the corrected versions the rest of the model uses (see Findings).
- **Searches.** Three binary searches, each with its own semantics:
  - `lowerBound` and `findBoundingIndices` (`BinarySearch`);
  - the scripts' `lowerBound` (`ScriptsLowerBound`);
  - the older script search that behaves as an upper bound (`LowerBoundJs`).

  The JavaScript array rules they rely on (negative `slice` and `at` indices)
  are in `JsArray`.
- **Partitioning and sampling.** This group has three parts:
  - `splitPointsByStrict` cuts a track into overlapping sections at its strict
    points (`StrictPoint`);
  - `uniformSample` and `uniformSampleMap` cut an interval into evenly spaced
    samples (`UniformSample`);
  - the NURBS knot-vector makers and the readers of a knot vector's usable
    part (`Nurbs`).
- **NoLimits 2 park codec.** This group has four parts:
  - The byte stream is a class with its content and a cursor
    (`NoLimitsStream.Stream`).
  - Its big-endian codecs for bytes, booleans, 32-bit integers, floats,
    doubles, colours and two-byte-per-character strings are in `NoLimitsBytes`.
  - The chunk framing is in `NoLimitsChunks`.
  - Thirteen record codecs cover the lift, transport, storage, brake and
    station sections, the custom friction, script, file script and
    individual colour of a coaster, and the vertex, roll point, trigger point
    and 4D parameter point of a track. Every record has these parts:
    - a function giving the bytes its writer appends;
    - a function decoding it at a position;
    - writer and reader methods proved against those two functions;
    - a round-trip lemma.

    The round-trip lemma states that reading what was written gives the
    record back. Where the writer masks a field (`& 0xff`, modulo 2^32), it
    gives the record with that field masked instead. Both are exact when the
    fields are in range.

Coordinates are real numbers. The chord length between two points is any
non-negative function, passed as a parameter (`Geometry.Chord`). Doubles and
floats are kept as opaque bit patterns of 8 and 4 bytes. Strings are
sequences of UTF-16 code units. Where the source changes state in place, the
model does too:
- the stream's cursor and content;
- the Bézier node table;
- the curve's node list;
- the knot arrays;
- the loops of the searches and samplers.

Those methods are proved against specification functions, and the lemmas are
stated about those functions.

## Model

| member | source | states |
|---|---|---|
| BinarySearch.Search | src/helper/binary-search.ts:8-23 | the loop's answer never leaves the window it was started on |
| BinarySearch.SearchKeepsLeft | src/helper/binary-search.ts:11-21 | on any keys, sorted or not, a key below the value just left of the window stays just left of the answer |
| BinarySearch.SearchKeepsRight | src/helper/binary-search.ts:11-21 | on any keys, a key reaching the value just right of the window stays at the answer |
| BinarySearch.LowerBoundAtBoundary | src/helper/binary-search.ts:3-24 | for every input, the key before the returned index is below the value and the key at it reaches the value |
| BinarySearch.LowerBoundPartitions | src/helper/binary-search.ts:3-24 | on keys sorted ascending the result is the lower bound: every key before it is below the value, every key from it on is not |
| BinarySearch.PartitionIsUnique | src/helper/binary-search.ts:3-24 | at most one index partitions the keys, so the lower bound is determined by the keys alone |
| BinarySearch.LowerBoundMonotone | src/helper/binary-search.ts:3-24 | on sorted keys a larger value never gives a smaller index |
| BinarySearch.LowerBound | src/helper/binary-search.ts:3-24 | the loop over `first` and `len` (with its invariants) returns the lower bound defined above |
| BinarySearch.FindBoundingIndices | src/helper/binary-search.ts:26-42 | nothing for fewer than two items; otherwise two adjacent indices inside the array |
| BinarySearch.BoundingIndicesBracket | src/helper/binary-search.ts:26-42 | on sorted keys the pair is the first two items for values up to the first key, the last two past the last key, and otherwise brackets the value: left key below it, right key reaching it |
| LowerBoundJs.Search | scripts/helper/lower-bound.js:2-14 | the answer stays between `l` and `h` |
| LowerBoundJs.SearchKeepsLeft | scripts/helper/lower-bound.js:5-12 | a key at most `x` just left of the window stays just left of the answer |
| LowerBoundJs.SearchKeepsRight | scripts/helper/lower-bound.js:5-12 | a key above `x` just right of the window stays at the answer |
| LowerBoundJs.UpperBoundPartitions | scripts/helper/lower-bound.js:1-15 | on sorted keys the result is an upper bound despite the name: keys before it are at most `x`, keys from it on are above `x` |
| LowerBoundJs.LowerBound | scripts/helper/lower-bound.js:1-15 | the loop over `l` and `h` returns that upper bound |
| ScriptsLowerBound.LowerBound | scripts/src/helper/lower-bound.ts:1-22 | the scripts' copy, whose accessor takes no index, returns the same lower bound as the site's search |
| ScriptsLowerBound.LowerBoundSplits | scripts/src/helper/lower-bound.ts:1-22 | on sorted keys it splits the array into keys below the value and keys reaching it (0 on an empty array) |
| JsArray.RelativeIndex | src/helper/strict-point.ts:14 | a slice bound is clamped into 0..length (negative bounds count from the end) and is kept when already inside |
| JsArray.Slice | src/helper/strict-point.ts:14 | `slice` is the sub-sequence between in-range bounds, empty when the end is not after the start |
| StrictPoint.Boundaries | src/helper/strict-point.ts:5-11 | the reducer's index list always starts with 0 |
| StrictPoint.Sections | src/helper/strict-point.ts:13-15 | one section per pair of consecutive indices |
| StrictPoint.SplitPointsByStrict | src/helper/strict-point.ts:1-18 | the reducer loop and the slicing loop return exactly `Split` (cut indices, then the slices between them, both ends included) |
| StrictPoint.BoundariesUpTo | src/helper/strict-point.ts:5-11 | after k points the collected indices increase, lie below k, and hold exactly the boundary points among 1..k-1 |
| StrictPoint.BoundariesShape | src/helper/strict-point.ts:5-11 | for two or more points the indices run from 0 to the last point, increase, and an inner point is a cut exactly when it is strict |
| StrictPoint.SplitOfFewPoints | src/helper/strict-point.ts:1-18 | no points give no sections; one point gives one section holding it (index 0 pushed twice) |
| StrictPoint.SectionAt | src/helper/strict-point.ts:13-15 | section k is the points from cut k to cut k+1, both included |
| StrictPoint.SplitEnds | src/helper/strict-point.ts:1-18 | for two or more points the first section starts at the first point and the last ends at the last point |
| StrictPoint.SectionsAreLong | src/helper/strict-point.ts:13-15 | every section of two or more points has at least two points |
| StrictPoint.SectionsMeet | src/helper/strict-point.ts:13-15 | consecutive sections share their cut point |
| StrictPoint.JoinPrefix | src/helper/strict-point.ts:13-15 | joining the first k sections (dropping each shared point once) gives the points up to cut k |
| StrictPoint.JoinRestores | src/helper/strict-point.ts:1-18 | joining all sections gives back the input: the split loses and duplicates nothing |
| UniformSample.NodeCount | src/helper/uniform-sample.ts:8 | at least two nodes |
| UniformSample.NodeCountIsFloor | src/helper/uniform-sample.ts:8 | the count is the floor of length times resolution once that reaches 2, and exactly 2 below 3 |
| UniformSample.CountAt | src/helper/uniform-sample.ts:7-8 | at least two nodes for any length and resolution |
| UniformSample.Parameter | src/helper/uniform-sample.ts:11 | t stays in [0, 1], is 0 at the first node and 1 at the last |
| UniformSample.At | src/helper/uniform-sample.ts:12 | the sample point is `from` at t = 0 and `to` at t = 1 |
| UniformSample.ParameterIncreases | src/helper/uniform-sample.ts:10-11 | later nodes get strictly larger parameters |
| UniformSample.Calls | src/helper/uniform-sample.ts:10-14 | one callback call per node |
| UniformSample.Sample | src/helper/uniform-sample.ts:1-15 | the loop makes exactly the calls `Calls` lists, in order |
| UniformSample.CallsInOrder | src/helper/uniform-sample.ts:1-15 | at least two calls, numbered 0, 1, ..., with increasing t, the first at `from` with t = 0 and the last at `to` with t = 1 |
| UniformSample.Mapped | src/helper/uniform-sample.ts:17-30 | one mapped value per node |
| UniformSample.SampleMap | src/helper/uniform-sample.ts:17-30 | the pushes collect `mapFn(at, t)` for every call, in order |
| UniformSample.MappedEnds | src/helper/uniform-sample.ts:17-30 | the output starts with `mapFn(from, 0)` and ends with `mapFn(to, 1)` |
| Nurbs.ClampedKnots | src/maths/nurbs.ts:15-17 | the clamped vector has `points.length + degree + 1` knots |
| Nurbs.ClosedKnots | src/maths/nurbs.ts:38-41 | the closed vector has `points.length + degree + 1` knots |
| Nurbs.LeftClampedRightOpenKnots | src/maths/nurbs.ts:54-57 | the left-clamped vector has `points.length + degree + 1` knots |
| Nurbs.LeftOpenRightClampedKnots | src/maths/nurbs.ts:74-76 | the left-open vector has `points.length + degree + 1` knots |
| Nurbs.UniformKnots | src/maths/nurbs.ts:143-146 | the uniform vector has `numberOfPoints + degree + 1` knots |
| Nurbs.FillClamped | src/maths/nurbs.ts:19-29 | the three index loops leave exactly the clamped vector in the array, every slot assigned |
| Nurbs.MakeClampedKnots | src/maths/nurbs.ts:11-32 | a new array holding the clamped vector |
| Nurbs.MakeClosedKnots | src/maths/nurbs.ts:34-48 | a new array whose knot i is i - degree |
| Nurbs.MakeLeftClampedRightOpenKnots | src/maths/nurbs.ts:50-68 | a new array with degree + 1 zeros, then knot i = i - degree |
| Nurbs.MakeLeftOpenRightClampedKnots | src/maths/nurbs.ts:70-87 | a new array with knot i = i - degree, then degree + 1 copies of n - degree + 1 |
| Nurbs.MakeKnots | src/maths/nurbs.ts:138-167 | knot i = i for 'uniform'; for 'clamped', the very vector `makeClampedKnots` builds |
| Nurbs.ClampedKnotsShape | src/maths/nurbs.ts:19-29 | for degree <= n: degree + 1 zeros, interior knot i at index degree + i, degree + 1 copies of n - degree + 1 at the end, never decreasing |
| Nurbs.ClampedKnotsUnorderedWhenDegreeTooHigh | src/maths/nurbs.ts:15-29 | for degree above n the last loop writes a negative knot after the zeros, so the vector is out of order |
| Nurbs.ClosedKnotsIncrease | src/maths/nurbs.ts:43-45 | the closed vector starts at -degree and increases by exactly one per index |
| Nurbs.LeftClampedRightOpenShape | src/maths/nurbs.ts:59-65 | degree + 1 zeros, then steps of one; never decreasing |
| Nurbs.LeftOpenRightClampedShape | src/maths/nurbs.ts:78-84 | steps of one up to the last point, then degree + 1 equal knots; never decreasing |
| Nurbs.KnotIndexRange | src/maths/nurbs.ts:89-91 | the usable index range spans `length - 2 * degree - 1` |
| Nurbs.Domain | src/maths/nurbs.ts:93-95 | the knots at the two ends of `knotIndexRange`, `undefined` where that index is outside the vector |
| JsArray.At | src/maths/nurbs.ts:94 | an index read gives a value exactly when the index is inside the array, and then the element there (`undefined` otherwise) |
| Nurbs.IntervalsSpanDomain | src/maths/nurbs.ts:169-171 | when the vector is long enough, `intervals` has `length - 2 * degree` knots, is the run from one end of `knotIndexRange` to the other, and starts and ends on the two `domain` knots |
| Nurbs.UnitUsablePart | src/maths/nurbs.ts:89-95 | a vector whose knot j is j - degree over the usable range has the unit breakpoints 0..n - degree + 1 and that domain |
| Nurbs.MakersShareDomain | src/maths/nurbs.ts:11-95 | for degree <= n all four makers have the domain [0, n - degree + 1] and the same unit intervals |
| Nurbs.UniformDomain | src/maths/nurbs.ts:148-151 | the uniform vector's domain is [degree, n + 1] and its intervals count up by one |
| Curve.Length | src/maths/curve.ts:19-21 | the last node's distance, 0 for an empty curve |
| Curve.Walked | src/maths/curve.ts:162-176 | the distance walked through a run of points is never negative |
| Curve.AccumulatesIsWalk | src/maths/curve.ts:104-120 | on a table built by appending, node i records the walk through the node positions up to it |
| Curve.AccumulatesMonotone | src/maths/curve.ts:104-120 | distances along a table built by appending never decrease |
| Curve.AccumulatesIsSorted | src/maths/curve.ts:23-28 | such a table has sorted keys, so the search in `matrixAtDistance` runs on valid input |
| Curve.MatrixAtDistance | src/maths/curve.ts:23-46 | a fresh identity below two nodes; any blend it answers has its fraction clamped to [0, 1] |
| Curve.MatrixAtDistanceBeforeStart | src/maths/curve.ts:23-46 | at or before the first node's distance the look-up is at the first node's position |
| Curve.MatrixAtDistancePastEnd | src/maths/curve.ts:23-46 | past the end it is at the last node's position, or answers the next-to-last matrix when the last gap is within `Number.EPSILON` |
| Curve.MatrixAtDistanceInside | src/maths/curve.ts:23-46 | inside the table it blends the two adjacent nodes bracketing the distance at the fraction that lands exactly on it, or answers the left matrix when their gap is within `Number.EPSILON` |
| Curve.NextDistance | src/maths/curve.ts:108-114 | a node appended to an empty curve gets distance 0, otherwise at least the last distance |
| Curve.Appended | src/maths/curve.ts:104-120 | appending adds exactly one node |
| Curve.AppendedAccumulates | src/maths/curve.ts:104-120 | appending keeps the table accumulating, keeps the old nodes, stores the matrix, and grows the length by the chord from the old last position (0 on an empty table) |
| Curve.Look | src/maths/curve.ts:130-132 | turning a matrix towards a point keeps its position |
| Curve.PositionInserted | src/maths/curve.ts:122-142 | inserting a position adds exactly one node |
| Curve.PositionInsertedKeeps | src/maths/curve.ts:122-142 | inserting keeps the table accumulating, changes no node but the old last one, and only its orientation; the new node is at the position with that orientation (an identity at distance 0 on an empty curve) |
| Curve.Curve.constructor | src/maths/curve.ts:205 | a new curve is empty |
| Curve.Curve.InsertMatrix | src/maths/curve.ts:104-120 | the node list becomes the appended table |
| Curve.Curve.InsertPosition | src/maths/curve.ts:122-142 | turns the last node (twice when it is the only one) and appends; the node list becomes `PositionInserted` |
| Curve.FromUniformSample | src/maths/curve.ts:199-216 | `max(floor((to - from) * resolution), 2)` nodes, accumulating, node i at `positionFn(at, t)` for its sample |
| Curve.BasicNodes | src/maths/curve.ts:158-187 | no nodes below two points; otherwise one node per point |
| Curve.BasicNodeAt | src/maths/curve.ts:164-184 | node i sits at point i, at the walked distance, looking from the next point back (the last node keeps the orientation before it) |
| Curve.FromPointsBasic | src/maths/curve.ts:158-187 | the loop with its running distance builds exactly `BasicNodes` |
| Curve.BasicNodesOnPoints | src/maths/curve.ts:158-187 | the basic table's positions are the points |
| Curve.BasicNodesAccumulate | src/maths/curve.ts:158-187 | the basic table accumulates the chords between its points, so its length is the walk through all of them |
| ScriptsCurve.FindCurveNodeIndices | scripts/src/maths/curve.ts:22-44 | nothing below two nodes; otherwise two adjacent indices inside the curve |
| ScriptsCurve.SameAsBoundingIndices | scripts/src/maths/curve.ts:27-43 | the first/last tests pick the same pair as clamping the search result to [1, length - 1] |
| ScriptsCurve.GetMatrixAtDistance | scripts/src/maths/curve.ts:46-61 | a fresh identity below two nodes; any blend has its fraction clamped to [0, 1] |
| ScriptsCurve.SameAsMatrixAtDistance | scripts/src/maths/curve.ts:46-61 | the scripts' look-up answers exactly what the application's `matrixAtDistance` answers |
| Geometry.Mix | src/libs/calculation/src/bezier.cc:69 | `glm::mix` and `lerp` give the first point at t = 0 and the second at t = 1 |
| Geometry.Clamp | src/libs/calculation/src/bezier.cc:66 | the clamp lands in [lo, hi], keeps values inside, and sends values below or above to the nearer end |
| Geometry.ClampInt | src/helper/binary-search.ts:34-38 | `MathUtils.clamp` on indices lands in [lo, hi] and keeps values inside |
| Geometry.RatioBounds | src/maths/curve.ts:36-42 | the fraction against a positive gap is at most 0 before it, within [0, 1] inside it, at least 1 past it, and scales back to the offset |
| Geometry.SetPosition | src/maths/curve.ts:136 | `clone().setPosition(p)` keeps the orientation and moves to p |
| Polyline.PathLength | src/libs/calculation/src/bezier.cc:9-24 | the distance walked is never negative |
| Polyline.PathLengthMonotone | src/libs/calculation/src/bezier.cc:16 | walking further never makes the running distance shorter |
| Polyline.PathLengthAtLeastStraight | src/libs/calculation/src/bezier.cc:37-49 | for a true distance, a walk is at least the straight line between its ends |
| Polyline.Table | src/libs/calculation/src/bezier.cc:12-24 | one node per point after the start, node i sitting on point i + 1 |
| Polyline.TableGrows | src/libs/calculation/src/bezier.cc:15-21 | each next node adds one chord to the distance so far and sits on the next point |
| Polyline.Distances | scripts/helper/bezier.ts:46 | the keys the searches compare are the nodes' distances, in order |
| Polyline.TableAccumulates | scripts/helper/bezier.ts:101-118 | the first node records the chord from the start point to the first sample, and each further node adds the chord from the sample before |
| Polyline.TableSorted | src/libs/calculation/src/bezier.cc:9-24 | the distances in a table never decrease |
| Polyline.Fraction | scripts/helper/bezier.ts:57-64 | the interpolation fraction lies in [0, 1], is 0 when the gap is within the threshold, and otherwise lands exactly on a distance between the two nodes |
| Polyline.LastDistance | scripts/helper/bezier.ts:38-41 | `length(nodes)`: the last node's distance, 0 without nodes |
| Polyline.TableLength | src/libs/calculation/src/bezier.cc:72-76 | a table's length is the walk along the whole route, and every node's distance lies between 0 and it |
| CubicBezier.BezierPoint | src/libs/calculation/src/bezier.cc:27-35 | `bezier_fast` starts at p0 (t = 0) and ends at p3 (t = 1) |
| CubicBezier.BlendOfConstant | scripts/helper/bezier.ts:10-22 | the four Bernstein weights sum to one |
| CubicBezier.BlendOfEvenlySpaced | scripts/helper/bezier.ts:10-22 | evenly spaced control values blend linearly |
| CubicBezier.EvenlySpacedIsStraight | src/libs/calculation/src/bezier.cc:27-35 | a curve whose inner control points split the segment in thirds is that segment, traversed at constant speed |
| CubicBezier.EstimateParameter | src/libs/calculation/src/bezier.cc:41-42 | the estimate's parameters i / 14 are never negative |
| CubicBezier.EstimateRoute | src/libs/calculation/src/bezier.cc:37-49 | the estimate walks from `cp1` through the curve at t = 0, 2/14, ..., 14/14: nine points ending at `cp4` |
| CubicBezier.EstimatedLength | scripts/helper/bezier.ts:24-36 | the estimate is never negative |
| CubicBezier.EstimateAtLeastEndToEnd | src/libs/calculation/src/bezier.cc:37-49 | for a true distance the estimate is at least the distance between the curve's end points |
| CubicBezier.Parameter | src/libs/calculation/src/bezier.cc:13 | the sample parameter lies in [0, 1], is 0 at the first sample and 1 at the last; a lone sample sits at 0, the corrected value where bezier.cc:13 divides 0 by 0 |
| CubicBezier.ParameterIsRatio | scripts/helper/bezier.ts:107 | with two samples or more it is the plain ratio i / (n - 1) |
| CubicBezier.SampleRoute | src/libs/calculation/src/bezier.cc:10-15 | the start point followed by the n samples in order |
| CubicBezier.Sampled | src/libs/calculation/src/bezier.cc:12-24 | n samples give n nodes |
| CubicBezier.SampledSpansCurve | scripts/helper/bezier.ts:101-118 | with two samples or more the table starts on the first control point (at the chord from it to itself), ends on the last, and its length is the walk through every sample |
| BezierCc.NodeCount | src/libs/calculation/src/bezier.cc:6 | the `(int)` cast truncates the non-negative `estimate * 20` |
| BezierCc.ParameterAsWritten | src/libs/calculation/src/bezier.cc:13 | the parameter as written is undefined (0 / 0) exactly for a lone node, and otherwise the intended parameter |
| BezierCc.ShortCurvePoint | src/libs/calculation/src/bezier.cc:41-45 | on a straight 0.06-long curve the estimate visits evenly spaced points of the x axis |
| BezierCc.ShortEstimate | src/libs/calculation/src/bezier.cc:37-49 | that curve's estimate is exactly its length 0.06 |
| BezierCc.LoneNodeHasNoParameter | src/libs/calculation/src/bezier.cc:6-13 | for that curve `evaluate` makes exactly one node, whose parameter is 0 / 0 |
| BezierCc.Evaluated | src/libs/calculation/src/bezier.cc:4-25 | the table has exactly `(int)(estimate_length() * 20)` nodes, none when that is 0; it is the corrected table, whose lone node sits at `cp1` with distance 0 where the source's parameter is 0 / 0 |
| BezierCc.PositionAtDistanceAsWritten | src/libs/calculation/src/bezier.cc:51-70 | the origin below two nodes; undefined exactly when the search runs past the last node, since `isLast` never holds |
| BezierCc.PastTheEndIsUndefined | src/libs/calculation/src/bezier.cc:55-61 | two nodes 1 apart, looked up at distance 2, reach `*nodes.end()` |
| BezierCc.AsWrittenAgreesWithinLength | src/libs/calculation/src/bezier.cc:51-70 | up to the last node's distance the code as written and the corrected look-up agree |
| BezierCc.PositionAtDistanceBrackets | src/libs/calculation/src/bezier.cc:51-70 | on a table in distance order the look-up answers the first node up to its distance, the last node past the end, and inside blends the two nodes bracketing the distance |
| BezierCc.PositionAtNodeDistance | src/libs/calculation/src/bezier.cc:63-69 | at a node's own distance, when it lies clearly beyond its predecessor, the look-up answers that node |
| BezierCc.EvaluatedEnds | src/libs/calculation/src/bezier.cc:51-70 | on an evaluated table of two nodes or more, the corrected look-up gives `cp1` for distances up to 0 and `cp4` for distances past the length, where the source dereferences `end()` |
| BezierCc.Bezier.constructor | src/libs/calculation/src/bezier.cc:4-25 | stores the control points and leaves the evaluated table |
| BezierCc.Bezier.EstimateLength | src/libs/calculation/src/bezier.cc:37-49 | the loop (with `i += 2` up to 14) returns the eight-chord estimate |
| BezierCc.Bezier.Evaluate | src/libs/calculation/src/bezier.cc:4-25 | clears the table, then the loop with running `distance` and `lastPos` builds exactly the corrected evaluated table (a lone node at parameter 0, not 0 / 0) |
| BezierCc.Bezier.Length | src/libs/calculation/src/bezier.cc:72-76 | `length()` is the walk through every sample of the evaluated curve |
| BezierCc.Bezier.PositionAt | src/libs/calculation/src/bezier.cc:51-70 | the corrected look-up on the evaluated table: the origin below two nodes; `cp1` at or before distance 0; `cp4` past the length, where the source dereferences `end()` |
| BezierTs.EstimateLength | scripts/helper/bezier.ts:24-36 | the loop returns the eight-chord estimate shared with bezier.cc |
| BezierTs.EvaluatedCount | scripts/helper/bezier.ts:103 | `evaluate` always makes at least two nodes |
| BezierTs.Evaluate | scripts/helper/bezier.ts:94-121 | the loop with running `distance` and `lastPosition` builds exactly the table of that many samples |
| BezierTs.PositionAtDistanceAsWritten | scripts/helper/bezier.ts:43-67 | the answer and the table after the call: same length, with the node before the answer moved by `lerp` |
| BezierTs.PositionAtDistance | scripts/helper/bezier.ts:43-67 | the origin below two nodes |
| BezierTs.AsWrittenAnswersThenMoves | scripts/helper/bezier.ts:66 | the code as written answers what the pure look-up answers, changes no distance and no position except by moving a node onto the answer, and never moves the last node |
| BezierTs.GetPositionAtDistance | scripts/helper/bezier.ts:43-67 | on the stored array: returns the answer and leaves the array as `PositionAtDistanceAsWritten` describes; names the node whose position object it returned, or none for the fresh origin |
| BezierTs.AnswerNode | scripts/helper/bezier.ts:51-66 | on two nodes or more the returned object is a node's own position, and after the call that node holds the answer |
| BezierTs.AsWrittenKeepsDistances | scripts/helper/bezier.ts:66 | a look-up as written changes no distance and never moves the last node |
| BezierTs.LadderSearch | scripts/helper/bezier.ts:46 | on distances 0, 10, 20 the search stops at the first node whose distance exceeds the target (index 1 for 5) |
| BezierTs.LadderLookUp | scripts/helper/bezier.ts:43-66 | on distances 0, 10, 20 a look-up below 10 returns the first node's object moved by the blend, from 10 to 20 the second node's, from 20 on the last node's unmoved |
| BezierTs.RepeatedQueryDrifts | scripts/helper/bezier.ts:66 | asking the same distance twice gives two different answers, because the first call moved a stored node |
| BezierTs.PositionAtDistanceBrackets | scripts/helper/bezier.ts:43-67 | on a table in distance order the pure look-up answers the first node before its distance, the last node from the last distance on, and inside blends the nodes with distance(current) <= at < distance(next) |
| BezierTs.UniformDistance | scripts/helper/bezier.ts:82 | the even distances start at 0 and end at the length |
| BezierTs.Uniform | scripts/helper/bezier.ts:80-89 | n nodes of the intended re-sampling, with a look-up that leaves the table alone |
| BezierTs.FineTable | scripts/helper/bezier.ts:77 | the fine table at resolution 40 has at least two nodes |
| BezierTs.UniformTable | scripts/helper/bezier.ts:69-92 | the intended `evaluateUniform` yields at least two nodes |
| BezierTs.LookUps | scripts/helper/bezier.ts:80-88 | after look-ups as written the table keeps its length, and every returned object is the position of a node of the table |
| BezierTs.UniformAsWritten | scripts/helper/bezier.ts:69-92 | `evaluateUniform` as written yields n nodes |
| BezierTs.UniformLookUps | scripts/helper/bezier.ts:80-88 | the loop leaves the fine table, and the node of each pushed object, as the look-ups as written do |
| BezierTs.EvaluateUniform | scripts/helper/bezier.ts:69-92 | returns exactly the re-sampling as written: node i has the i-th even distance and shares the position object its look-up returned, as later look-ups left it |
| BezierTs.EvaluateUniformCorrected | scripts/helper/bezier.ts:69-92 | the same loop with a look-up that leaves the table alone builds exactly the intended re-sampling |
| BezierTs.LookUpsKeepDistances | scripts/helper/bezier.ts:66 | look-ups as written change no distance of the fine table and never move its last node |
| BezierTs.UniformAsWrittenAgreesAtEnd | scripts/helper/bezier.ts:69-92 | on a table in distance order the re-sampling as written has the intended distances and the intended last node, the table's last node |
| BezierTs.LadderLookUps | scripts/helper/bezier.ts:80-88 | on nodes a, b, c at 0, 10, 20 the look-ups at 0, 5, 10, 15, 20 move a onto the midpoint of a and b and b onto the midpoint of b and c, and return the objects of a, a, b, b, c |
| BezierTs.UniformAsWrittenDrifts | scripts/helper/bezier.ts:66-88 | on that table the five samples as written are the two midpoints twice each and then c, where a, the midpoint of a and b, b, the midpoint of b and c, c are intended |
| BezierTs.UniformSamplesLadder | scripts/helper/bezier.ts:80-88 | the intended five samples of that table are a, the midpoint of a and b, b, the midpoint of b and c, c |
| BezierTs.UniformNode | scripts/helper/bezier.ts:82-88 | in the intended re-sampling node i is the position looked up at the i-th even distance, with that distance |
| BezierTs.UniformEvenlySpaced | scripts/helper/bezier.ts:80-89 | the intended re-sampled distances run from 0 to the table's length in equal steps of length / (n - 1) |
| BezierTs.UniformEndsOnLastNode | scripts/helper/bezier.ts:80-89 | on a table in distance order the last node of the intended re-sampling sits on the table's last node |
| BezierTs.UniformTableEndsOnCurveEnd | scripts/helper/bezier.ts:69-92 | what the intended `evaluateUniform` yields ends on the curve's end point |
| BezierTs.EvenStep | scripts/helper/bezier.ts:82 | neighbouring even distances differ by length / (n - 1) |
| NoLimitsBytes.Pow256 | src/helper/nl2park/nolimits-stream.ts:72-118 | the width factor 256^w is positive |
| NoLimitsBytes.BigEndian | src/helper/nl2park/nolimits-stream.ts:202-233 | `DataView` setters store exactly w bytes |
| NoLimitsBytes.FromBigEndian | src/helper/nl2park/nolimits-stream.ts:72-118 | the `DataView` getters read an unsigned number below 256^w |
| NoLimitsBytes.ModUnique | src/helper/nl2park/nolimits-stream.ts:217-233 | Euclidean remainders are unique, so a stored word determines the value modulo 2^32 |
| NoLimitsBytes.ModStep | src/helper/nl2park/nolimits-stream.ts:202-233 | reducing modulo 256 * m one byte at a time gives the same remainder |
| NoLimitsBytes.BigEndianRoundTrip | src/helper/nl2park/nolimits-stream.ts:72-118 | reading w big-endian bytes back gives the value modulo 256^w |
| NoLimitsBytes.Low8 | src/helper/nl2park/nolimits-stream.ts:322 | `value & 0xff` keeps values already in 0..255 |
| NoLimitsBytes.WordWidth | src/helper/nl2park/nolimits-stream.ts:217-224 | a value survives `setUint32` unchanged exactly when it is a uint32 |
| NoLimitsBytes.Zeros | src/helper/nl2park/nolimits-stream.ts:310-315 | `writeNull(n)` stores n bytes |
| NoLimitsBytes.U8Bytes | src/helper/nl2park/nolimits-stream.ts:317-324 | `writeUnsigned8` stores one byte |
| NoLimitsBytes.BoolBytes | src/helper/nl2park/nolimits-stream.ts:235-242 | `writeBoolean` stores one byte |
| NoLimitsBytes.WordBytes | src/helper/nl2park/nolimits-stream.ts:217-233 | `writeInteger` and `writeUnsignedInteger` store four bytes |
| NoLimitsBytes.DoubleBytes | src/helper/nl2park/nolimits-stream.ts:202-209 | `writeDouble` stores eight bytes |
| NoLimitsBytes.ColorBytes | src/helper/nl2park/nolimits-stream.ts:338-352 | a colour takes three bytes |
| NoLimitsBytes.CharBytes | src/helper/nl2park/nolimits-stream.ts:330-333 | the characters of a string take two bytes each |
| NoLimitsBytes.StringBytes | src/helper/nl2park/nolimits-stream.ts:326-336 | `writeString` stores 2 * (length + 1) bytes |
| NoLimitsBytes.U8At | src/helper/nl2park/nolimits-stream.ts:120-124 | a byte read is in 0..255 |
| NoLimitsBytes.BoolAt | src/helper/nl2park/nolimits-stream.ts:126-127 | `readBoolean` is true only on a byte inside the content (past the end `!!undefined` is false) |
| NoLimitsBytes.Uint32At | src/helper/nl2park/nolimits-stream.ts:84-94 | `getUint32` gives a uint32 |
| NoLimitsBytes.Int32At | src/helper/nl2park/nolimits-stream.ts:72-82 | `getInt32` gives a signed 32-bit value |
| NoLimitsBytes.ColorAt | src/helper/nl2park/nolimits-stream.ts:178-179 | each component read is a byte |
| NoLimitsBytes.StringAt | src/helper/nl2park/nolimits-stream.ts:188-200 | a string read, when it stops, ends 2 * (length + 1) bytes on, inside the content |
| NoLimitsBytes.WordRoundTrip | src/helper/nl2park/nolimits-stream.ts:84-94 | `readUnsignedInteger` reads back what `writeUnsignedInteger` stored, modulo 2^32 |
| NoLimitsBytes.IntegerRoundTrip | src/helper/nl2park/nolimits-stream.ts:72-82 | `readInteger` reads back every signed 32-bit value `writeInteger` stored |
| NoLimitsBytes.DoubleRoundTrip | src/helper/nl2park/nolimits-stream.ts:108-118 | `readDouble` reads back the binary64 pattern `writeDouble` stored |
| NoLimitsBytes.FloatRoundTrip | src/helper/nl2park/nolimits-stream.ts:96-106 | `getFloat32` reads back the binary32 pattern `setFloat32` stored |
| NoLimitsBytes.CharBytesFront | src/helper/nl2park/nolimits-stream.ts:330-333 | the character bytes can be peeled from the front |
| NoLimitsBytes.Piece | src/helper/nl2park/nolimits-stream.ts:244-256 | bytes appended after a prefix sit right after it in anything that starts with both |
| NoLimitsBytes.ZerosPiece | src/helper/nl2park/nolimits-stream.ts:181-186 | padding written with `writeNull` is there to skip |
| NoLimitsBytes.U8Piece | src/helper/nl2park/nolimits-stream.ts:120-124 | a written byte reads back masked with `& 0xff` |
| NoLimitsBytes.BoolPiece | src/helper/nl2park/nolimits-stream.ts:126-127 | a written boolean reads back unchanged |
| NoLimitsBytes.WordPiece | src/helper/nl2park/nolimits-stream.ts:84-94 | a written word reads back modulo 2^32, unchanged for a uint32 |
| NoLimitsBytes.DoublePiece | src/helper/nl2park/nolimits-stream.ts:108-118 | a written double reads back unchanged |
| NoLimitsBytes.FloatPiece | src/helper/nl2park/nolimits-stream.ts:96-106 | four float bytes read back unchanged |
| NoLimitsBytes.MaskColor | src/helper/nl2park/nolimits-stream.ts:338-352 | a colour reads back unchanged exactly when every component is in 0..255 |
| NoLimitsBytes.ColorPiece | src/helper/nl2park/nolimits-stream.ts:178-179 | a written colour reads back with each component masked to a byte |
| NoLimitsBytes.StringPiece | src/helper/nl2park/nolimits-stream.ts:188-200 | `readString` reads back a string whose code units are all in 1..255 and stops right after its two closing zeros |
| NoLimitsBytes.StringSlice | src/helper/nl2park/nolimits-stream.ts:188-200 | the same for string bytes known to sit at a position |
| NoLimitsBytes.ByteStringsTail | src/helper/nl2park/nolimits-stream.ts:188-200 | the strings after the first of a readable list are readable |
| NoLimitsStream.Stream.constructor | src/helper/nl2park/nolimits-stream.ts:11-17 | `fromUint8Array` holds the given content and position |
| NoLimitsStream.Stream.Write | src/helper/nl2park/nolimits-stream.ts:244-256 | the content becomes the old content followed by the bytes (old bytes unchanged); the cursor moves by their count |
| NoLimitsStream.Stream.WriteDouble | src/helper/nl2park/nolimits-stream.ts:202-209 | appends the eight bytes of the value |
| NoLimitsStream.Stream.WriteFloat | src/helper/nl2park/nolimits-stream.ts:211-215 | appends eight bytes: the four float bytes, then four zeros |
| NoLimitsStream.Stream.WriteFloat32 | src/helper/nl2park/nolimits-stream.ts:96-106 | the intended `writeFloat`: appends the four bytes `readFloat` consumes |
| NoLimitsStream.Stream.WriteUnsignedInteger | src/helper/nl2park/nolimits-stream.ts:217-224 | appends the value modulo 2^32 in four bytes |
| NoLimitsStream.Stream.WriteInteger | src/helper/nl2park/nolimits-stream.ts:226-233 | appends the value's four two's-complement bytes |
| NoLimitsStream.Stream.WriteBoolean | src/helper/nl2park/nolimits-stream.ts:235-242 | appends 1 or 0 |
| NoLimitsStream.Stream.WriteNull | src/helper/nl2park/nolimits-stream.ts:310-315 | appends the given number of zeros |
| NoLimitsStream.Stream.WriteUnsigned8 | src/helper/nl2park/nolimits-stream.ts:317-324 | appends `value & 0xff` |
| NoLimitsStream.Stream.WriteString | src/helper/nl2park/nolimits-stream.ts:326-336 | the loop appends a zero and the masked code unit per character, then two zeros |
| NoLimitsStream.Stream.WriteColor | src/helper/nl2park/nolimits-stream.ts:338-352 | `writeColor`, which is `writeUnsigned8Vector3`: appends the three masked components |
| NoLimitsStream.Stream.WriteDoubleVector4 | src/helper/nl2park/nolimits-stream.ts:258-266 | appends the four doubles in order |
| NoLimitsStream.Stream.WriteDoubleVector3 | src/helper/nl2park/nolimits-stream.ts:293-300 | appends the three doubles in order |
| NoLimitsStream.Stream.WriteDoubleVector2 | src/helper/nl2park/nolimits-stream.ts:302-308 | appends the two doubles in order |
| NoLimitsStream.Stream.WriteIntegerVector2 | src/helper/nl2park/nolimits-stream.ts:268-274 | appends the two words in order |
| NoLimitsStream.Stream.WriteFloatVector2 | src/helper/nl2park/nolimits-stream.ts:276-282 | appends two 8-byte floats, each padded with four zeros |
| NoLimitsStream.Stream.WriteFloatVector3 | src/helper/nl2park/nolimits-stream.ts:284-291 | appends three 8-byte floats, each padded with four zeros |
| NoLimitsStream.Stream.ReadInteger | src/helper/nl2park/nolimits-stream.ts:72-82 | the signed word at the cursor; the cursor moves 4 |
| NoLimitsStream.Stream.ReadUnsignedInteger | src/helper/nl2park/nolimits-stream.ts:84-94 | the unsigned word at the cursor; the cursor moves 4 |
| NoLimitsStream.Stream.ReadFloat | src/helper/nl2park/nolimits-stream.ts:96-106 | the float at the cursor; the cursor moves 4 |
| NoLimitsStream.Stream.ReadDouble | src/helper/nl2park/nolimits-stream.ts:108-118 | the double at the cursor; the cursor moves 8 |
| NoLimitsStream.Stream.ReadUnsigned8 | src/helper/nl2park/nolimits-stream.ts:120-124 | the byte at the cursor; the cursor moves 1 |
| NoLimitsStream.Stream.ReadBoolean | src/helper/nl2park/nolimits-stream.ts:126-127 | whether the byte at the cursor is non-zero (false past the end); the cursor moves 1 |
| NoLimitsStream.Stream.ReadColor | src/helper/nl2park/nolimits-stream.ts:137-143 | `readColor`, which is `readUnsigned8Vector3`: three bytes in order; the cursor moves 3 |
| NoLimitsStream.Stream.ReadDoubleVector4 | src/helper/nl2park/nolimits-stream.ts:169-176 | four doubles in order; the cursor moves 32 |
| NoLimitsStream.Stream.ReadDoubleVector3 | src/helper/nl2park/nolimits-stream.ts:161-167 | three doubles in order; the cursor moves 24 |
| NoLimitsStream.Stream.ReadDoubleVector2 | src/helper/nl2park/nolimits-stream.ts:157-159 | two doubles in order; the cursor moves 16 |
| NoLimitsStream.Stream.ReadIntegerVector2 | src/helper/nl2park/nolimits-stream.ts:129-131 | two signed words in order; the cursor moves 8 |
| NoLimitsStream.Stream.ReadUnsigned8Vector2 | src/helper/nl2park/nolimits-stream.ts:133-135 | two bytes in order; the cursor moves 2 |
| NoLimitsStream.Stream.ReadFloatVector2 | src/helper/nl2park/nolimits-stream.ts:145-147 | two 4-byte floats; the cursor moves 8 |
| NoLimitsStream.Stream.ReadFloatVector3 | src/helper/nl2park/nolimits-stream.ts:149-155 | three 4-byte floats; the cursor moves 12 |
| NoLimitsStream.Stream.ReadNull | src/helper/nl2park/nolimits-stream.ts:181-186 | the cursor skips the count; the content is unchanged |
| NoLimitsStream.Stream.ReadString | src/helper/nl2park/nolimits-stream.ts:188-200 | the loop returns the string `StringAt` decodes and leaves the cursor after its closing pair |
| NoLimitsStream.FloatPairMisread | src/helper/nl2park/nolimits-stream.ts:96-106 | two floats written with `writeFloat` as written do not read back with two `readFloat`s: the second read meets the first value's padding |
| NoLimitsStream.FloatPairRoundTrip | src/helper/nl2park/nolimits-stream.ts:96-106 | with 4-byte floats, consecutive floats read back in order |
| NoLimitsChunks.TrimStartDrops | src/helper/nl2park/nolimits-stream.ts:62 | the start-trim drops only white space and keeps a suffix that does not start with it |
| NoLimitsChunks.TrimEndDrops | src/helper/nl2park/nolimits-stream.ts:62 | the end-trim drops only white space and keeps a prefix that does not end with it |
| NoLimitsChunks.TrimIsInnerRun | src/helper/nl2park/nolimits-stream.ts:62 | `trim()` keeps one run of the name, with only white space around it and none at its ends |
| NoLimitsChunks.TrimKeeps | src/helper/nl2park/nolimits-stream.ts:62 | a name without white space at its ends is left unchanged |
| NoLimitsChunks.Widen | src/helper/nl2park/nolimits-stream.ts:40 | `String.fromCharCode(...slice)` gives one code unit of the same value per byte |
| NoLimitsChunks.ChunkNameAt | src/helper/nl2park/nolimits-stream.ts:35-41 | the name is at most four characters, exactly the four bytes at the offset when they are inside the content |
| NoLimitsChunks.ReadChunkName | src/helper/nl2park/nolimits-stream.ts:35-41 | returns the name at the cursor; the cursor moves 4 even past the end |
| NoLimitsChunks.FromChunk | src/helper/nl2park/nolimits-stream.ts:25-33 | reads a signed length, returns a fresh stream at 0 over the bytes after it, and leaves the cursor after them |
| NoLimitsChunks.FindReader | src/helper/nl2park/nolimits-stream.ts:63 | the index found holds a reader registered under the name |
| NoLimitsChunks.FindReaderFirst | src/helper/nl2park/nolimits-stream.ts:63 | `find` answers the first such reader, and nothing exactly when no reader has the name |
| NoLimitsChunks.PickedAt | src/helper/nl2park/nolimits-stream.ts:59-63 | the table of picked readers gives, at each offset, the reader registered under the trimmed name there |
| NoLimitsChunks.ScanSkips | src/helper/nl2park/nolimits-stream.ts:59-69 | at an offset with no reader the loop moves to the next offset |
| NoLimitsChunks.ScanTakes | src/helper/nl2park/nolimits-stream.ts:65-67 | at an offset with a reader the loop hands it the bytes after the length and resumes after them |
| NoLimitsChunks.ScanHands | src/helper/nl2park/nolimits-stream.ts:65-67 | the same, for a chunk whose length and bytes are known |
| NoLimitsChunks.ScanEnds | src/helper/nl2park/nolimits-stream.ts:59 | past the end of the content the loop stops |
| NoLimitsChunks.ScanVisits | src/helper/nl2park/nolimits-stream.ts:65-67 | in a scan that returns, each chunk handed over lies strictly after its offset |
| NoLimitsChunks.PickReader | src/helper/nl2park/nolimits-stream.ts:60-63 | moves to the offset, reads and trims the name, and returns the reader the table has for that offset |
| NoLimitsChunks.ReadChunks | src/helper/nl2park/nolimits-stream.ts:52-70 | the loop hands the readers exactly the chunks of the scan, in order, and leaves the cursor where the scan does |
| NoLimitsChunks.ChunkNameBytes | src/helper/nl2park/nolimits-stream.ts:354-361 | `writeChunkName` always stores four bytes |
| NoLimitsChunks.WriteChunkName | src/helper/nl2park/nolimits-stream.ts:354-361 | the loop appends `charCodeAt(i) & 0xff` for the four positions, 0 past the end of the name |
| NoLimitsChunks.WriteChunk | src/helper/nl2park/nolimits-stream.ts:363-376 | appends nothing for an empty payload, else the length, the name and the payload |
| NoLimitsChunks.WrittenChunkMisread | src/helper/nl2park/nolimits-stream.ts:363-376 | a chunk written as written is misread by `readChunks`: the reader of ABCD gets no bytes instead of its four-byte payload |
| NoLimitsChunks.WrittenChunkScan | src/helper/nl2park/nolimits-stream.ts:59-69 | the scan of the twelve bytes of that chunk hands the reader nothing |
| NoLimitsChunks.WrittenChunkPicks | src/helper/nl2park/nolimits-stream.ts:59-69 | in those bytes the reader is picked at offset 4, where the word after the name is 1 |
| NoLimitsChunks.AbcdPlain | src/helper/nl2park/nolimits-stream.ts:354-361 | the name ABCD survives `writeChunkName` and `trim` unchanged |
| NoLimitsChunks.SkipsMiss | src/helper/nl2park/nolimits-stream.ts:59-69 | in those bytes no reader is picked at offsets 0 to 3 |
| NoLimitsChunks.NameRead | src/helper/nl2park/nolimits-stream.ts:35-41 | a four-character byte-sized name written by `writeChunkName` reads back as written |
| NoLimitsChunks.NameMisses | src/helper/nl2park/nolimits-stream.ts:62-63 | an offset whose first byte differs from the only reader's name picks no reader |
| NoLimitsChunks.WriteChunkNameFirst | src/helper/nl2park/nolimits-stream.ts:363-376 | the intended `writeChunk`: appends the name, then the length, then the payload |
| NoLimitsChunks.FramedChunkFound | src/helper/nl2park/nolimits-stream.ts:52-70 | with the name first, a scan reaching the chunk hands its reader exactly the payload and resumes after it |
| NoLimitsChunks.FramedSplit | src/helper/nl2park/nolimits-stream.ts:363-376 | a chunk framed name first splits into name, length and payload |
| NoLimitsChunks.FramedLength | src/helper/nl2park/nolimits-stream.ts:25-33 | the length word after the name counts the payload that follows |
| NoLimitsChunks.FramedName | src/helper/nl2park/nolimits-stream.ts:59-63 | the reader picked at the chunk's start is the one registered under its name |
| NoLimitsChunks.ShortNameReadsPadded | src/helper/nl2park/nolimits-stream.ts:354-361 | a name shorter than four characters reads back padded with NUL characters, which `trim` keeps |
| NoLimitsBrakeSection.BrakeWritten | src/helper/nl2park/section/brake-section.ts:70-101 | `writeBrakeSection` appends 193 bytes and leaves what was there |
| NoLimitsBrakeSection.MaskBrake | src/helper/nl2park/section/brake-section.ts:74-90 | the masked record equals the record exactly when its four byte fields are in 0..255 |
| NoLimitsBrakeSection.WriteBrakeSection | src/helper/nl2park/section/brake-section.ts:70-101 | appends the fields and the nested transport device in source order, with 23 and 75 padding bytes |
| NoLimitsBrakeSection.ReadBrakeSection | src/helper/nl2park/section/brake-section.ts:15-68 | reads the fields at their offsets; the cursor moves 193 |
| NoLimitsBrakeSection.BrakeRoundTrip | src/helper/nl2park/section/brake-section.ts:15-101 | reading a written brake section gives the record with its byte fields masked, which is the record exactly when they are in 0..255 |
| NoLimitsLiftSection.LiftWritten | src/helper/nl2park/section/lift-section.ts:46-66 | `writeLiftSection` appends 72 bytes and leaves what was there |
| NoLimitsLiftSection.MaskLift | src/helper/nl2park/section/lift-section.ts:46-66 | the masked record equals the record exactly when the lift type and motor location are in 0..255 |
| NoLimitsLiftSection.WriteLiftSection | src/helper/nl2park/section/lift-section.ts:46-66 | appends the fields in source order with their padding |
| NoLimitsLiftSection.ReadLiftSection | src/helper/nl2park/section/lift-section.ts:15-44 | reads the fields at their offsets; the cursor moves 72 |
| NoLimitsLiftSection.LiftRoundTrip | src/helper/nl2park/section/lift-section.ts:15-66 | reading a written lift section gives the masked record, which is the record exactly when its byte fields are in 0..255 |
| NoLimitsTransportSection.TransportWritten | src/helper/nl2park/section/transport-section.ts:41-54 | `writeTransportSection` appends 64 bytes and leaves what was there |
| NoLimitsTransportSection.MaskTransport | src/helper/nl2park/section/transport-section.ts:41-54 | the masked record equals the record exactly when the type is a byte and the pass count a uint32 |
| NoLimitsTransportSection.WriteTransportSection | src/helper/nl2park/section/transport-section.ts:41-54 | appends the fields in source order, then 26 padding bytes |
| NoLimitsTransportSection.ReadTransportSection | src/helper/nl2park/section/transport-section.ts:19-39 | reads the fields at their offsets; the cursor moves 64 |
| NoLimitsTransportSection.TransportRoundTrip | src/helper/nl2park/section/transport-section.ts:19-54 | reading a written transport section gives the masked record, which is the record exactly when it is in range |
| NoLimitsStorageSection.StorageWritten | src/helper/nl2park/section/storage-section.ts:36-49 | `writeStorageSection` appends 32 bytes and leaves what was there |
| NoLimitsStorageSection.MaskStorage | src/helper/nl2park/section/storage-section.ts:36-49 | the masked record equals the record exactly when its byte fields and colours are in 0..255 |
| NoLimitsStorageSection.WriteStorageSection | src/helper/nl2park/section/storage-section.ts:36-49 | appends the flag, two bytes, three colours and 20 padding bytes |
| NoLimitsStorageSection.ReadStorageSection | src/helper/nl2park/section/storage-section.ts:15-34 | reads the fields at their offsets; the cursor moves 32 |
| NoLimitsStorageSection.StorageRoundTrip | src/helper/nl2park/section/storage-section.ts:15-49 | reading a written storage section gives the masked record, which is the record exactly when it is in range |
| NoLimitsStationSection.IdsBytes | src/helper/nl2park/section/station-section.ts:144-146 | the ids take four bytes each |
| NoLimitsStationSection.StationHeadBytes | src/helper/nl2park/section/station-section.ts:112-143 | the fields up to the id count take 97 bytes |
| NoLimitsStationSection.StationTailBytes | src/helper/nl2park/section/station-section.ts:148-162 | the fields after the ids take 165 bytes |
| NoLimitsStationSection.StationWritten | src/helper/nl2park/section/station-section.ts:108-163 | `writeStationSection` appends 262 bytes plus four per id, and leaves what was there |
| NoLimitsStationSection.MaskIds | src/helper/nl2park/section/station-section.ts:144-146 | the ids read back unchanged exactly when they are all uint32 values |
| NoLimitsStationSection.MaskStation | src/helper/nl2park/section/station-section.ts:108-163 | the masked record equals the record exactly when every byte field, colour, station number and id is in range |
| NoLimitsStationSection.WriteStationSection | src/helper/nl2park/section/station-section.ts:108-163 | appends the head, the ids and the tail |
| NoLimitsStationSection.WriteStationHead | src/helper/nl2park/section/station-section.ts:112-143 | appends the fields up to the id count |
| NoLimitsStationSection.WriteStationTail | src/helper/nl2park/section/station-section.ts:148-162 | appends the fields after the ids and 142 padding bytes |
| NoLimitsStationSection.WriteIds | src/helper/nl2park/section/station-section.ts:144-146 | the loop appends each id as a uint32 |
| NoLimitsStationSection.ReadStationSection | src/helper/nl2park/section/station-section.ts:19-106 | returns the record and end position that decoding gives |
| NoLimitsStationSection.ReadStationDevice | src/helper/nl2park/section/station-section.ts:20-38 | reads the transport, brake and wait-time fields at their offsets; the cursor moves 83 |
| NoLimitsStationSection.ReadStationTail | src/helper/nl2park/section/station-section.ts:55-69 | reads the fields after the ids at their offsets; the cursor moves 165 |
| NoLimitsStationSection.ReadIds | src/helper/nl2park/section/station-section.ts:48-53 | the loop reads as many uint32 ids as the count says, in order |
| NoLimitsStationSection.IdsAtSnoc | src/helper/nl2park/section/station-section.ts:51-53 | reading one more id appends it |
| NoLimitsStationSection.MaskIdsSnoc | src/helper/nl2park/section/station-section.ts:144-146 | masking one more id appends its mask |
| NoLimitsStationSection.IdsPiece | src/helper/nl2park/section/station-section.ts:48-53 | written ids read back modulo 2^32 |
| NoLimitsStationSection.StationAt | src/helper/nl2park/section/station-section.ts:19-106 | fields laid out at their offsets decode to the masked record |
| NoLimitsStationSection.MaskedRead | src/helper/nl2park/section/station-section.ts:19-106 | a read giving the masked record gives the record exactly when it is in range |
| NoLimitsStationSection.StationRoundTrip | src/helper/nl2park/section/station-section.ts:19-163 | with fewer than 256 ids, reading a written station gives the masked record and ends where the writing did; that is the record exactly when it is in range |
| NoLimitsStationSection.StationCount | src/helper/nl2park/section/station-section.ts:48-53 | a read returns as many ids as its count byte says |
| NoLimitsStationSection.StationCountWraps | src/helper/nl2park/section/station-section.ts:140-146 | with 256 ids or more the count byte wraps, so a read returns fewer ids than were written |
| NoLimitsCustomFriction.FrictionWritten | src/helper/nl2park/coaster/custom-friction.ts:23-31 | `writeCustomFriction` appends 48 bytes and leaves what was there |
| NoLimitsCustomFriction.WriteCustomFriction | src/helper/nl2park/coaster/custom-friction.ts:23-31 | appends the two doubles and 32 padding bytes |
| NoLimitsCustomFriction.ReadCustomFriction | src/helper/nl2park/coaster/custom-friction.ts:11-21 | reads the two doubles; the cursor moves 48 |
| NoLimitsCustomFriction.FrictionRoundTrip | src/helper/nl2park/coaster/custom-friction.ts:11-31 | reading a written friction gives it back |
| NoLimitsScript.ScriptWritten | src/helper/nl2park/coaster/script.ts:46-64 | `writeScript` appends 16 bytes plus the two strings and the resources, and leaves what was there |
| NoLimitsScript.WriteScript | src/helper/nl2park/coaster/script.ts:46-64 | appends 4 zeros, the strings, the resource count, the resources, the inverted flag and 7 zeros |
| NoLimitsScript.WriteResources | src/helper/nl2park/coaster/script.ts:56-59 | the loop appends each resource's id and path |
| NoLimitsScript.ReadScript | src/helper/nl2park/coaster/script.ts:15-44 | returns the script and end position that decoding gives |
| NoLimitsScript.ReadResources | src/helper/nl2park/coaster/script.ts:26-33 | the loop reads the counted resources in order |
| NoLimitsScript.ResourcesTurn | src/helper/nl2park/coaster/script.ts:27-33 | one turn of the read loop reads one resource and leaves the rest to read |
| NoLimitsScript.ResourcesDone | src/helper/nl2park/coaster/script.ts:27-33 | when the count is used up the loop has read everything |
| NoLimitsScript.ResourceSlice | src/helper/nl2park/coaster/script.ts:28-31 | a written resource of byte-sized strings reads back |
| NoLimitsScript.ResourcesHead | src/helper/nl2park/coaster/script.ts:56-59 | the first written resource reads back and the rest follow it |
| NoLimitsScript.ByteResourcesTail | src/helper/nl2park/coaster/script.ts:56-59 | the rest of a list of byte-sized resources is byte-sized |
| NoLimitsScript.ResourcesCons | src/helper/nl2park/coaster/script.ts:27-33 | a resource followed by decodable resources decodes as the list |
| NoLimitsScript.ResourcesNil | src/helper/nl2park/coaster/script.ts:27-33 | no resources decode to the empty list |
| NoLimitsScript.ScriptDecoded | src/helper/nl2park/coaster/script.ts:15-44 | fields laid out at their offsets decode to the script |
| NoLimitsScript.ScriptAt | src/helper/nl2park/coaster/script.ts:15-44 | written strings and resources at their offsets decode to the script |
| NoLimitsScript.ScriptStrings | src/helper/nl2park/coaster/script.ts:23-24 | the two written strings read back in order |
| NoLimitsScript.ScriptRoundTrip | src/helper/nl2park/coaster/script.ts:15-64 | reading a written script of byte-sized strings gives it back and ends where the writing did |
| NoLimitsFileScript.FileScriptWritten | src/helper/nl2park/coaster/file-script.ts:29-40 | `writeFileScript` appends 12 bytes plus each path and its 8 padding bytes, and leaves what was there |
| NoLimitsFileScript.WriteFileScript | src/helper/nl2park/coaster/file-script.ts:29-40 | appends the count, each path with 8 zeros, then 8 zeros |
| NoLimitsFileScript.ReadFileScript | src/helper/nl2park/coaster/file-script.ts:13-27 | returns the file script and end position that decoding gives |
| NoLimitsFileScript.PathsTurn | src/helper/nl2park/coaster/file-script.ts:17-20 | one turn of the read loop reads one path and skips its padding |
| NoLimitsFileScript.PathsDone | src/helper/nl2park/coaster/file-script.ts:17-20 | when the count is used up the loop has read everything |
| NoLimitsFileScript.PathsCons | src/helper/nl2park/coaster/file-script.ts:17-20 | a path followed by decodable paths decodes as the list |
| NoLimitsFileScript.FileScriptDecoded | src/helper/nl2park/coaster/file-script.ts:13-27 | a count and decodable paths decode to the file script |
| NoLimitsFileScript.PathsHead | src/helper/nl2park/coaster/file-script.ts:34-37 | the first written path reads back and the rest follow it |
| NoLimitsFileScript.PathsNil | src/helper/nl2park/coaster/file-script.ts:17-20 | no paths decode to the empty list |
| NoLimitsFileScript.FileScriptAt | src/helper/nl2park/coaster/file-script.ts:13-27 | written paths and count at their offsets decode to the file script |
| NoLimitsFileScript.FileScriptRoundTrip | src/helper/nl2park/coaster/file-script.ts:13-40 | reading a written file script of byte-sized paths gives it back and ends where the writing did |
| NoLimitsIndividualColor.IndividualColorWritten | src/helper/nl2park/coaster/individual-color.ts:48-68 | `writeIndividualColor` appends 36 bytes plus the textures, and leaves what was there |
| NoLimitsIndividualColor.MaskIndividualColor | src/helper/nl2park/coaster/individual-color.ts:48-68 | the masked record equals the record exactly when its colours are byte triples; the flag and textures are unchanged |
| NoLimitsIndividualColor.WriteIndividualColor | src/helper/nl2park/coaster/individual-color.ts:48-68 | appends the flag, five colours, 16 zeros, the texture count and the textures |
| NoLimitsIndividualColor.WriteTextures | src/helper/nl2park/coaster/individual-color.ts:63-67 | the loop appends each texture between 4 and 8 zeros |
| NoLimitsIndividualColor.ReadIndividualColor | src/helper/nl2park/coaster/individual-color.ts:17-46 | returns the record and end position that decoding gives |
| NoLimitsIndividualColor.ReadTextures | src/helper/nl2park/coaster/individual-color.ts:31-35 | the loop reads the counted textures in order |
| NoLimitsIndividualColor.TexturesTurn | src/helper/nl2park/coaster/individual-color.ts:31-35 | one turn of the read loop skips 4 bytes, reads a texture and skips 8 |
| NoLimitsIndividualColor.TexturesDone | src/helper/nl2park/coaster/individual-color.ts:31-35 | when the count is used up the loop has read everything |
| NoLimitsIndividualColor.TextureSlice | src/helper/nl2park/coaster/individual-color.ts:64-66 | the string of a written texture sits 4 bytes in |
| NoLimitsIndividualColor.TexturesHead | src/helper/nl2park/coaster/individual-color.ts:63-67 | the first written texture reads back and the rest follow it |
| NoLimitsIndividualColor.TexturesCons | src/helper/nl2park/coaster/individual-color.ts:31-35 | a texture followed by decodable textures decodes as the list |
| NoLimitsIndividualColor.TexturesNil | src/helper/nl2park/coaster/individual-color.ts:31-35 | no textures decode to the empty list |
| NoLimitsIndividualColor.IndividualColorDecoded | src/helper/nl2park/coaster/individual-color.ts:17-46 | fields at their offsets decode to the record |
| NoLimitsIndividualColor.IndividualColorAt | src/helper/nl2park/coaster/individual-color.ts:17-46 | written colours and textures at their offsets decode to the masked record |
| NoLimitsIndividualColor.IndividualColorRoundTrip | src/helper/nl2park/coaster/individual-color.ts:17-68 | reading a written record gives the masked record and ends where the writing did; that is the record exactly when its colours are byte triples |
| NoLimitsVertex.VertexWritten | src/helper/nl2park/track/vertex.ts:23-31 | `writeVertex` appends 56 bytes and leaves what was there |
| NoLimitsVertex.WriteVertex | src/helper/nl2park/track/vertex.ts:23-31 | appends the four position doubles, the two flags and 22 zeros |
| NoLimitsVertex.ReadVertex | src/helper/nl2park/track/vertex.ts:13-21 | reads the position and the flags; the cursor moves 56 |
| NoLimitsVertex.PositionRead | src/helper/nl2park/track/vertex.ts:13-21 | the four written doubles read back as the position |
| NoLimitsVertex.VertexRoundTrip | src/helper/nl2park/track/vertex.ts:13-31 | reading a written vertex gives it back |
| NoLimitsRollPoint.RollPointWritten | src/helper/nl2park/track/roll-point.ts:22-30 | `writeRollPoint` appends 18 bytes and leaves what was there |
| NoLimitsRollPoint.DecodeRollPoint | src/helper/nl2park/track/roll-point.ts:12-20 | a read point is always tagged as a roll point |
| NoLimitsRollPoint.WriteRollPoint | src/helper/nl2park/track/roll-point.ts:22-30 | appends the two doubles and the two flags |
| NoLimitsRollPoint.ReadRollPoint | src/helper/nl2park/track/roll-point.ts:12-20 | reads the fields; the cursor moves 18 |
| NoLimitsRollPoint.RollPointRoundTrip | src/helper/nl2park/track/roll-point.ts:12-34 | a written point reads back tagged roll, which is the point itself exactly when `isRollPoint` holds for it |
| NoLimitsTriggerPoint.TriggerWritten | src/helper/nl2park/track/trigger-point.ts:41-50 | `writeTriggerPoint` appends 40 bytes plus the name's string bytes, and leaves what was there |
| NoLimitsTriggerPoint.MaskTrigger | src/helper/nl2park/track/trigger-point.ts:23-39 | the point reads back unchanged exactly when it is tagged trigger and its event is a byte |
| NoLimitsTriggerPoint.WriteTriggerPoint | src/helper/nl2park/track/trigger-point.ts:41-50 | appends the position, the name, 3 zeros, the event byte and 26 zeros |
| NoLimitsTriggerPoint.ReadTriggerPoint | src/helper/nl2park/track/trigger-point.ts:23-39 | returns the point and end position that decoding gives |
| NoLimitsTriggerPoint.TriggerRoundTrip | src/helper/nl2park/track/trigger-point.ts:13-50 | a written point with a byte-sized name reads back masked, ending where the writing did; a `TriggerTrainEvent` survives unchanged |
| NoLimitsParameter4DPoint.Parameter4DWritten | src/helper/nl2park/track/parameter-4d-point.ts:26-34 | `writeParameter4DPoint` appends 36 bytes and leaves what was there |
| NoLimitsParameter4DPoint.DecodeParameter4D | src/helper/nl2park/track/parameter-4d-point.ts:13-24 | a read point is always tagged parameter4D |
| NoLimitsParameter4DPoint.WriteParameter4DPoint | src/helper/nl2park/track/parameter-4d-point.ts:26-34 | appends the position, the angle and 20 zeros |
| NoLimitsParameter4DPoint.ReadParameter4DPoint | src/helper/nl2park/track/parameter-4d-point.ts:13-24 | reads the two doubles; the cursor moves 36 |
| NoLimitsParameter4DPoint.Parameter4DRoundTrip | src/helper/nl2park/track/parameter-4d-point.ts:13-34 | a written point reads back tagged parameter4D, which is the point itself exactly when it was so tagged |

## Left out

- Floating-point rounding is not modelled: coordinates, distances and parameters are exact reals, and `EPSILON`-style comparisons use the constants as reals.
- Orientation arithmetic (glm `lookAt`, quaternion `slerp`, `applyLookRelativeAt`) enters as a parameter or as opaque orientation data; only the positions and distances of the tables are modelled.
- The chord length (`glm::distance`, `Vector3.distanceTo`) is a parameter: any non-negative function of two points.
- BezierCc.Evaluated: is the corrected table; a curve whose estimate makes one node gets that node at `cp1` with distance 0, where bezier.cc:13 computes the parameter 0 / 0 (see Findings).
- BezierCc.EvaluatedEnds: is stated of the corrected look-up; past the last node's distance the source dereferences `end()` instead of answering `cp4` (see Findings, and `BezierCc.AsWrittenAgreesWithinLength` for where the two agree).
- BezierCc.Bezier.Evaluate: builds the corrected table of `BezierCc.Evaluated`, not the 0 / 0 parameter of a lone node.
- BezierCc.Bezier.PositionAt: answers with the corrected look-up, so past the length it gives `cp4` where the source dereferences `end()`.
- BezierTs.EvaluateUniform: positions are read as values once the loop is over; that the returned nodes share position objects with each other and with the discarded fine table, so that a caller's later change to one shows in the others, is not captured.
- `matrixAtDistanceWithoutTransition`, `positionAtX`, the roll-curve helpers and `fromPoints` of src/maths/curve.ts are outside the modelled core; so are `getPositionAtX` and `applyRollCurve` of scripts/src/maths/curve.ts.
- The NURBS curve evaluation (`deBoor`, `evaluate`, `estimateLength`, `fromPoints` in src/maths/nurbs.ts) is not part of this model; only the knot vectors and their domain are. The degree is a `nat`, so the degree of -1 that `fromPoints` passes for an empty point list is not modelled.
- `getLength`, `insertMatrix`, `insertPosition` and `createFromUniformSample` of scripts/src/maths/curve.ts have the same bodies as their counterparts in src/maths/curve.ts and are modelled once, by `Curve.Length`, `Curve.Curve.InsertMatrix`, `Curve.Curve.InsertPosition` and `Curve.FromUniformSample`.
- `fromArrayBuffer` and `toArrayBuffer` only wrap or unwrap an `ArrayBuffer` around the same bytes; the model's stream is built directly from its bytes (`NoLimitsStream.Stream.constructor`, which is `fromUint8Array`).
- `makeChunkReader` only attaches a name to a callback; the readers and handlers of `readChunks` are callbacks, so the model returns which reader is handed which bytes, in order.
- Records that embed other records or chunks (coaster, train, car, section, segment, custom track, park, info) are outside the modelled core.
- NoLimitsStream.Stream.ReadUnsigned8: requires a byte at the cursor, because past the end the source returns `undefined`, which the model's integers do not represent; the readers built on it inherit the requirement.
- NoLimitsStream.Stream.ReadInteger: requires four bytes at the cursor, because `DataView` throws a `RangeError` otherwise; the same holds for `ReadUnsignedInteger`, `ReadFloat`, `ReadDouble`, the vector readers and every record reader.
- NoLimitsStream.Stream.ReadString: requires that the string ends inside the content (`StringAt` is `Some`), because otherwise the source's loop never stops (`readUnsigned8` past the end gives `undefined`, which is not 0).
- NoLimitsChunks.ReadChunks: requires that the scan returns, which excludes every content where a chunk's length leads to an offset not after its own. The source throws when a length runs past the content. It loops forever when the next offset equals the current one. When the next offset lies before the current one it restarts the scan there and may finish (a chunk at 0 ending at 20, one at 20 whose length leads back to 10, and a chunk name at 12 whose chunk ends at 40). The model does not follow such backward restarts.
- NoLimitsStationSection.ReadStationSection: requires that decoding succeeds, for the reasons above; likewise `NoLimitsScript.ReadScript`, `NoLimitsFileScript.ReadFileScript`, `NoLimitsIndividualColor.ReadIndividualColor` and `NoLimitsTriggerPoint.ReadTriggerPoint`.
- NoLimitsScript.ScriptRoundTrip: stated for strings whose code units are 1..255 and fewer than 2^32 resources, because `writeString` keeps only the low byte of each code unit and a zero code unit ends the string early; the same restriction holds for `NoLimitsFileScript.FileScriptRoundTrip`, `NoLimitsIndividualColor.IndividualColorRoundTrip` and `NoLimitsTriggerPoint.TriggerRoundTrip`.
- NoLimitsStationSection.StationRoundTrip: stated for fewer than 256 station ids, because the count is written as one byte; `StationCountWraps` states what happens beyond.

## Findings

| source | as written | input that shows it | evidently intended | confidence | as-written member | corrected member |
|---|---|---|---|---|---|---|
| src/libs/calculation/src/bezier.cc:55-61 | the "is last" test compares `nextNode - 1` with `end()`, which never holds, so a distance past the last node dereferences `end()` | a table of two nodes at distances 0 and 1, looked up at distance 2 | a distance past the end gives the last node's position | not executed | BezierCc.PastTheEndIsUndefined | BezierCc.PositionAtDistanceBrackets |
| src/libs/calculation/src/bezier.cc:13 | with exactly one node the parameter is `i / (n - 1)` = 0 / 0 | the straight curve 0.06 long along x, whose estimate makes one node | a lone node is sampled at parameter 0 | not executed | BezierCc.LoneNodeHasNoParameter | CubicBezier.Parameter |
| scripts/helper/bezier.ts:66 | `lerp` interpolates into the stored node's own position, so a look-up changes the table and a repeated query answers differently | nodes at distances 0, 10 and 20, queried at 5 twice | a look-up leaves the table unchanged | not executed | BezierTs.RepeatedQueryDrifts | BezierTs.PositionAtDistanceBrackets |
| scripts/helper/bezier.ts:83-88 | `evaluateUniform` pushes the object `getPositionAtDistance` returned, a node of the fine table that later look-ups move, so pushed positions change after they are pushed | nodes a, b, c at distances 0, 10 and 20 re-sampled at 0, 5, 10, 15 and 20 | each pushed position is the fine table's position at its distance | not executed | BezierTs.UniformAsWrittenDrifts | BezierTs.EvaluateUniformCorrected |
| src/helper/nl2park/nolimits-stream.ts:211-215 | `writeFloat` appends 8 bytes (4 float bytes and 4 zeros) while `readFloat` consumes 4 | two floats a, b with b != 0, written and read back in turn | a float takes 4 bytes both ways | not executed | NoLimitsStream.FloatPairMisread | NoLimitsStream.FloatPairRoundTrip |
| src/helper/nl2park/nolimits-stream.ts:363-376 | `writeChunk` writes the length before the name, while `readChunks` reads the name and then the length | the chunk ABCD with the payload 0, 0, 0, 1 | the name first, then the length, then the payload | not executed | NoLimitsChunks.WrittenChunkMisread | NoLimitsChunks.FramedChunkFound |
