/**
 * `uniformSample` and `uniformSampleMap` (src/helper/uniform-sample.ts): the
 * interval [from, to] cut into max(floor((to - from) * resolution), 2) evenly
 * spaced samples, each handed to a callback in index order. The same count
 * and spacing rule is used by the curve builders and the Bézier helper.
 */
module UniformSample {
  /** `Math.max(Math.floor(x), 2)`: at least two nodes. */
  function NodeCount(x: real): (n: nat)
    ensures n >= 2
  {
    if x.Floor >= 2 then x.Floor else 2
  }

  /** The count is the floor of x once that reaches 2, and 2 below x = 3. */
  lemma NodeCountIsFloor(x: real)
    ensures var n := NodeCount(x);
      && (n == 2 || n as real <= x < n as real + 1.0)
      && (x < 3.0 <==> n == 2)
  {
  }

  /** `Math.max(Math.floor(length * resolution), 2)`: the node count for a length at a resolution. */
  function CountAt(length: real, resolution: real): (n: nat)
    ensures n >= 2
  {
    NodeCount(length * resolution)
  }

  /** `i / (numberOfNodes - 1)`: sample i of n runs from t = 0 to t = 1. */
  function Parameter(i: nat, n: nat): (t: real)
    requires i < n && n >= 2
    ensures 0.0 <= t <= 1.0
    ensures i == 0 ==> t == 0.0
    ensures i == n - 1 ==> t == 1.0
  {
    i as real / (n - 1) as real
  }

  /** `from + t * length`: where on [from, from + length] the parameter t falls. */
  function At(from: real, length: real, t: real): (at: real)
    ensures t == 0.0 ==> at == from
    ensures t == 1.0 ==> at == from + length
  {
    from + t * length
  }

  /** Later samples have larger parameters: the parameter grows by 1 / (n - 1) per sample. */
  lemma ParameterIncreases(i: nat, j: nat, n: nat)
    requires i < j < n && n >= 2
    ensures Parameter(i, n) < Parameter(j, n)
  {
    var d := (n - 1) as real;
    assert Parameter(j, n) - Parameter(i, n) == (j - i) as real / d;
  }

  /** One invocation of the callback: `fn(at, t, nodeIndex)`. */
  datatype Call = Call(at: real, t: real, nodeIndex: nat)

  /** The invocations `uniformSample(from, to, resolution, fn)` makes, in the order it makes them. */
  function Calls(from: real, to: real, resolution: real): (calls: seq<Call>)
    ensures |calls| == CountAt(to - from, resolution)
  {
    var n := CountAt(to - from, resolution);
    seq(n, i requires 0 <= i < n =>
      var t := Parameter(i, n);
      Call(At(from, to - from, t), t, i))
  }

  /**
   * `uniformSample`: the loop over the node indices. The callback's effect is
   * left to the caller, so the method yields the list of invocations it makes.
   */
  method Sample(from: real, to: real, resolution: real) returns (calls: seq<Call>)
    ensures calls == Calls(from, to, resolution)
  {
    var length := to - from;
    var numberOfNodes := CountAt(length, resolution);
    ghost var target := Calls(from, to, resolution);
    calls := [];
    for i := 0 to numberOfNodes
      invariant calls == target[..i]
    {
      var t := Parameter(i, numberOfNodes);
      var at := At(from, length, t);
      calls := calls + [Call(at, t, i)];
      assert target[..i + 1] == target[..i] + [Call(at, t, i)];
    }
    assert target[..numberOfNodes] == target;
  }

  /**
   * The callback runs once per node, for node indices 0, 1, ..., n - 1 in
   * that order, with t rising from 0 to 1 and `at` running from `from` to `to`.
   */
  lemma CallsInOrder(from: real, to: real, resolution: real)
    ensures var calls := Calls(from, to, resolution);
      && |calls| >= 2
      && (forall i :: 0 <= i < |calls| ==> calls[i].nodeIndex == i)
      && (forall i, j :: 0 <= i < j < |calls| ==> calls[i].t < calls[j].t)
      && calls[0].at == from && calls[0].t == 0.0
      && calls[|calls| - 1].at == to && calls[|calls| - 1].t == 1.0
  {
    var calls := Calls(from, to, resolution);
    forall i, j | 0 <= i < j < |calls| ensures calls[i].t < calls[j].t {
      ParameterIncreases(i, j, |calls|);
    }
  }

  /** What `uniformSampleMap` returns: the mapping function applied to each sample. */
  function Mapped<T>(from: real, to: real, resolution: real, mapFn: (real, real) -> T): (out: seq<T>)
    ensures |out| == CountAt(to - from, resolution)
  {
    var calls := Calls(from, to, resolution);
    seq(|calls|, i requires 0 <= i < |calls| => mapFn(calls[i].at, calls[i].t))
  }

  /** `uniformSampleMap`: the callback pushes `mapFn(at, t)` onto `out`. */
  method SampleMap<T>(from: real, to: real, resolution: real, mapFn: (real, real) -> T) returns (out: seq<T>)
    ensures out == Mapped(from, to, resolution, mapFn)
  {
    var calls := Sample(from, to, resolution);
    ghost var target := Mapped(from, to, resolution, mapFn);
    out := [];
    for k := 0 to |calls|
      invariant out == target[..k]
    {
      out := out + [mapFn(calls[k].at, calls[k].t)];
      assert target[..k + 1] == target[..k] + [target[k]];
    }
    assert target[..|calls|] == target;
  }

  /** The mapped list has one entry per sample: the first at `from` with t = 0, the last at `to` with t = 1. */
  lemma MappedEnds<T>(from: real, to: real, resolution: real, mapFn: (real, real) -> T)
    ensures var out := Mapped(from, to, resolution, mapFn);
      && |out| >= 2
      && out[0] == mapFn(from, 0.0)
      && out[|out| - 1] == mapFn(to, 1.0)
  {
    CallsInOrder(from, to, resolution);
  }
}
