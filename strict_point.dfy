/**
 * `splitPointsByStrict` (src/helper/strict-point.ts): a track's points cut
 * into sections at every point marked strict. The cut points are collected
 * first (index 0, every later strict index, and the last index); section k
 * then runs from cut k to cut k + 1 inclusive, so neighbouring sections
 * share their boundary point.
 */
module StrictPoint {
  import JsArray

  /** Whether the reducer records index i: a strict point other than the first, or the last point. */
  predicate IsBoundary<T>(points: seq<T>, strict: T -> bool, i: nat)
    requires i < |points|
  {
    (strict(points[i]) && i != 0) || i == |points| - 1
  }

  /** The indices collected once the reducer has visited the first k points, starting from `[0]`. */
  function Boundaries<T>(points: seq<T>, strict: T -> bool, k: nat): (indices: seq<nat>)
    requires k <= |points|
    ensures |indices| >= 1 && indices[0] == 0
    decreases k
  {
    if k == 0 then [0]
    else Boundaries(points, strict, k - 1) + (if IsBoundary(points, strict, k - 1) then [k - 1] else [])
  }

  /** Section k: `points.slice(indices[k], indices[k + 1] + 1)`. */
  function Sections<T>(points: seq<T>, indices: seq<nat>): (result: seq<seq<T>>)
    requires |indices| >= 1
    ensures |result| == |indices| - 1
  {
    seq(|indices| - 1, k requires 0 <= k < |indices| - 1 => JsArray.Slice(points, indices[k], indices[k + 1] + 1))
  }

  /** What `splitPointsByStrict` returns. */
  function Split<T>(points: seq<T>, strict: T -> bool): seq<seq<T>> {
    Sections(points, Boundaries(points, strict, |points|))
  }

  /** `splitPointsByStrict`: the reducer's loop collecting cut indices, then the loop slicing between them. */
  method SplitPointsByStrict<T>(points: seq<T>, strict: T -> bool) returns (result: seq<seq<T>>)
    ensures result == Split(points, strict)
  {
    var indices: seq<nat> := [0];
    for i := 0 to |points|
      invariant indices == Boundaries(points, strict, i)
    {
      if (strict(points[i]) && i != 0) || i == |points| - 1 {
        indices := indices + [i];
      }
    }
    ghost var target := Sections(points, indices);
    result := [];
    for i := 0 to |indices| - 1
      invariant result == target[..i]
    {
      JsArray.PushNext(target, i);
      result := result + [JsArray.Slice(points, indices[i], indices[i + 1] + 1)];
    }
    assert target[..|indices| - 1] == target;
  }

  /** Each cut index comes after the one before it. */
  ghost predicate Increasing(xs: seq<nat>) {
    forall i, j :: 0 <= i < j < |xs| ==> xs[i] < xs[j]
  }

  /**
   * With two points or more, the cuts collected from the first k points
   * increase, stay below k (the 0 they start from aside), and take an index
   * from 1 to k - 1 exactly when the reducer's test holds there.
   */
  lemma {:induction false} BoundariesUpTo<T>(points: seq<T>, strict: T -> bool, k: nat)
    requires |points| >= 2 && k <= |points|
    ensures var indices := Boundaries(points, strict, k);
      && Increasing(indices)
      && (forall j :: 0 < j < |indices| ==> indices[j] < k)
      && (forall i :: 0 < i < k ==> (i in indices <==> IsBoundary(points, strict, i)))
    decreases k
  {
    if k > 0 {
      BoundariesUpTo(points, strict, k - 1);
      var before := Boundaries(points, strict, k - 1);
      if IsBoundary(points, strict, k - 1) {
        assert k - 1 > 0;
        assert Boundaries(points, strict, k) == before + [k - 1];
      }
    }
  }

  /**
   * With two points or more the cuts run from 0 to the last index in
   * increasing order, and an interior index is a cut exactly when its point
   * is strict.
   */
  lemma BoundariesShape<T>(points: seq<T>, strict: T -> bool)
    requires |points| >= 2
    ensures var indices := Boundaries(points, strict, |points|);
      && |indices| >= 2
      && indices[0] == 0
      && indices[|indices| - 1] == |points| - 1
      && Increasing(indices)
      && (forall i :: 0 < i < |points| - 1 ==> (i in indices <==> strict(points[i])))
  {
    var n := |points|;
    BoundariesUpTo(points, strict, n - 1);
    BoundariesUpTo(points, strict, n);
    assert Boundaries(points, strict, n) == Boundaries(points, strict, n - 1) + [n - 1];
  }

  /** No points give no sections; a single point gives one section holding it. */
  lemma SplitOfFewPoints<T>(points: seq<T>, strict: T -> bool)
    ensures |points| == 0 ==> Split(points, strict) == []
    ensures |points| == 1 ==> Split(points, strict) == [points]
  {
    if |points| == 1 {
      assert Boundaries(points, strict, 1) == [0, 0];
      assert points[0..1] == points;
    }
  }

  /** With two points or more, section k is the run of points from cut k to cut k + 1 inclusive. */
  lemma SectionAt<T>(points: seq<T>, strict: T -> bool, k: nat)
    requires |points| >= 2
    requires k < |Split(points, strict)|
    ensures var indices := Boundaries(points, strict, |points|);
      && indices[k] < indices[k + 1] < |points|
      && Split(points, strict)[k] == points[indices[k]..indices[k + 1] + 1]
  {
    BoundariesShape(points, strict);
  }

  /** With two points or more the first section starts at the first point and the last ends at the last point. */
  lemma SplitEnds<T>(points: seq<T>, strict: T -> bool)
    requires |points| >= 2
    ensures var sections := Split(points, strict);
      && |sections| >= 1
      && |sections[0]| >= 2 && sections[0][0] == points[0]
      && |sections[|sections| - 1]| >= 2
      && sections[|sections| - 1][|sections[|sections| - 1]| - 1] == points[|points| - 1]
  {
    var sections := Split(points, strict);
    var indices := Boundaries(points, strict, |points|);
    BoundariesShape(points, strict);
    SectionAt(points, strict, 0);
    var m := |sections| - 1;
    SectionAt(points, strict, m);
    assert indices[m + 1] == |points| - 1;
  }

  /** With two points or more every section holds at least two points. */
  lemma SectionsAreLong<T>(points: seq<T>, strict: T -> bool)
    requires |points| >= 2
    ensures forall k :: 0 <= k < |Split(points, strict)| ==> |Split(points, strict)[k]| >= 2
  {
    forall k | 0 <= k < |Split(points, strict)|
      ensures |Split(points, strict)[k]| >= 2
    {
      SectionAt(points, strict, k);
    }
  }

  /** Each section ends on the point the next one starts with. */
  lemma SectionsMeet<T>(points: seq<T>, strict: T -> bool, k: nat)
    requires |points| >= 2
    requires k + 1 < |Split(points, strict)|
    ensures var sections := Split(points, strict);
      && |sections[k]| >= 2 && |sections[k + 1]| >= 2
      && sections[k][|sections[k]| - 1] == sections[k + 1][0]
  {
    SectionAt(points, strict, k);
    SectionAt(points, strict, k + 1);
  }

  /** Gluing sections back together: the first whole, each later one without its shared first point. */
  function Join<T>(sections: seq<seq<T>>): (r: seq<T>)
  {
    if |sections| == 0 then []
    else if |sections| == 1 then sections[0]
    else
      var last := sections[|sections| - 1];
      Join(sections[..|sections| - 1]) + (if |last| == 0 then [] else last[1..])
  }

  /** The first k sections glue back into the points up to cut k. */
  lemma {:induction false} JoinPrefix<T>(points: seq<T>, strict: T -> bool, k: nat)
    requires |points| >= 2
    requires 1 <= k < |Boundaries(points, strict, |points|)|
    ensures var indices := Boundaries(points, strict, |points|);
      indices[k] < |points| && Join(Split(points, strict)[..k]) == points[..indices[k] + 1]
  {
    var indices := Boundaries(points, strict, |points|);
    var sections := Split(points, strict);
    SectionAt(points, strict, k - 1);
    if k > 1 {
      JoinPrefix(points, strict, k - 1);
      assert sections[..k][..k - 1] == sections[..k - 1];
      assert points[..indices[k] + 1] == points[..indices[k - 1] + 1] + points[indices[k - 1]..indices[k] + 1][1..];
    }
  }

  /** Gluing the sections back together gives the points again, for every input. */
  lemma JoinRestores<T>(points: seq<T>, strict: T -> bool)
    ensures Join(Split(points, strict)) == points
  {
    if |points| <= 1 {
      SplitOfFewPoints(points, strict);
    } else {
      var indices := Boundaries(points, strict, |points|);
      BoundariesShape(points, strict);
      var sections := Split(points, strict);
      JoinPrefix(points, strict, |indices| - 1);
      assert sections[..|indices| - 1] == sections;
      assert points[..|points|] == points;
    }
  }
}
