/**
 * The older `lowerBound` of the build scripts (scripts/helper/lower-bound.js),
 * used by the scripts' Bézier tables. Despite its name it moves right past
 * every key that is at most `x`, so on sorted keys it returns the first index
 * whose key exceeds `x` (an upper bound).
 */
module LowerBoundJs {
  import BinarySearch

  /** The loop over the window [l, h) as a function. */
  function Search(ks: seq<real>, x: real, l: nat, h: nat): (r: nat)
    requires l <= h <= |ks|
    ensures l <= r <= h
    decreases h - l
  {
    if l >= h then l
    else
      var mid := BinarySearch.Half(l + h);
      if x >= ks[mid] then Search(ks, x, mid + 1, h) else Search(ks, x, l, mid)
  }

  /** One round of the loop. */
  lemma SearchStep(ks: seq<real>, x: real, l: nat, h: nat)
    requires l < h <= |ks|
    ensures var mid := BinarySearch.Half(l + h);
      l <= mid < h &&
      Search(ks, x, l, h) == if x >= ks[mid] then Search(ks, x, mid + 1, h) else Search(ks, x, l, mid)
  {
  }

  /** What `lowerBound(a, x, prop)` returns, with `key` reading the property. */
  function UpperBoundOf<T>(a: seq<T>, x: real, key: T -> real): (r: nat)
    ensures r <= |a|
  {
    Search(Keys(a, key), x, 0, |a|)
  }

  function Keys<T>(a: seq<T>, key: T -> real): (ks: seq<real>)
    ensures |ks| == |a|
    ensures forall i :: 0 <= i < |a| ==> ks[i] == key(a[i])
  {
    seq(|a|, i requires 0 <= i < |a| => key(a[i]))
  }

  /** Index `i` has a key at most `x` just before it (or is the start). */
  ghost predicate AtMostBefore(ks: seq<real>, x: real, i: int) {
    i == 0 || (0 < i <= |ks| && ks[i - 1] <= x)
  }

  /** Index `i` holds a key above `x` (or is the end). */
  ghost predicate AboveAt(ks: seq<real>, x: real, i: int) {
    i == |ks| || (0 <= i < |ks| && ks[i] > x)
  }

  lemma {:induction false} SearchKeepsLeft(ks: seq<real>, x: real, l: nat, h: nat)
    requires l <= h <= |ks|
    requires AtMostBefore(ks, x, l)
    ensures AtMostBefore(ks, x, Search(ks, x, l, h))
    decreases h - l
  {
    if l < h {
      var mid := BinarySearch.Half(l + h);
      SearchStep(ks, x, l, h);
      if x >= ks[mid] {
        SearchKeepsLeft(ks, x, mid + 1, h);
      } else {
        SearchKeepsLeft(ks, x, l, mid);
      }
    }
  }

  lemma {:induction false} SearchKeepsRight(ks: seq<real>, x: real, l: nat, h: nat)
    requires l <= h <= |ks|
    requires AboveAt(ks, x, h)
    ensures AboveAt(ks, x, Search(ks, x, l, h))
    decreases h - l
  {
    if l < h {
      var mid := BinarySearch.Half(l + h);
      SearchStep(ks, x, l, h);
      if x >= ks[mid] {
        SearchKeepsRight(ks, x, mid + 1, h);
      } else {
        SearchKeepsRight(ks, x, l, mid);
      }
    }
  }

  /**
   * On sorted keys every key before the answer is at most `x` and every key
   * from it on exceeds `x`.
   */
  lemma UpperBoundPartitions<T>(a: seq<T>, x: real, key: T -> real)
    requires BinarySearch.Sorted(Keys(a, key))
    ensures var r := UpperBoundOf(a, x, key);
      && (forall i :: 0 <= i < r ==> key(a[i]) <= x)
      && (forall i :: r <= i < |a| ==> key(a[i]) > x)
  {
    var ks, r := Keys(a, key), UpperBoundOf(a, x, key);
    SearchKeepsLeft(ks, x, 0, |a|);
    SearchKeepsRight(ks, x, 0, |a|);
    forall i | 0 <= i < r ensures ks[i] <= x {
      assert ks[i] <= ks[r - 1];
    }
    forall i | r <= i < |ks| ensures ks[i] > x {
      assert ks[r] <= ks[i];
    }
  }

  method LowerBound<T>(a: seq<T>, x: real, key: T -> real) returns (l: nat)
    ensures l == UpperBoundOf(a, x, key)
  {
    ghost var ks := Keys(a, key);
    l := 0;
    var h: nat := |a|;
    while l < h
      invariant l <= h <= |a|
      invariant Search(ks, x, l, h) == Search(ks, x, 0, |ks|)
      decreases h - l
    {
      var mid := BinarySearch.Half(l + h);
      SearchStep(ks, x, l, h);
      assert ks[mid] == key(a[mid]);
      if x >= key(a[mid]) {
        l := mid + 1;
      } else {
        h := mid;
      }
    }
  }
}
