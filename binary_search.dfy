/**
 * `lowerBound` and `findBoundingIndices` (src/helper/binary-search.ts).
 * The accessor receives the element and its index and yields the key that is
 * compared with `value`; the search only ever looks at those keys, so its
 * specification is stated over the sequence of keys.
 */
module BinarySearch {
  import opened Wrappers
  import opened Geometry

  /** The keys the accessor yields, element by element. */
  function Keys<T>(a: seq<T>, key: (T, int) -> real): (ks: seq<real>)
    ensures |ks| == |a|
    ensures forall i :: 0 <= i < |a| ==> ks[i] == key(a[i], i)
  {
    seq(|a|, i requires 0 <= i < |a| => key(a[i], i))
  }

  /** Keys that never decrease: what callers of the search rely on. */
  ghost predicate Sorted(ks: seq<real>) {
    forall i, j :: 0 <= i <= j < |ks| ==> ks[i] <= ks[j]
  }

  /**
   * `first` is where every key before it is below `value` and every key from it
   * on reaches `value`: the answer the search promises on sorted input.
   */
  ghost predicate Partitions(ks: seq<real>, value: real, first: int) {
    && 0 <= first <= |ks|
    && (forall i :: 0 <= i < first ==> ks[i] < value)
    && (forall i :: first <= i < |ks| ==> ks[i] >= value)
  }

  /** `Math.floor(n / 2)` on a non-negative length: the two halves differ by at most one. */
  function Half(n: nat): (h: nat)
    ensures h <= n - h <= h + 1
  {
    n / 2
  }

  /**
   * The search still to run on the window [first, first + len): the loop of
   * `lowerBound` as a function, so that pure callers can use its answer.
   */
  function Search(ks: seq<real>, value: real, first: nat, len: nat): (r: nat)
    requires first + len <= |ks|
    ensures first <= r <= first + len
    decreases len
  {
    if len == 0 then first
    else
      var half := Half(len);
      var middle := first + half;
      if ks[middle] < value then Search(ks, value, middle + 1, len - half - 1)
      else Search(ks, value, first, half)
  }

  /** One round of the loop: the window shrinks to one side of its middle. */
  lemma SearchStep(ks: seq<real>, value: real, first: nat, len: nat)
    requires first + len <= |ks| && len > 0
    ensures var half := Half(len);
      Search(ks, value, first, len) ==
        if ks[first + half] < value then Search(ks, value, first + half + 1, len - half - 1)
        else Search(ks, value, first, half)
  {
  }

  /** Index `i` has nothing but a key below `value` just before it (or is the start). */
  ghost predicate BelowBefore(ks: seq<real>, value: real, i: int) {
    i == 0 || (0 < i <= |ks| && ks[i - 1] < value)
  }

  /** Index `i` holds a key that reaches `value` (or is the end). */
  ghost predicate ReachesAt(ks: seq<real>, value: real, i: int) {
    i == |ks| || (0 <= i < |ks| && ks[i] >= value)
  }

  /** On any keys, sorted or not, a key below `value` left of the window stays left of the answer. */
  lemma {:induction false} SearchKeepsLeft(ks: seq<real>, value: real, first: nat, len: nat)
    requires first + len <= |ks|
    requires BelowBefore(ks, value, first)
    ensures BelowBefore(ks, value, Search(ks, value, first, len))
    decreases len
  {
    if len > 0 {
      var half := Half(len);
      SearchStep(ks, value, first, len);
      if ks[first + half] < value {
        SearchKeepsLeft(ks, value, first + half + 1, len - half - 1);
      } else {
        SearchKeepsLeft(ks, value, first, half);
      }
    }
  }

  /** On any keys, a key reaching `value` right of the window stays at or right of the answer. */
  lemma {:induction false} SearchKeepsRight(ks: seq<real>, value: real, first: nat, len: nat)
    requires first + len <= |ks|
    requires ReachesAt(ks, value, first + len)
    ensures ReachesAt(ks, value, Search(ks, value, first, len))
    decreases len
  {
    if len > 0 {
      var half := Half(len);
      SearchStep(ks, value, first, len);
      if ks[first + half] < value {
        SearchKeepsRight(ks, value, first + half + 1, len - half - 1);
      } else {
        SearchKeepsRight(ks, value, first, half);
      }
    }
  }

  /** What `lowerBound(a, value, key)` returns. */
  function LowerBoundOf<T>(a: seq<T>, value: real, key: (T, int) -> real): (r: nat)
    ensures r <= |a|
  {
    Search(Keys(a, key), value, 0, |a|)
  }

  /**
   * On any input the answer sits between a key below `value` and a key that
   * reaches it (or at an end of the array).
   */
  lemma LowerBoundAtBoundary<T>(a: seq<T>, value: real, key: (T, int) -> real)
    ensures var r := LowerBoundOf(a, value, key);
      && (r == 0 || key(a[r - 1], r - 1) < value)
      && (r == |a| || key(a[r], r) >= value)
  {
    SearchKeepsLeft(Keys(a, key), value, 0, |a|);
    SearchKeepsRight(Keys(a, key), value, 0, |a|);
  }

  /** On sorted keys the result splits them into keys below and keys at or above `value`. */
  lemma LowerBoundPartitions<T>(a: seq<T>, value: real, key: (T, int) -> real)
    requires Sorted(Keys(a, key))
    ensures Partitions(Keys(a, key), value, LowerBoundOf(a, value, key))
  {
    var ks, r := Keys(a, key), LowerBoundOf(a, value, key);
    LowerBoundAtBoundary(a, value, key);
    forall i | 0 <= i < r ensures ks[i] < value {
      assert ks[i] <= ks[r - 1];
    }
    forall i | r <= i < |ks| ensures ks[i] >= value {
      assert ks[r] <= ks[i];
    }
  }

  /** Only one index partitions a sequence of keys. */
  lemma PartitionIsUnique(ks: seq<real>, value: real, r: int, s: int)
    requires Partitions(ks, value, r) && Partitions(ks, value, s)
    ensures r == s
  {
    if r < |ks| {
      assert ks[r] >= value;
    }
    if s < |ks| {
      assert ks[s] >= value;
    }
  }

  /** A larger value never moves the answer to the left (on sorted keys). */
  lemma LowerBoundMonotone<T>(a: seq<T>, v: real, w: real, key: (T, int) -> real)
    requires Sorted(Keys(a, key)) && v <= w
    ensures LowerBoundOf(a, v, key) <= LowerBoundOf(a, w, key)
  {
    var ks, s := Keys(a, key), LowerBoundOf(a, w, key);
    LowerBoundPartitions(a, v, key);
    LowerBoundPartitions(a, w, key);
    if s < |a| {
      assert ks[s] >= w;
    }
  }

  /**
   * `lowerBound`: the binary search loop over `first` and `len`, which returns
   * the answer `LowerBoundOf` describes (see the lemmas above for what it means).
   */
  method LowerBound<T>(a: seq<T>, value: real, key: (T, int) -> real) returns (first: nat)
    ensures first == LowerBoundOf(a, value, key)
  {
    ghost var ks := Keys(a, key);
    first := 0;
    var len: nat := |a|;
    while len > 0
      invariant first + len <= |a|
      invariant Search(ks, value, first, len) == Search(ks, value, 0, |ks|)
      decreases len
    {
      var half := Half(len);
      var middle := first + half;
      SearchStep(ks, value, first, len);
      assert ks[middle] == key(a[middle], middle);
      if key(a[middle], middle) < value {
        first := middle + 1;
        len := len - half - 1;
      } else {
        len := half;
      }
    }
  }

  /**
   * `findBoundingIndices`: nothing below two elements; otherwise the pair
   * `[r - 1, r]` with `r` the search result clamped to [1, length - 1].
   */
  function FindBoundingIndices<T>(a: seq<T>, value: real, key: (T, int) -> real): (r: Option<(nat, nat)>)
    ensures r.None? <==> |a| < 2
    ensures r.Some? ==> r.value.0 + 1 == r.value.1 < |a|
  {
    if |a| < 2 then None
    else
      var right := ClampInt(LowerBoundOf(a, value, key), 1, |a| - 1);
      Some((right - 1, right))
  }

  /**
   * On sorted keys the pair brackets `value`: the first pair when `value` is at
   * or before the first key, the last pair when it is past the last key, and
   * otherwise the two neighbours with key(left) < value <= key(right).
   */
  lemma BoundingIndicesBracket<T>(a: seq<T>, value: real, key: (T, int) -> real)
    requires Sorted(Keys(a, key)) && |a| >= 2
    ensures var (l, r) := FindBoundingIndices(a, value, key).value;
      && (value <= key(a[0], 0) ==> l == 0)
      && (key(a[|a| - 1], |a| - 1) < value ==> r == |a| - 1)
      && (key(a[0], 0) < value <= key(a[|a| - 1], |a| - 1) ==>
            key(a[l], l) < value <= key(a[r], r))
  {
    LowerBoundPartitions(a, value, key);
  }
}
