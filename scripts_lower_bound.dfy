/**
 * `lowerBound` of the build scripts (scripts/src/helper/lower-bound.ts): the
 * same loop as the application's search, with an accessor that sees only the
 * element. It returns what the application's search returns for the accessor
 * that ignores the index.
 */
module ScriptsLowerBound {
  import BinarySearch

  /** The scripts' accessor seen as the application's (element, index) accessor. */
  function IndexFree<T>(key: T -> real): (T, int) -> real
  {
    (x: T, i: int) => key(x)
  }

  /** `lowerBound(array, value, accessor)`: the loop over `first` and `len`. */
  method LowerBound<T>(a: seq<T>, value: real, key: T -> real) returns (first: nat)
    ensures first == BinarySearch.LowerBoundOf(a, value, IndexFree(key))
  {
    ghost var ks := BinarySearch.Keys(a, IndexFree(key));
    first := 0;
    var len: nat := |a|;
    while len > 0
      invariant first + len <= |a|
      invariant BinarySearch.Search(ks, value, first, len) == BinarySearch.Search(ks, value, 0, |ks|)
      decreases len
    {
      var half := BinarySearch.Half(len);
      var middle := first + half;
      BinarySearch.SearchStep(ks, value, first, len);
      assert ks[middle] == key(a[middle]);
      if key(a[middle]) < value {
        first := middle + 1;
        len := len - half - 1;
      } else {
        len := half;
      }
    }
  }

  /**
   * On keys in order the answer splits the array: keys before it are below
   * `value`, keys from it on reach `value`; an empty array answers 0.
   */
  lemma LowerBoundSplits<T>(a: seq<T>, value: real, key: T -> real)
    requires forall i, j :: 0 <= i <= j < |a| ==> key(a[i]) <= key(a[j])
    ensures var r := BinarySearch.LowerBoundOf(a, value, IndexFree(key));
      && r <= |a|
      && (|a| == 0 ==> r == 0)
      && (forall i :: 0 <= i < r ==> key(a[i]) < value)
      && (forall i :: r <= i < |a| ==> key(a[i]) >= value)
  {
    var ks := BinarySearch.Keys(a, IndexFree(key));
    assert BinarySearch.Sorted(ks) by {
      forall i, j | 0 <= i <= j < |ks| ensures ks[i] <= ks[j] {
        assert ks[i] == key(a[i]) && ks[j] == key(a[j]);
      }
    }
    BinarySearch.LowerBoundPartitions(a, value, IndexFree(key));
    var r := BinarySearch.LowerBoundOf(a, value, IndexFree(key));
    forall i | 0 <= i < r ensures key(a[i]) < value {
      assert ks[i] == key(a[i]);
    }
    forall i | r <= i < |a| ensures key(a[i]) >= value {
      assert ks[i] == key(a[i]);
    }
  }
}
