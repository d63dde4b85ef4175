/** The JavaScript array semantics that the core relies on. */
module JsArray {
  import opened Wrappers

  /** `a[i]`: the element, or `undefined` outside the array. */
  function At<T>(a: seq<T>, i: int): (r: Option<T>)
    ensures r.Some? <==> 0 <= i < |a|
    ensures r.Some? ==> r.value == a[i]
  {
    if 0 <= i < |a| then Some(a[i]) else None
  }

  /** How `slice` turns a relative index into an offset (negative counts from the end). */
  function RelativeIndex(k: int, length: nat): (r: nat)
    ensures r <= length
    ensures 0 <= k <= length ==> r == k
  {
    if k < 0 then (if length + k < 0 then 0 else length + k)
    else if k > length then length
    else k
  }

  /** `Array.prototype.slice` and `Uint8Array.prototype.slice`. */
  function Slice<T>(a: seq<T>, start: int, end: int): (r: seq<T>)
    ensures |r| <= |a|
    ensures 0 <= start <= end <= |a| ==> r == a[start..end]
    ensures 0 <= end <= start ==> r == []
  {
    var from, to := RelativeIndex(start, |a|), RelativeIndex(end, |a|);
    if from <= to then a[from..to] else []
  }

  /** A loop that `push`es the elements of `s` in order has built the prefix `s[..i + 1]`. */
  lemma PushNext<T>(s: seq<T>, i: nat)
    requires i < |s|
    ensures s[..i] + [s[i]] == s[..i + 1]
  {
  }
}
