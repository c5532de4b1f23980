/** `Array.prototype.slice`, which the dashboard uses to pick events by
    position. */
module JsArray {
  import opened JsMath

  /** How `slice` resolves an index argument against a length `n`: a
      negative index counts back from the end, and either kind is clamped
      into 0..n. */
  function SliceIndex(n: nat, k: int): (r: nat)
    ensures r <= n
  {
    if k < 0 then Max(n + k, 0) else Min(k, n)
  }

  /** `s.slice(start, end)`: the elements from the resolved start up to,
      not including, the resolved end; empty when the end does not come
      after the start. */
  function Slice<T>(s: seq<T>, start: int, end: int): (r: seq<T>)
    ensures |r| == Max(0, SliceIndex(|s|, end) - SliceIndex(|s|, start))
    ensures forall k :: 0 <= k < |r| ==> r[k] == s[SliceIndex(|s|, start) + k]
  {
    var from := SliceIndex(|s|, start);
    var to := SliceIndex(|s|, end);
    if from < to then s[from..to] else []
  }

  /** With non-negative bounds, `slice` is the subsequence between the
      bounds clamped to the length. */
  lemma SliceClamped<T>(s: seq<T>, start: nat, end: nat)
    requires start <= end
    ensures Slice(s, start, end) == s[Min(start, |s|)..Min(end, |s|)]
  {
  }
}
