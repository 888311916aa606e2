/** Python's slices: an index below zero counts from the end, and bounds are clipped. */
module PythonSlices {

  function SliceIndex(n: nat, k: int): (i: nat)
    ensures i <= n
  {
    if k < 0 then (if n + k < 0 then 0 else n + k) else if k < n then k else n
  }

  /** xs[k:] */
  function From<T>(xs: seq<T>, k: int): seq<T> {
    xs[SliceIndex(|xs|, k)..]
  }

  /** xs[:k] */
  function UpTo<T>(xs: seq<T>, k: int): seq<T> {
    xs[..SliceIndex(|xs|, k)]
  }

  /** xs[j:k] */
  function Slice<T>(xs: seq<T>, j: int, k: int): seq<T> {
    var lo, hi := SliceIndex(|xs|, j), SliceIndex(|xs|, k);
    if lo < hi then xs[lo..hi] else []
  }
}
