/** Python's prefix slice `s[:k]`, which counts a negative bound from the end and clamps
    out-of-range bounds instead of failing. */
module Slices {
  function Take<T>(s: seq<T>, k: int): (r: seq<T>)
    ensures 0 <= k <= |s| ==> r == s[..k]
    ensures k > |s| ==> r == s
    ensures k < 0 && -k <= |s| ==> r == s[..|s| + k]
    ensures k < 0 && -k > |s| ==> r == []
    ensures |r| <= |s|
    ensures r <= s
  {
    if k >= 0 then (if k <= |s| then s[..k] else s)
    else if -k <= |s| then s[..|s| + k]
    else []
  }
}
