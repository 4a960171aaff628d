/**
 * Python's slice `s[start:end]` with step 1, as used by `randperm(n)[:length]`
 * in the REPTILE driver and by `rewards[start:end]` in the policy-gradient
 * driver: a missing bound is `None`, a negative bound counts from the end,
 * and bounds outside the sequence are clamped rather than rejected.
 */
module PySlice {
  import opened Wrappers

  /** Where a slice bound lands in a sequence of length `n`. */
  function Bound(n: nat, i: Option<int>, missing: nat): (r: nat)
    requires missing <= n
    ensures r <= n
    ensures i.None? ==> r == missing
    ensures i.Some? && 0 <= i.value ==> r == (if i.value <= n then i.value else n)
    ensures i.Some? && i.value < 0 ==> r == (if -i.value <= n then n + i.value else 0)
  {
    match i
    case None => missing
    case Some(k) =>
      if k < 0 then (if k + n < 0 then 0 else k + n)
      else if k > n then n
      else k
  }

  /** The index of the first element a slice keeps. */
  function Lo(n: nat, start: Option<int>): nat
  {
    Bound(n, start, 0)
  }

  /** The index just past the last element a slice keeps. */
  function Hi(n: nat, start: Option<int>, end: Option<int>): (r: nat)
    ensures Lo(n, start) <= r <= n
  {
    var hi := Bound(n, end, n);
    if hi < Lo(n, start) then Lo(n, start) else hi
  }

  /** `s[start:end]`: the contiguous run of `s` between the normalised bounds. */
  function Slice<T>(s: seq<T>, start: Option<int>, end: Option<int>): (r: seq<T>)
    ensures r == s[Lo(|s|, start)..Hi(|s|, start, end)]
    ensures start.None? && end.None? ==> r == s
    ensures start.Some? && 0 <= start.value <= |s| && end.None? ==> r == s[start.value..]
    ensures |r| <= |s|
  {
    s[Lo(|s|, start)..Hi(|s|, start, end)]
  }
}
