/** Reversing a Go slice in place, as both the differ and the queue do. */
module Slices {

  function Reverse<T>(s: seq<T>): (r: seq<T>)
    ensures |r| == |s|
    ensures forall k :: 0 <= k < |s| ==> r[k] == s[|s| - 1 - k]
  {
    seq(|s|, k requires 0 <= k < |s| => s[|s| - 1 - k])
  }

  /** The two-index swap loop, over the first `n` cells of a slice's backing array. */
  method ReverseSlice<T>(a: array<T>, n: nat)
    requires n <= a.Length
    modifies a
    ensures a[..n] == Reverse(old(a[..n]))
    ensures a[n..] == old(a[n..])
  {
    var l, r := 0, n - 1;
    while l < r
      invariant 0 <= l <= r + 2 && l + r == n - 1
      invariant forall k :: 0 <= k < l ==> a[k] == old(a[n - 1 - k]) && a[n - 1 - k] == old(a[k])
      invariant forall k :: l <= k <= r ==> a[k] == old(a[k])
      invariant forall k :: n <= k < a.Length ==> a[k] == old(a[k])
    {
      a[l], a[r] := a[r], a[l];
      l, r := l + 1, r - 1;
    }
  }

  lemma ReverseSnoc<T>(s: seq<T>, x: T)
    ensures Reverse(s + [x]) == [x] + Reverse(s)
  {
  }
}
