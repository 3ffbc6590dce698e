/**
  The small numeric helpers at the top of script.js: the index sequence
  `range`, the totals `sum` and `slicedSum`, the linear remap `numMap`, and
  the in-place `Array.prototype.reverse` that the script applies to the
  palette and to the layer plan.
  JavaScript numbers are doubles; every value these helpers see in the
  script is a small integer or an exact ratio, so the model uses `int` and
  `real`.
 */
module Helpers {

  /** `range(n)`: an array of n zeros, each added to its own position, so the indices [0..n). */
  function Range(n: nat): (r: seq<int>)
    ensures |r| == n
    ensures forall j :: 0 <= j < n ==> r[j] == j
  {
    var zeros := seq(n, _ => 0);
    seq(n, j requires 0 <= j < n => zeros[j] + j)
  }

  ghost predicate NonNegative(arr: seq<int>)
  {
    forall k :: 0 <= k < |arr| ==> arr[k] >= 0
  }

  /** `sum(arr)`: the total of the elements, added from the left onto 0. */
  function Sum(arr: seq<int>): int
  {
    if arr == [] then 0 else Sum(arr[..|arr| - 1]) + arr[|arr| - 1]
  }

  /** `slicedSum(arr, i)`: the sum of `arr.slice(0, i)`; `slice` clamps an end past the length. */
  function SlicedSum(arr: seq<int>, i: nat): int
  {
    Sum(arr[..if i <= |arr| then i else |arr|])
  }

  /** The fold splits over concatenation. */
  lemma {:induction false} SumAppend(a: seq<int>, b: seq<int>)
    ensures Sum(a + b) == Sum(a) + Sum(b)
    decreases |b|
  {
    if b == [] {
      assert a + b == a;
    } else {
      var b' := b[..|b| - 1];
      assert (a + b)[..|a + b| - 1] == a + b';
      SumAppend(a, b');
    }
  }

  /** A total of non-negative counts is non-negative. */
  lemma {:induction false} SumNonNegative(arr: seq<int>)
    requires NonNegative(arr)
    ensures Sum(arr) >= 0
    decreases |arr|
  {
    if arr != [] {
      SumNonNegative(arr[..|arr| - 1]);
    }
  }

  /** `slicedSum(arr, 0)` is the empty sum and `slicedSum(arr, arr.length)` is `sum(arr)`. */
  lemma SlicedSumEnds(arr: seq<int>)
    ensures SlicedSum(arr, 0) == 0
    ensures SlicedSum(arr, |arr|) == Sum(arr)
  {
    assert arr[..|arr|] == arr;
  }

  /** Each step of the prefix sum adds the next element. */
  lemma SlicedSumStep(arr: seq<int>, i: nat)
    requires i < |arr|
    ensures SlicedSum(arr, i + 1) == SlicedSum(arr, i) + arr[i]
  {
    assert arr[..i + 1][..i] == arr[..i];
  }

  /** Past the end, the slice is clamped and the prefix sum is the whole sum. */
  lemma SlicedSumPastEnd(arr: seq<int>, i: nat)
    ensures i >= |arr| ==> SlicedSum(arr, i) == Sum(arr)
  {
    assert arr[..|arr|] == arr;
  }

  /** Over non-negative counts the prefix sums are non-decreasing. */
  lemma {:induction false} SlicedSumMonotone(arr: seq<int>, i: nat, j: nat)
    requires NonNegative(arr)
    requires i <= j
    ensures SlicedSum(arr, i) <= SlicedSum(arr, j)
    decreases j - i
  {
    if i < j {
      SlicedSumMonotone(arr, i, j - 1);
      if j - 1 < |arr| {
        SlicedSumStep(arr, j - 1);
      } else {
        SlicedSumPastEnd(arr, j - 1);
        SlicedSumPastEnd(arr, j);
      }
    }
  }

  /**
    `numMap(value, sMin, sMax, dMin, dMax)`: the linear remap of
    [sMin, sMax] onto [dMin, dMax]. With `sMax == sMin` the script would
    divide by zero; every call in the script has a non-empty source range.
   */
  function NumMap(value: real, sMin: real, sMax: real, dMin: real, dMax: real): (r: real)
    requires sMax != sMin
    ensures value == sMin ==> r == dMin
    ensures value == sMax ==> r == dMax
  {
    var ratio := (value - sMin) / (sMax - sMin);
    RatioOfSelf(sMax - sMin);
    dMin + ratio * (dMax - dMin)
  }

  /** The remap moves every step of the source range by the same proportion of the target range. */
  lemma NumMapLinear(v: real, w: real, sMin: real, sMax: real, dMin: real, dMax: real)
    requires sMax != sMin
    ensures NumMap(w, sMin, sMax, dMin, dMax) - NumMap(v, sMin, sMax, dMin, dMax)
         == (w - v) / (sMax - sMin) * (dMax - dMin)
  {
  }

  /** With increasing ranges on both sides the remap is strictly increasing. */
  lemma NumMapStrictlyIncreasing(v: real, w: real, sMin: real, sMax: real, dMin: real, dMax: real)
    requires sMax > sMin && dMax > dMin
    requires v < w
    ensures NumMap(v, sMin, sMax, dMin, dMax) < NumMap(w, sMin, sMax, dMin, dMax)
  {
    NumMapLinear(v, w, sMin, sMax, dMin, dMax);
    RatioPositive(w - v, sMax - sMin);
    ProductPositive((w - v) / (sMax - sMin), dMax - dMin);
  }

  /** With increasing ranges on both sides the remap is non-decreasing. */
  lemma NumMapMonotone(v: real, w: real, sMin: real, sMax: real, dMin: real, dMax: real)
    requires sMax > sMin && dMax > dMin
    requires v <= w
    ensures NumMap(v, sMin, sMax, dMin, dMax) <= NumMap(w, sMin, sMax, dMin, dMax)
  {
    if v < w {
      NumMapStrictlyIncreasing(v, w, sMin, sMax, dMin, dMax);
    }
  }

  // Small facts of real arithmetic, each in a context of its own.

  lemma RatioOfSelf(d: real)
    requires d != 0.0
    ensures d / d == 1.0 && 0.0 / d == 0.0
  {
  }

  lemma RatioPositive(a: real, d: real)
    requires a > 0.0 && d > 0.0
    ensures a / d > 0.0
  {
  }

  lemma ProductPositive(a: real, b: real)
    requires a > 0.0 && b > 0.0
    ensures a * b > 0.0
  {
  }

  /** `Array.prototype.reverse` as a value: the last element first. */
  function Reversed<T>(s: seq<T>): (r: seq<T>)
    ensures |r| == |s|
  {
    if s == [] then [] else [s[|s| - 1]] + Reversed(s[..|s| - 1])
  }

  /** Reversal keeps the length and mirrors every position. */
  lemma {:induction false} ReversedAt<T>(s: seq<T>, k: nat)
    requires k < |s|
    ensures |Reversed(s)| == |s|
    ensures Reversed(s)[k] == s[|s| - 1 - k]
    decreases |s|
  {
    if k == 0 {
      if |s| > 1 {
        ReversedAt(s[..|s| - 1], 0);
      } else {
        assert s[..|s| - 1] == [];
      }
    } else {
      ReversedAt(s[..|s| - 1], k - 1);
    }
  }

  /** `arr.reverse()`: swaps the two ends towards the middle, in place. */
  method ReverseInPlace<T>(a: array<T>)
    modifies a
    ensures a[..] == Reversed(old(a[..]))
  {
    var n := a.Length;
    var i := 0;
    while i < n / 2
      invariant 0 <= i <= n / 2
      invariant forall k :: 0 <= k < i ==> a[k] == old(a[n - 1 - k]) && a[n - 1 - k] == old(a[k])
      invariant forall k :: i <= k < n - i ==> a[k] == old(a[k])
    {
      a[i], a[n - 1 - i] := a[n - 1 - i], a[i];
      i := i + 1;
    }
    ghost var before := old(a[..]);
    if n == 0 {
      assert before == [];
    } else {
      ReversedAt(before, 0);
      forall k | 0 <= k < n
        ensures a[k] == Reversed(before)[k]
      {
        ReversedAt(before, k);
      }
    }
  }
}
