/**
 * The trailing moving average `moving_average(a, n)` shared by both scripts.
 *
 * numpy computes it in three steps over an integer buffer `ret`:
 *   1. `ret = np.cumsum(a, dtype=int)`   -- running totals (CumSum)
 *   2. `ret[n:] = ret[n:] - ret[:-n]`    -- windowed differences; numpy first builds
 *                                           the right-hand side, then assigns (ShiftSubtract)
 *   3. `ret[n - 1:] / n`                 -- true division of the tail (MovingAverage)
 * Short inputs are not an error: every slice is clamped, so the result is empty.
 */
module Averages {

  /** Sum of a[lo..hi], accumulated from the right. */
  function Sum(a: seq<int>, lo: nat, hi: nat): int
    requires lo <= hi <= |a|
    decreases hi - lo
  {
    if lo == hi then 0 else Sum(a, lo, hi - 1) + a[hi - 1]
  }

  /** Mean of the window a[lo..lo+n]. */
  function Mean(a: seq<int>, lo: nat, n: nat): real
    requires 1 <= n && lo + n <= |a|
  {
    Sum(a, lo, lo + n) as real / n as real
  }

  /** Number of complete windows of width n in a sequence of length len. */
  function WindowCount(len: nat, n: nat): nat
    requires n >= 1
  {
    if len >= n then len - n + 1 else 0
  }

  /** Reference definition: element i is the mean of a[i..i+n], computed directly. */
  function WindowMeans(a: seq<int>, n: nat): seq<real>
    requires n >= 1
  {
    seq(WindowCount(|a|, n), i requires 0 <= i < WindowCount(|a|, n) => Mean(a, i, n))
  }

  /** A sum over a[lo..hi] splits at any point mid between lo and hi. */
  lemma {:induction false} SumSplit(a: seq<int>, lo: nat, mid: nat, hi: nat)
    requires lo <= mid <= hi <= |a|
    ensures Sum(a, lo, hi) == Sum(a, lo, mid) + Sum(a, mid, hi)
    decreases hi - mid
  {
    if mid < hi {
      SumSplit(a, lo, mid, hi - 1);
    }
  }

  /** A window sum is the difference of two prefix sums: the identity covid_stats_compare.py:29 relies on. */
  lemma WindowIsPrefixDifference(a: seq<int>, lo: nat, hi: nat)
    requires lo <= hi <= |a|
    ensures Sum(a, lo, hi) == Sum(a, 0, hi) - Sum(a, 0, lo)
  {
    SumSplit(a, 0, lo, hi);
  }

  /** covid_stats_compare.py:28, `np.cumsum(a, dtype=int)`: ret[k] is the sum of a[0..k+1]. */
  method CumSum(a: seq<int>) returns (ret: array<int>)
    ensures fresh(ret) && ret.Length == |a|
    ensures forall k :: 0 <= k < |a| ==> ret[k] == Sum(a, 0, k + 1)
  {
    ret := new int[|a|];
    var total := 0;
    for k := 0 to |a|
      invariant total == Sum(a, 0, k)
      invariant forall j :: 0 <= j < k ==> ret[j] == Sum(a, 0, j + 1)
    {
      total := total + a[k];
      ret[k] := total;
    }
  }

  /**
   * covid_stats_compare.py:29, `ret[n:] = ret[n:] - ret[:-n]`. The differences are taken from the buffer as it
   * was before the assignment; ret[..n] is untouched. When ret has at most n elements both
   * slices are empty and nothing changes.
   */
  method ShiftSubtract(ret: array<int>, n: nat)
    requires n >= 1
    modifies ret
    ensures forall k :: 0 <= k < n && k < ret.Length ==> ret[k] == old(ret[k])
    ensures forall k :: n <= k < ret.Length ==> ret[k] == old(ret[k]) - old(ret[k - n])
  {
    var m := if ret.Length > n then ret.Length - n else 0;
    // the right-hand side, ret[n:] - ret[:-n], as a fresh temporary
    var rhs := new int[m];
    for j := 0 to m
      invariant forall i :: 0 <= i < j ==> rhs[i] == ret[n + i] - ret[i]
      invariant forall k :: 0 <= k < ret.Length ==> ret[k] == old(ret[k])
    {
      rhs[j] := ret[n + j] - ret[j];
    }
    // the slice assignment
    for j := 0 to m
      invariant forall k :: 0 <= k < n && k < ret.Length ==> ret[k] == old(ret[k])
      invariant forall k :: n <= k < n + j ==> ret[k] == rhs[k - n]
      invariant forall k :: n + j <= k < ret.Length ==> ret[k] == old(ret[k])
      invariant forall i :: 0 <= i < m ==> rhs[i] == old(ret[n + i]) - old(ret[i])
    {
      ret[n + j] := rhs[j];
    }
  }

  /**
   * `moving_average(a, n)`: the prefix-sum algorithm computes exactly the direct window means.
   * The result has max(0, |a| - n + 1) elements, and element i is the mean of a[i..i+n].
   */
  method MovingAverage(a: seq<int>, n: nat) returns (r: seq<real>)
    requires n >= 1
    ensures |r| == WindowCount(|a|, n)
    ensures forall i :: 0 <= i < |r| ==> r[i] == Mean(a, i, n)
    ensures r == WindowMeans(a, n)
  {
    var ret := CumSum(a);
    ShiftSubtract(ret, n);
    // after the windowed difference, every position from n - 1 on holds the sum of the window ending there
    forall k | n - 1 <= k < ret.Length
      ensures ret[k] == Sum(a, k + 1 - n, k + 1)
    {
      WindowIsPrefixDifference(a, k + 1 - n, k + 1);
    }
    // the final step, `ret[n - 1:] / n`
    r := [];
    var k := n - 1;
    while k < ret.Length
      invariant n - 1 <= k
      invariant k <= ret.Length || r == []
      invariant |r| == k - (n - 1)
      invariant forall i :: 0 <= i < |r| ==> r[i] == Mean(a, i, n)
      decreases ret.Length - k
    {
      r := r + [ret[k] as real / n as real];
      k := k + 1;
    }
  }

  /** numpy's `dtype=int` cast of a float: truncation toward zero. */
  function Trunc(x: real): (t: int)
    ensures 0.0 <= x ==> t as real <= x < t as real + 1.0
    ensures x < 0.0 ==> t as real - 1.0 < x <= t as real
  {
    if x >= 0.0 then x.Floor else -((-x).Floor)
  }

  /** Element-wise cast of a float series before it is summed. */
  function TruncAll(s: seq<real>): (t: seq<int>)
    ensures |t| == |s|
    ensures forall i :: 0 <= i < |s| ==> t[i] == Trunc(s[i])
  {
    seq(|s|, i requires 0 <= i < |s| => Trunc(s[i]))
  }

  /** Each cast element lies within one of its float, on the side of zero. */
  lemma TruncAllBounds(s: seq<real>, i: nat)
    requires i < |s|
    ensures 0.0 <= s[i] ==> 0 <= TruncAll(s)[i] && TruncAll(s)[i] as real <= s[i] < TruncAll(s)[i] as real + 1.0
    ensures s[i] < 0.0 ==> TruncAll(s)[i] <= 0 && TruncAll(s)[i] as real - 1.0 < s[i] <= TruncAll(s)[i] as real
  {
    var t := Trunc(s[i]);
    assert TruncAll(s)[i] == t;
  }

  /** Window sums of non-negative values are non-negative. */
  lemma {:induction false} SumNonNegative(a: seq<int>, lo: nat, hi: nat)
    requires lo <= hi <= |a|
    requires forall j :: lo <= j < hi ==> a[j] >= 0
    ensures Sum(a, lo, hi) >= 0
    decreases hi - lo
  {
    if lo < hi {
      SumNonNegative(a, lo, hi - 1);
    }
  }

  /** Counts that are never negative give averages that are never negative. */
  lemma MeansNonNegative(a: seq<int>, n: nat)
    requires n >= 1
    requires forall j :: 0 <= j < |a| ==> a[j] >= 0
    ensures forall i :: 0 <= i < |WindowMeans(a, n)| ==> WindowMeans(a, n)[i] >= 0.0
  {
    forall i | 0 <= i < WindowCount(|a|, n)
      ensures Mean(a, i, n) >= 0.0
    {
      SumNonNegative(a, i, i + n);
    }
  }

  /** A window of equal values has that value as its mean. */
  lemma {:induction false} SumConstant(a: seq<int>, lo: nat, hi: nat, v: int)
    requires lo <= hi <= |a|
    requires forall j :: lo <= j < hi ==> a[j] == v
    ensures Sum(a, lo, hi) == (hi - lo) * v
    decreases hi - lo
  {
    if lo < hi {
      SumConstant(a, lo, hi - 1, v);
    }
  }

  /** Averaging a constant series gives that constant at every position. */
  lemma MeansOfConstant(a: seq<int>, n: nat, v: int)
    requires n >= 1
    requires forall j :: 0 <= j < |a| ==> a[j] == v
    ensures forall i :: 0 <= i < |WindowMeans(a, n)| ==> WindowMeans(a, n)[i] == v as real
  {
    forall i | 0 <= i < WindowCount(|a|, n)
      ensures Mean(a, i, n) == v as real
    {
      SumConstant(a, i, i + n, v);
    }
  }

  /** Consecutive window sums differ by the element that enters minus the one that leaves. */
  lemma SlidingStep(a: seq<int>, i: nat, n: nat)
    requires n >= 1 && i + n < |a|
    ensures Sum(a, i + 1, i + 1 + n) == Sum(a, i, i + n) + a[i + n] - a[i]
  {
    SumSplit(a, i, i + 1, i + n);
    SumSplit(a, i + 1, i + n, i + 1 + n);
  }

  /**
   * Consecutive averages differ by (entering - leaving) / n: average i + 1 drops a[i] and takes
   * in a[i + n].
   */
  lemma MeansSlide(a: seq<int>, n: nat, i: nat)
    requires n >= 1 && i + 1 < |WindowMeans(a, n)|
    ensures WindowMeans(a, n)[i + 1] == WindowMeans(a, n)[i] + (a[i + n] - a[i]) as real / n as real
  {
    SlidingStep(a, i, n);
    var s0, s1 := Sum(a, i, i + n), Sum(a, i + 1, i + 1 + n);
    assert WindowMeans(a, n)[i] == s0 as real / n as real;
    assert WindowMeans(a, n)[i + 1] == s1 as real / n as real;
    assert s1 as real / n as real == s0 as real / n as real + (a[i + n] - a[i]) as real / n as real;
  }

  /** A window of three over [3, 5, 0, 2, 4, 6, 8, 10]: six averages, the first mean(3, 5, 0). */
  lemma ExampleWindowOfThree()
    ensures WindowMeans([3, 5, 0, 2, 4, 6, 8, 10], 3) == [8.0 / 3.0, 7.0 / 3.0, 2.0, 4.0, 6.0, 8.0]
  {
    var a := [3, 5, 0, 2, 4, 6, 8, 10];
    var w := WindowMeans(a, 3);
    assert Sum(a, 0, 3) == 8 && Sum(a, 1, 4) == 7 && Sum(a, 2, 5) == 6;
    assert Sum(a, 3, 6) == 12 && Sum(a, 4, 7) == 18 && Sum(a, 5, 8) == 24;
    assert w[0] == 8.0 / 3.0 && w[1] == 7.0 / 3.0 && w[2] == 6.0 / 3.0;
    assert w[3] == 12.0 / 3.0 && w[4] == 18.0 / 3.0 && w[5] == 24.0 / 3.0;
  }

  /** Fewer values than the window: no average at all, and no error. */
  lemma ExampleShortInput()
    ensures WindowMeans([4, 2], 3) == []
  {
  }
}
