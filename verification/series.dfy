/**
 * Arithmetic over sample sequences shared by the indicators: sums and means,
 * extrema, and the fixed-capacity FIFO windows that several indicators keep.
 */
module Series {

  /** Sum of the samples, folded from the back so that appending is one step. */
  function Sum(s: seq<real>): real
    decreases |s|
  {
    if |s| == 0 then 0.0 else Sum(s[..|s| - 1]) + s[|s| - 1]
  }

  /** Arithmetic mean of a non-empty sequence. */
  function Mean(s: seq<real>): real
    requires |s| > 0
  {
    Sum(s) / (|s| as real)
  }

  /** Every sample equals `v`. */
  predicate AllEqual(s: seq<real>, v: real) {
    forall i :: 0 <= i < |s| ==> s[i] == v
  }

  /** Every sample lies in the closed interval [lo, hi]. */
  predicate AllWithin(s: seq<real>, lo: real, hi: real) {
    forall i :: 0 <= i < |s| ==> lo <= s[i] <= hi
  }

  /** Every sample is non-negative. */
  predicate AllNonNegative(s: seq<real>) {
    forall i :: 0 <= i < |s| ==> 0.0 <= s[i]
  }

  lemma {:induction false} SumAppend(s: seq<real>, t: seq<real>)
    ensures Sum(s + t) == Sum(s) + Sum(t)
    decreases |t|
  {
    if |t| == 0 {
      assert s + t == s;
    } else {
      assert (s + t)[..|s + t| - 1] == s + t[..|t| - 1];
      SumAppend(s, t[..|t| - 1]);
    }
  }

  lemma SumCons(x: real, s: seq<real>)
    ensures Sum([x] + s) == x + Sum(s)
  {
    SumAppend([x], s);
    assert [x][..0] == [];
  }

  lemma {:induction false} SumOfConstant(s: seq<real>, v: real)
    requires AllEqual(s, v)
    ensures Sum(s) == (|s| as real) * v
    decreases |s|
  {
    if |s| > 0 {
      SumOfConstant(s[..|s| - 1], v);
    }
  }

  lemma MeanOfConstant(s: seq<real>, v: real)
    requires |s| > 0 && AllEqual(s, v)
    ensures Mean(s) == v
  {
    SumOfConstant(s, v);
  }

  lemma {:induction false} SumNonNegative(s: seq<real>)
    requires AllNonNegative(s)
    ensures Sum(s) >= 0.0
    decreases |s|
  {
    if |s| > 0 {
      SumNonNegative(s[..|s| - 1]);
    }
  }

  lemma {:induction false} SumWithin(s: seq<real>, lo: real, hi: real)
    requires AllWithin(s, lo, hi)
    ensures (|s| as real) * lo <= Sum(s) <= (|s| as real) * hi
    decreases |s|
  {
    if |s| > 0 {
      var pre := s[..|s| - 1];
      var n := |pre| as real;
      assert AllWithin(pre, lo, hi) by {
        forall i | 0 <= i < |pre| ensures lo <= pre[i] <= hi {
          assert pre[i] == s[i];
        }
      }
      SumWithin(pre, lo, hi);
      assert lo <= s[|s| - 1] <= hi;
      assert Sum(s) == Sum(pre) + s[|s| - 1];
      assert (|s| as real) * lo == n * lo + lo;
      assert (|s| as real) * hi == n * hi + hi;
    }
  }

  lemma MeanWithin(s: seq<real>, lo: real, hi: real)
    requires |s| > 0 && AllWithin(s, lo, hi)
    ensures lo <= Mean(s) <= hi
  {
    SumWithin(s, lo, hi);
    var n := |s| as real;
    assert Sum(s) / n >= lo by { assert Sum(s) >= n * lo; }
    assert Sum(s) / n <= hi by { assert Sum(s) <= n * hi; }
  }

  /** The largest sample: it occurs in `s` and bounds every sample from above. */
  function MaxOf(s: seq<real>): (m: real)
    requires |s| > 0
    ensures m in s
    ensures forall i :: 0 <= i < |s| ==> s[i] <= m
    decreases |s|
  {
    if |s| == 1 then s[0]
    else
      var m' := MaxOf(s[..|s| - 1]);
      if s[|s| - 1] > m' then s[|s| - 1] else m'
  }

  /** The smallest sample: it occurs in `s` and bounds every sample from below. */
  function MinOf(s: seq<real>): (m: real)
    requires |s| > 0
    ensures m in s
    ensures forall i :: 0 <= i < |s| ==> m <= s[i]
    decreases |s|
  {
    if |s| == 1 then s[0]
    else
      var m' := MinOf(s[..|s| - 1]);
      if s[|s| - 1] < m' then s[|s| - 1] else m'
  }

  /** The most recent (at most) `k` elements of `s`. */
  function Last<T>(s: seq<T>, k: nat): seq<T>
  {
    if |s| <= k then s else s[|s| - k..]
  }

  lemma LastLength<T>(s: seq<T>, k: nat)
    ensures |Last(s, k)| == if |s| <= k then |s| else k
    ensures Last(s, k) == s[|s| - |Last(s, k)|..]
  {
  }

  /**
   * Append, then drop the oldest sample when the window exceeds its capacity
   * (the order the Bollinger bands use).
   */
  function PushThenEvict(w: seq<real>, x: real, cap: nat): (w': seq<real>)
    ensures |w| <= cap ==> w' == Last(w + [x], cap)
  {
    var p := w + [x];
    if |p| > cap then p[1..] else p
  }

  /**
   * Drop the oldest sample when the window is already at capacity, then
   * append (the order the stochastic oscillators use).
   */
  function EvictThenPush(w: seq<real>, x: real, cap: nat): (w': seq<real>)
    ensures 1 <= cap && |w| <= cap ==> w' == Last(w + [x], cap)
    ensures cap == 0 ==> w' == w + [x]
  {
    if |w| == cap && |w| > 0 then w[1..] + [x] else w + [x]
  }

  /** Keeping the last `k` of a stream and pushing one more is the last `k` of the longer stream. */
  lemma LastSnoc(xs: seq<real>, x: real, k: nat)
    ensures Last(Last(xs, k) + [x], k) == Last(xs + [x], k)
  {
    if |xs| > k && k > 0 {
      assert Last(xs, k) + [x] == xs[|xs| - k..] + [x];
      assert (xs + [x])[|xs| + 1 - k..] == (xs[|xs| - k..] + [x])[1..];
    }
  }

  /** Scaling by a factor in [0, 1] keeps a value between 0 and itself. */
  lemma ScaleWithin(d: real, m: real)
    requires 0.0 <= m <= 1.0
    ensures d >= 0.0 ==> 0.0 <= d * m <= d
    ensures d < 0.0 ==> d <= d * m <= 0.0
  {
    if d >= 0.0 {
      assert d * (1.0 - m) >= 0.0;
    } else {
      assert (-d) * (1.0 - m) >= 0.0;
      assert (-d) * m >= 0.0;
    }
  }

  /**
   * Wilder smoothing of an average with a new sample over `period` steps:
   * (avg * (period - 1) + x) / period, a weighted mean of the two.
   */
  function Wilder(avg: real, x: real, period: nat): (r: real)
    requires period >= 1
    ensures (if avg <= x then avg else x) <= r <= (if avg <= x then x else avg)
    ensures r - avg == (x - avg) / (period as real)
  {
    var n := period as real;
    var w := 1.0 / n;
    assert (avg * (n - 1.0) + x) / n - avg == (x - avg) / n;
    assert 0.0 < w <= 1.0 by {
      assert w * n == 1.0;
    }
    assert (x - avg) / n == (x - avg) * w;
    ScaleWithin(x - avg, w);
    (avg * (n - 1.0) + x) / n
  }
}
