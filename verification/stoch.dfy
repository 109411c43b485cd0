/**
 * The stochastic oscillator of src/indicators/stoch.rs: %K places the latest
 * price within the range of the last `period` prices, and %D is the mean of
 * the three previous %K values, or %K itself while there are fewer than three.
 */
module Stoch {
  import opened Options
  import opened Series
  import opened Ranges

  datatype State = State(period: nat, prices: seq<real>, values: seq<(real, real)>)

  /** `StochasticOscillator::new`: the state after no prices. */
  function New(period: nat): (s: State)
    ensures period >= 1 ==> WindowAfter(s, period, [])
    ensures Bounded(s.values)
  {
    State(period, [], [])
  }

  /** The %K components of a history. */
  function Ks(vs: seq<(real, real)>): (ks: seq<real>)
    ensures |ks| == |vs| && forall i :: 0 <= i < |vs| ==> ks[i] == vs[i].0
  {
    seq(|vs|, i requires 0 <= i < |vs| => vs[i].0)
  }

  /** Every recorded %K and %D lies in [0, 100]. */
  predicate Bounded(vs: seq<(real, real)>) {
    forall i :: 0 <= i < |vs| ==> 0.0 <= vs[i].0 <= 100.0 && 0.0 <= vs[i].1 <= 100.0
  }

  /** The window after `price`: the oldest price leaves first when the window is full. */
  function Window(s: State, price: real): seq<real> {
    EvictThenPush(s.prices, price, s.period)
  }

  /** %K divides by the range of a full window, which must not be flat. */
  predicate CanUpdate(s: State, price: real) {
    var w := Window(s, price);
    |w| < s.period || MaxOf(w) != MinOf(w)
  }

  /** %K: where `price` sits within the range of the window `w`, which ends with it. */
  function PercentK(w: seq<real>, price: real): (k: real)
    requires |w| > 0 && w[|w| - 1] == price && MaxOf(w) != MinOf(w)
    ensures MinOf(w) <= price <= MaxOf(w) && k == Percent(price, MinOf(w), MaxOf(w))
    ensures 0.0 <= k <= 100.0
  {
    var hi := MaxOf(w);
    var lo := MinOf(w);
    assert lo <= w[|w| - 1] <= hi;
    Percent(price, lo, hi)
  }

  /** The three latest %K values of a bounded history have a mean in [0, 100]. */
  lemma LatestWithin(values: seq<(real, real)>)
    requires |values| >= 3
    ensures Bounded(values) ==> 0.0 <= Mean(Ks(values)[|values| - 3..]) <= 100.0
  {
    if Bounded(values) {
      MeanWithin(Ks(values)[|values| - 3..], 0.0, 100.0);
    }
  }

  /** %D: the mean of the three latest earlier %K values, or %K itself while there are fewer. */
  function PercentD(values: seq<(real, real)>, k: real): (d: real)
    ensures |values| < 3 ==> d == k
    ensures |values| >= 3 ==> d == Mean(Ks(values)[|values| - 3..])
    ensures Bounded(values) && 0.0 <= k <= 100.0 ==> 0.0 <= d <= 100.0
  {
    var n := |values|;
    if n < 3 then k
    else
      var last3 := Ks(values)[n - 3..];
      LatestWithin(values);
      assert last3 == [values[n - 3].0] + [values[n - 2].0] + [values[n - 1].0];
      SumAppend([values[n - 3].0] + [values[n - 2].0], [values[n - 1].0]);
      SumAppend([values[n - 3].0], [values[n - 2].0]);
      (values[n - 1].0 + values[n - 2].0 + values[n - 3].0) / 3.0
  }

  /** `v` is the (%K, %D) of `price` closing the full window `w` after the history `values`. */
  predicate Records(w: seq<real>, price: real, values: seq<(real, real)>, v: (real, real)) {
    && |w| > 0 && w[|w| - 1] == price && MaxOf(w) != MinOf(w)
    && v == (PercentK(w, price), PercentD(values, v.0))
  }

  /**
   * `StochasticOscillator::update`, returning the new state and (%K, %D) once
   * the window holds `period` prices.
   */
  function Update(s: State, price: real): (r: (State, Option<(real, real)>))
    requires CanUpdate(s, price)
    ensures r.0.period == s.period && r.0.prices == Window(s, price)
    ensures r.1.None? <==> |r.0.prices| < s.period
    ensures r.1.None? ==> r.0.values == s.values
    ensures r.1.Some? ==> r.0.values == s.values + [r.1.value] && Records(r.0.prices, price, s.values, r.1.value)
  {
    var w := Window(s, price);
    if |w| < s.period then
      (s.(prices := w), None)
    else
      assert w[|w| - 1] == price;
      var k := PercentK(w, price);
      var d := PercentD(s.values, k);
      (State(s.period, w, s.values + [(k, d)]), Some((k, d)))
  }

  /** Every step of feeding `xs` from `s` meets a non-flat full window. */
  predicate Runnable(s: State, xs: seq<real>)
    decreases |xs|, 0
  {
    |xs| == 0 || (Runnable(s, xs[..|xs| - 1]) && CanUpdate(Run(s, xs[..|xs| - 1]), xs[|xs| - 1]))
  }

  /** The state after feeding `xs` in order. */
  function Run(s: State, xs: seq<real>): (s': State)
    requires Runnable(s, xs)
    ensures s'.period == s.period
    decreases |xs|, 1
  {
    if |xs| == 0 then s else Update(Run(s, xs[..|xs| - 1]), xs[|xs| - 1]).0
  }

  /** The window and history counts a state holds after the prices `xs`. */
  predicate WindowAfter(s: State, period: nat, xs: seq<real>) {
    && s.period == period
    && s.prices == Last(xs, period)
    && |s.values| == (if |xs| < period then 0 else |xs| - period + 1)
  }

  /** One update moves `WindowAfter` on by one price. */
  lemma WindowStep(s: State, period: nat, xs: seq<real>)
    requires period >= 1 && |xs| > 0 && WindowAfter(s, period, xs[..|xs| - 1]) && CanUpdate(s, xs[|xs| - 1])
    ensures WindowAfter(Update(s, xs[|xs| - 1]).0, period, xs)
  {
    LastLength(xs[..|xs| - 1], period);
    PricesStep(s, period, xs);
    CountStep(s, period, |xs| - 1, xs[|xs| - 1]);
  }

  /** The window after one more price. */
  lemma PricesStep(s: State, period: nat, xs: seq<real>)
    requires period >= 1 && |xs| > 0 && s.period == period && s.prices == Last(xs[..|xs| - 1], period)
    ensures Window(s, xs[|xs| - 1]) == Last(xs, period)
  {
    var pre := xs[..|xs| - 1];
    var x := xs[|xs| - 1];
    LastLength(pre, period);
    LastSnoc(pre, x, period);
    assert pre + [x] == xs;
  }

  /** The history grows by one exactly when the window is full. */
  lemma CountStep(s: State, period: nat, n: nat, x: real)
    requires period >= 1 && s.period == period && |s.prices| == (if n <= period then n else period) && CanUpdate(s, x)
    requires |s.values| == (if n < period then 0 else n - period + 1)
    ensures |Update(s, x).0.values| == (if n + 1 < period then 0 else n + 1 - period + 1)
  {
  }

  /**
   * Over a price series the window is the last `period` prices and one
   * (%K, %D) pair is recorded per price from the period-th on.
   */
  lemma {:induction false} WarmUp(period: nat, xs: seq<real>)
    requires period >= 1 && Runnable(New(period), xs)
    ensures WindowAfter(Run(New(period), xs), period, xs)
    decreases |xs|
  {
    if |xs| > 0 {
      var pre := xs[..|xs| - 1];
      var x := xs[|xs| - 1];
      WarmUp(period, pre);
      WindowStep(Run(New(period), pre), period, xs);
    }
  }

  /** Over a price series every recorded %K and %D lies in [0, 100]. */
  lemma {:induction false} AlwaysBounded(period: nat, xs: seq<real>)
    requires period >= 1 && Runnable(New(period), xs)
    ensures Bounded(Run(New(period), xs).values)
    decreases |xs|
  {
    if |xs| > 0 {
      var pre := xs[..|xs| - 1];
      AlwaysBounded(period, pre);
      UpdateBounded(Run(New(period), pre), xs[|xs| - 1]);
    }
  }

  /** An update records only values in [0, 100]. */
  lemma UpdateBounded(s: State, price: real)
    requires CanUpdate(s, price) && Bounded(s.values)
    ensures Bounded(Update(s, price).0.values)
  {
    var r := Update(s, price);
    if r.1.Some? {
      var v := r.1.value;
      assert 0.0 <= v.0 <= 100.0;
      assert 0.0 <= v.1 <= 100.0;
      assert Bounded(s.values + [v]);
    }
  }
}
