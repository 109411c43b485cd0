/**
 * Bollinger bands of src/indicators/bollinger_bands.rs: over the last
 * `period` prices, the middle band is their mean and the outer bands sit two
 * population standard deviations above and below it.
 */
module BollingerBands {
  import opened Options
  import opened Series
  import opened Ranges

  datatype State = State(
    period: nat,
    prices: seq<real>,
    upper: Option<real>,
    middle: Option<real>,
    lower: Option<real>)

  /**
   * `f64::sqrt` on the non-negative reals, as a parameter: any function that
   * maps each non-negative x to a non-negative root of x.
   */
  ghost predicate IsSquareRoot(sqrt: real -> real) {
    forall x :: 0.0 <= x ==> 0.0 <= sqrt(x) && sqrt(x) * sqrt(x) == x
  }

  /** `BollingerBands::new`: the state after no prices. */
  function New(period: nat): (b: State)
    ensures period >= 1 ==> After(b, period, [])
  {
    State(period, [], None, None, None)
  }

  /** Squares of the deviations of the samples from `m`. */
  function SquaredDeviations(s: seq<real>, m: real): (ds: seq<real>)
    ensures |ds| == |s| && AllNonNegative(ds)
    ensures forall i :: 0 <= i < |s| ==> ds[i] == Square(s[i] - m)
  {
    seq(|s|, i requires 0 <= i < |s| => Square(s[i] - m))
  }

  /** Population variance of a non-empty window; never negative. */
  function Variance(s: seq<real>): (v: real)
    requires |s| > 0
    ensures v >= 0.0
  {
    SumNonNegative(SquaredDeviations(s, Mean(s)));
    Sum(SquaredDeviations(s, Mean(s))) / (|s| as real)
  }

  /** Over a window of exactly `period` prices, dividing by the period gives the mean and the variance. */
  lemma FullWindowStatistics(prices: seq<real>, period: nat)
    requires period >= 1
    ensures |prices| == period ==>
              && Sum(prices) / (period as real) == Mean(prices)
              && Sum(SquaredDeviations(prices, Sum(prices) / (period as real))) / (period as real) == Variance(prices)
  {
  }

  /** Bands two deviations either side of the middle are ordered and symmetric. */
  lemma BandsAround(middle: real, std: real, variance: real)
    requires 0.0 <= std && std * std == variance
    ensures var d := ((middle + 2.0 * std) - middle) / 2.0;
            && d == std && d * d == variance
            && middle - (middle - 2.0 * std) == 2.0 * d
            && middle - 2.0 * std <= middle <= middle + 2.0 * std
  {
  }

  /**
   * Reachable states: the window never outgrows the period, and the three
   * bands are present together exactly when it is full.
   */
  predicate Valid(b: State) {
    && b.period >= 1
    && |b.prices| <= b.period
    && (b.middle.Some? <==> |b.prices| == b.period)
    && (b.upper.Some? <==> b.middle.Some?)
    && (b.lower.Some? <==> b.middle.Some?)
    && (b.middle.Some? ==> BandsOf(b))
  }

  /** The bands of a full window hang symmetrically around its mean, 2 standard deviations out. */
  predicate BandsOf(b: State) {
    && b.upper.Some? && b.middle.Some? && b.lower.Some?
    && |b.prices| > 0
    && b.middle.value == Mean(b.prices)
    && var d := (b.upper.value - b.middle.value) / 2.0;
       && d >= 0.0
       && d * d == Variance(b.prices)
       && b.middle.value - b.lower.value == 2.0 * d
  }

  /**
   * `BollingerBands::update`: push the price, evict the oldest beyond
   * `period`, and recompute the bands once the window is full. A period of 0
   * would divide by 0.
   */
  function Update(b: State, price: real, sqrt: real -> real): (b': State)
    requires b.period >= 1 && IsSquareRoot(sqrt)
    ensures b'.period == b.period
    ensures b'.prices == PushThenEvict(b.prices, price, b.period)
    ensures Valid(b) ==> Valid(b') && b'.prices == Last(b.prices + [price], b.period)
    ensures |b'.prices| < b.period ==> b'.upper == b.upper && b'.middle == b.middle && b'.lower == b.lower
    ensures |b'.prices| == b.period ==> BandsOf(b')
    ensures |b'.prices| == b.period ==> b'.lower.value <= b'.middle.value <= b'.upper.value
  {
    var prices := PushThenEvict(b.prices, price, b.period);
    if |prices| < b.period then
      b.(prices := prices)
    else
      var r := Bands(prices, b.period, sqrt);
      State(b.period, prices, Some(r.0), Some(r.1), Some(r.2))
  }

  /**
   * The band computation of `update` on a window: the sum and the squared
   * deviations are divided by `period`, and the outer bands sit two square
   * roots of the variance either side of the middle. On a window of exactly
   * `period` prices this is the mean and the population variance.
   */
  function Bands(prices: seq<real>, period: nat, sqrt: real -> real): (r: (real, real, real))
    requires period >= 1 && IsSquareRoot(sqrt)
    ensures r.2 <= r.1 <= r.0
    ensures |prices| == period ==>
              && period > 0
              && r.1 == Mean(prices)
              && var d := (r.0 - r.1) / 2.0;
                 && d >= 0.0
                 && d * d == Variance(prices)
                 && r.1 - r.2 == 2.0 * d
  {
    var n := period as real;
    var sma := Sum(prices) / n;
    var variance := Sum(SquaredDeviations(prices, sma)) / n;
    SumNonNegative(SquaredDeviations(prices, sma));
    FullWindowStatistics(prices, period);
    var std := sqrt(variance);
    BandsAround(sma, std, variance);
    (sma + 2.0 * std, sma, sma - 2.0 * std)
  }

  /**
   * `BollingerBands::get_bands`: (upper, middle, lower). On a reachable state
   * all three are present exactly when the window is full, the middle is its
   * mean and the outer bands lie equally far either side of it.
   */
  function GetBands(b: State): (r: (Option<real>, Option<real>, Option<real>))
    ensures Valid(b) ==> (r.1.Some? <==> |b.prices| == b.period) && (r.0.Some? <==> r.1.Some?) && (r.2.Some? <==> r.1.Some?)
    ensures Valid(b) && r.1.Some? ==>
              && r.1.value == Mean(b.prices)
              && r.0.value - r.1.value == r.1.value - r.2.value >= 0.0
  {
    (b.upper, b.middle, b.lower)
  }

  /** The state after feeding `xs` in order. */
  function Run(b: State, xs: seq<real>, sqrt: real -> real): (b': State)
    requires b.period >= 1 && IsSquareRoot(sqrt)
    ensures b'.period == b.period
    decreases |xs|
  {
    if |xs| == 0 then b else Update(Run(b, xs[..|xs| - 1], sqrt), xs[|xs| - 1], sqrt)
  }

  /**
   * What `b` holds after the prices `xs`: it is reachable, its window is the
   * last `period` prices, and the bands are absent until `period` prices have
   * been seen.
   */
  predicate After(b: State, period: nat, xs: seq<real>) {
    && b.period == period
    && Valid(b)
    && b.prices == Last(xs, period)
    && (b.middle.Some? <==> |xs| >= period)
  }

  /** One update moves `After` on by one price. */
  lemma AfterStep(b: State, period: nat, xs: seq<real>, sqrt: real -> real)
    requires IsSquareRoot(sqrt) && |xs| > 0 && After(b, period, xs[..|xs| - 1])
    ensures After(Update(b, xs[|xs| - 1], sqrt), period, xs)
  {
    var x := xs[|xs| - 1];
    var b' := Update(b, x, sqrt);
    assert Valid(b');
    WindowStep(b.prices, period, xs);
  }

  /** The window after one more price is the last `period` prices, and is full once `period` have been seen. */
  lemma WindowStep(w: seq<real>, period: nat, xs: seq<real>)
    requires period >= 1 && |xs| > 0 && w == Last(xs[..|xs| - 1], period)
    ensures Last(w + [xs[|xs| - 1]], period) == Last(xs, period)
    ensures |Last(xs, period)| == period <==> |xs| >= period
    ensures |Last(xs, period)| < period ==> |xs[..|xs| - 1]| < period
  {
    var pre := xs[..|xs| - 1];
    var x := xs[|xs| - 1];
    LastSnoc(pre, x, period);
    LastLength(pre, period);
    LastLength(xs, period);
    assert pre + [x] == xs;
  }

  /** Over a price series from `New`, `After` holds. */
  lemma {:induction false} WarmUp(period: nat, xs: seq<real>, sqrt: real -> real)
    requires period >= 1 && IsSquareRoot(sqrt)
    ensures After(Run(New(period), xs, sqrt), period, xs)
    decreases |xs|
  {
    if |xs| > 0 {
      WarmUp(period, xs[..|xs| - 1], sqrt);
      AfterStep(Run(New(period), xs[..|xs| - 1], sqrt), period, xs, sqrt);
    }
  }

  /** Once `period` prices have been seen, the bands describe the last `period` of them. */
  lemma FullWindowBands(period: nat, xs: seq<real>, sqrt: real -> real)
    requires period >= 1 && IsSquareRoot(sqrt) && |xs| >= period
    ensures var b := Run(New(period), xs, sqrt);
            && BandsOf(b) && b.prices == xs[|xs| - period..]
            && b.lower.value <= b.middle.value <= b.upper.value
  {
    var pre := xs[..|xs| - 1];
    WarmUp(period, pre, sqrt);
    WarmUp(period, xs, sqrt);
    LastLength(xs, period);
  }

  /** A constant window has no spread. */
  lemma VarianceOfConstant(s: seq<real>, v: real)
    requires |s| > 0 && AllEqual(s, v)
    ensures Variance(s) == 0.0
  {
    MeanOfConstant(s, v);
    var ds := SquaredDeviations(s, v);
    forall i | 0 <= i < |ds|
      ensures ds[i] == 0.0
    {
      assert s[i] - v == 0.0;
      assert Square(0.0) == 0.0;
    }
    SumOfConstant(ds, 0.0);
  }

  /** A constant window collapses all three bands onto its value. */
  lemma ConstantWindow(b: State, v: real)
    requires BandsOf(b) && AllEqual(b.prices, v)
    ensures b.upper == Some(v) && b.middle == Some(v) && b.lower == Some(v)
  {
    MeanOfConstant(b.prices, v);
    VarianceOfConstant(b.prices, v);
    var d := (b.upper.value - b.middle.value) / 2.0;
    assert d * d == 0.0;
    ZeroProduct(d, d);
    assert b.upper.value - b.middle.value == 2.0 * d;
    assert b.middle.value - b.lower.value == 2.0 * d;
  }
}
