/** Price ranges shared by the volatility and trend indicators. */
module Ranges {

  /** A high/low/close bar, the input of ATR and ADX. */
  datatype Hlc = Hlc(high: real, low: real, close: real)

  function Abs(x: real): real {
    if x < 0.0 then -x else x
  }

  function Max(a: real, b: real): real {
    if a >= b then a else b
  }

  function Min(a: real, b: real): real {
    if a <= b then a else b
  }

  /**
   * True range of a bar against the previous close: the largest of
   * high - low, |high - prevClose| and |low - prevClose|.
   */
  function TrueRange(high: real, low: real, prevClose: real): (r: real)
    ensures r >= high - low
    ensures r >= Abs(high - prevClose) && r >= Abs(low - prevClose)
    ensures r == high - low || r == Abs(high - prevClose) || r == Abs(low - prevClose)
    ensures r >= 0.0
  {
    Max(Max(high - low, Abs(high - prevClose)), Abs(low - prevClose))
  }

  lemma MulNonNegative(a: real, b: real)
    requires a >= 0.0 && b >= 0.0
    ensures a * b >= 0.0
  {
  }

  /** A product of reals is zero only if a factor is. */
  lemma ZeroProduct(a: real, b: real)
    requires a * b == 0.0
    ensures a == 0.0 || b == 0.0
  {
  }

  /** The square of x, never negative. */
  function Square(x: real): (r: real)
    ensures r >= 0.0
  {
    x * x
  }

  /** Scaling a quotient is scaling its numerator. */
  lemma MulDiv(a: real, b: real, c: real)
    requires c != 0.0
    ensures a * b / c == a * (b / c)
  {
    var q := b / c;
    assert b == q * c;
    assert a * b == (a * q) * c;
  }

  /** A percentage of a quotient is the quotient of the percentage. */
  lemma ScaledRatio(a: real, d: real)
    requires d != 0.0
    ensures 100.0 * a / d == 100.0 * (a / d)
  {
    MulDiv(100.0, a, d);
  }

  /** A part of a positive whole, as a fraction of it, lies in [0, 1]. */
  lemma UnitRatio(a: real, d: real)
    requires 0.0 <= a <= d && d > 0.0
    ensures 0.0 <= a / d <= 1.0
  {
    var r := a / d;
    assert r * d == a;
    assert (1.0 - r) * d == d - a;
  }

  /** The position of x within [lo, hi] as a percentage lies in [0, 100]. */
  lemma PercentWithin(x: real, lo: real, hi: real)
    requires lo <= x <= hi && lo < hi
    ensures 0.0 <= (x - lo) / (hi - lo) * 100.0 <= 100.0
    ensures 0.0 <= 100.0 * (x - lo) / (hi - lo) <= 100.0
    ensures (x - lo) / (hi - lo) * 100.0 * (hi - lo) == 100.0 * (x - lo)
  {
    var r := (x - lo) / (hi - lo);
    UnitRatio(x - lo, hi - lo);
    assert 0.0 <= r * 100.0 <= 100.0;
    ScaledRatio(x - lo, hi - lo);
    assert r * (hi - lo) == x - lo;
    assert r * 100.0 * (hi - lo) == 100.0 * (r * (hi - lo));
  }

  /** Where x sits within [lo, hi], as a percentage: 0 at lo, 100 at hi. */
  function Percent(x: real, lo: real, hi: real): (p: real)
    requires lo <= x <= hi && lo < hi
    ensures 0.0 <= p <= 100.0
  {
    PercentWithin(x, lo, hi);
    (x - lo) / (hi - lo) * 100.0
  }
}
