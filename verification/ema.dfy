/**
 * The exponential moving average of src/indicators/ema.rs: the first
 * `period` samples are buffered and their mean seeds the average, after which
 * every sample pulls the average towards it by the factor 2 / (period + 1).
 */
module Ema {
  import opened Options
  import opened Series
  import opened Ranges

  datatype State = State(period: nat, sma: seq<real>, current: Option<real>)

  /** The smoothing factor 2 / (period + 1), in (0, 1] for any valid period. */
  function Multiplier(period: nat): (m: real)
    ensures period >= 1 ==> 0.0 < m <= 1.0
  {
    2.0 / (period as real + 1.0)
  }

  /** `Ema::new`: a reachable state with an empty seed buffer and no average. */
  function New(period: nat): (e: State)
    ensures period >= 1 ==> Valid(e)
    ensures e.period == period && |e.sma| == 0 && e.current.None?
  {
    State(period, [], None)
  }

  /**
   * Reachable states: the seed buffer never outgrows the period, and the
   * average exists exactly when the buffer is full.
   */
  predicate Valid(e: State) {
    && e.period >= 1
    && |e.sma| <= e.period
    && (e.current.Some? <==> |e.sma| == e.period)
  }

  /** `Ema::get_ema`: on a reachable state, present exactly once the seed buffer is full. */
  function Value(e: State): (r: Option<real>)
    ensures Valid(e) ==> (r.Some? <==> |e.sma| == e.period)
  {
    e.current
  }

  /**
   * `Ema::update`; the source returns the new `current`, which is `Value` of
   * the returned state. A period of 0 would divide the empty seed sum by 0.
   */
  function Update(e: State, price: real): (e': State)
    requires e.period >= 1
    ensures e'.period == e.period
    ensures Valid(e) ==> Valid(e')
    ensures e'.sma == (if |e.sma| < e.period then e.sma + [price] else e.sma)
    ensures e.current.None? && e'.current.Some? ==>
              |e'.sma| == e.period && e'.current.value == Mean(e'.sma)
    ensures e.current.None? && |e'.sma| == e.period ==> e'.current.Some?
    ensures e.current.Some? ==> e'.current.Some?
  {
    var sma := if |e.sma| < e.period then e.sma + [price] else e.sma;
    var current :=
      if e.current.Some? then
        var prev := e.current.value;
        Some((price - prev) * Multiplier(e.period) + prev)
      else if |sma| == e.period then Some(Sum(sma) / (e.period as real))
      else None;
    State(e.period, sma, current)
  }

  /**
   * Once seeded, each update pulls the average towards the new price: the
   * distance to the price shrinks by the factor 1 - 2 / (period + 1), so the
   * new average lies between the old one and the price.
   */
  lemma Pull(e: State, price: real)
    requires e.period >= 1 && e.current.Some?
    ensures var e' := Update(e, price);
            && e'.current.Some?
            && e'.current.value - price == (1.0 - Multiplier(e.period)) * (e.current.value - price)
            && Min(e.current.value, price) <= e'.current.value <= Max(e.current.value, price)
  {
    var prev := e.current.value;
    var m := Multiplier(e.period);
    var next := Update(e, price).current.value;
    assert next == (price - prev) * m + prev;
    calc {
      next - price;
      (price - prev) * m - (price - prev);
      (1.0 - m) * (prev - price);
    }
    ScaleWithin(price - prev, m);
  }

  /** The average after feeding `xs` in order. */
  function Run(e: State, xs: seq<real>): (e': State)
    requires e.period >= 1
    ensures e'.period == e.period
    decreases |xs|
  {
    if |xs| == 0 then e else Update(Run(e, xs[..|xs| - 1]), xs[|xs| - 1])
  }

  /** Feeding one more sample is one more update. */
  lemma RunSnoc(e: State, xs: seq<real>, x: real)
    requires e.period >= 1
    ensures Run(e, xs + [x]) == Update(Run(e, xs), x)
  {
    assert (xs + [x])[..|xs|] == xs;
  }

  /**
   * Warm-up: the average is absent for the first period - 1 samples, the
   * seed buffer holds the first `period` samples, and the period-th sample
   * yields their arithmetic mean.
   */
  lemma {:induction false} WarmUp(period: nat, xs: seq<real>)
    requires period >= 1
    ensures var e := Run(New(period), xs);
            && Valid(e)
            && e.sma == (if |xs| < period then xs else xs[..period])
            && (e.current.Some? <==> |xs| >= period)
            && (|xs| == period ==> e.current == Some(Mean(xs)))
    decreases |xs|
  {
    Buffer(period, xs);
    if |xs| == period {
      SeedIsMean(period, xs);
    }
  }

  /** Over any series the buffer is the first `period` samples, and the average exists once it is full. */
  lemma {:induction false} Buffer(period: nat, xs: seq<real>)
    requires period >= 1
    ensures var e := Run(New(period), xs);
            && Valid(e)
            && e.sma == (if |xs| < period then xs else xs[..period])
    decreases |xs|
  {
    if |xs| > 0 {
      var pre := xs[..|xs| - 1];
      Buffer(period, pre);
      var e0 := Run(New(period), pre);
      assert Run(New(period), xs) == Update(e0, xs[|xs| - 1]);
      BufferStep(e0, period, xs);
    }
  }

  /** One update extends a buffer holding the first samples of `xs[..|xs| - 1]` to those of `xs`. */
  lemma BufferStep(e0: State, period: nat, xs: seq<real>)
    requires period >= 1 && |xs| > 0 && Valid(e0) && e0.period == period
    requires var pre := xs[..|xs| - 1]; e0.sma == (if |pre| < period then pre else pre[..period])
    ensures var e := Update(e0, xs[|xs| - 1]);
            Valid(e) && e.sma == (if |xs| < period then xs else xs[..period])
  {
    var pre := xs[..|xs| - 1];
    if |xs| <= period {
      assert pre + [xs[|xs| - 1]] == xs;
    } else {
      assert pre[..period] == xs[..period];
    }
  }

  /** The sample that fills the buffer seeds the average with the buffer's mean. */
  lemma SeedIsMean(period: nat, xs: seq<real>)
    requires period >= 1 && |xs| == period
    ensures Run(New(period), xs).current == Some(Mean(xs))
  {
    var pre := xs[..|xs| - 1];
    Buffer(period, pre);
    var e0 := Run(New(period), pre);
    assert Run(New(period), xs) == Update(e0, xs[|xs| - 1]);
    SeedStep(e0, xs[|xs| - 1]);
    assert pre + [xs[|xs| - 1]] == xs;
  }

  /** The update that fills the buffer seeds the average with the mean of the full buffer. */
  lemma SeedStep(e0: State, x: real)
    requires Valid(e0) && |e0.sma| + 1 == e0.period
    ensures Update(e0, x).current == Some(Mean(e0.sma + [x]))
  {
    var e := Update(e0, x);
    assert e.sma == e0.sma + [x];
  }

  /** A constant input v makes the average exactly v from the seed onward. */
  lemma {:induction false} ConstantInput(period: nat, xs: seq<real>, v: real)
    requires period >= 1 && |xs| >= period && AllEqual(xs, v)
    ensures Run(New(period), xs).current == Some(v)
    decreases |xs|
  {
    if |xs| == period {
      WarmUp(period, xs);
      MeanOfConstant(xs, v);
    } else {
      var pre := xs[..|xs| - 1];
      assert AllEqual(pre, v);
      ConstantInput(period, pre, v);
      var e0 := Run(New(period), pre);
      assert Run(New(period), xs) == Update(e0, xs[|xs| - 1]);
      assert xs[|xs| - 1] == v;
      Pull(e0, v);
    }
  }
}
