/**
 * The relative strength index of src/indicators/rsi.rs: the first `period`
 * price changes are summed and averaged into a seed, later changes are
 * Wilder-smoothed, and the index is 100 - 100 / (1 + gain / loss).
 */
module Rsi {
  import opened Options
  import opened Series
  import opened Ranges

  datatype State = State(
    period: nat,
    count: nat,
    prevPrice: Option<real>,
    avgGain: real,
    avgLoss: real,
    current: Option<real>)

  /** `Rsi::new`: the state after no prices at all. */
  function New(period: nat): (e: State)
    ensures period >= 1 ==> After(e, period, [])
  {
    State(period, 0, None, 0.0, 0.0, None)
  }

  /** The upward part of a price change, max(price - prev, 0). */
  function Gain(prev: real, price: real): real {
    Max(price - prev, 0.0)
  }

  /** The downward part of a price change, max(prev - price, 0). */
  function Loss(prev: real, price: real): real {
    Max(prev - price, 0.0)
  }

  /** Gain and loss split a price change into two non-negative parts, one of them zero. */
  lemma GainLossSplit(prev: real, price: real)
    ensures Gain(prev, price) >= 0.0 && Loss(prev, price) >= 0.0
    ensures Gain(prev, price) == 0.0 || Loss(prev, price) == 0.0
    ensures Gain(prev, price) - Loss(prev, price) == price - prev
  {
  }

  /**
   * The index for the given averages. A zero average loss uses rs = 100, so
   * the index is then 100 - 100/101, not 100; otherwise it is the share of
   * gains, 100 * gain / (gain + loss).
   */
  function Index(avgGain: real, avgLoss: real): (rsi: real)
    requires avgGain >= 0.0 && avgLoss >= 0.0
    ensures 0.0 <= rsi < 100.0
    ensures avgLoss == 0.0 ==> rsi == 100.0 - 100.0 / 101.0
    ensures avgLoss > 0.0 ==> rsi * (avgGain + avgLoss) == 100.0 * avgGain
  {
    var rs := if avgLoss == 0.0 then 100.0 else avgGain / avgLoss;
    var q := 100.0 / (1.0 + rs);
    assert q * (1.0 + rs) == 100.0;
    if avgLoss > 0.0 then
      assert rs * avgLoss == avgGain;
      assert (100.0 - q) * (avgGain + avgLoss) == (100.0 - q) * (1.0 + rs) * avgLoss;
      100.0 - q
    else
      100.0 - q
  }

  /**
   * Reachable states: `count` never passes `period`, the averages stay
   * non-negative, and the index exists once `count` has reached `period`,
   * where it is the index of the current averages.
   */
  predicate Valid(e: State) {
    && e.period >= 1
    && e.count <= e.period
    && e.avgGain >= 0.0 && e.avgLoss >= 0.0
    && (e.prevPrice.None? ==> e.count == 0)
    && (e.current.Some? <==> e.count == e.period)
    && (e.current.Some? ==> e.current == Some(Index(e.avgGain, e.avgLoss)))
  }

  /**
   * The averaging half of `Rsi::update` (source lines 24-43): the first call
   * only has a price to remember; while fewer than `period` changes have been
   * seen the averages hold running sums, divided by `period` when the
   * period-th change arrives; from then on they are Wilder-smoothed.
   */
  function Advance(e: State, price: real): (e': State)
    requires Valid(e)
    ensures e'.period == e.period && e'.current == e.current
    ensures e'.avgGain >= 0.0 && e'.avgLoss >= 0.0 && e'.count <= e.period
    ensures e.prevPrice.None? ==> e' == e
    ensures e.prevPrice.Some? ==> e'.count == (if e.count < e.period then e.count + 1 else e.count)
    ensures e.prevPrice.Some? && e.count + 1 < e.period ==>
              var g := Gain(e.prevPrice.value, price);
              var l := Loss(e.prevPrice.value, price);
              e'.avgGain == e.avgGain + g && e'.avgLoss == e.avgLoss + l
    ensures e.prevPrice.Some? && e.count + 1 == e.period ==>
              var g := Gain(e.prevPrice.value, price);
              var l := Loss(e.prevPrice.value, price);
              && e'.avgGain == (e.avgGain + g) / (e.period as real)
              && e'.avgLoss == (e.avgLoss + l) / (e.period as real)
    ensures e.prevPrice.Some? && e.count == e.period ==>
              var g := Gain(e.prevPrice.value, price);
              var l := Loss(e.prevPrice.value, price);
              e'.avgGain == Wilder(e.avgGain, g, e.period) && e'.avgLoss == Wilder(e.avgLoss, l, e.period)
  {
    if e.prevPrice.None? then e
    else
      var prev := e.prevPrice.value;
      var gain := Gain(prev, price);
      var loss := Loss(prev, price);
      if e.count < e.period then
        var count := e.count + 1;
        var sumGain := e.avgGain + gain;
        var sumLoss := e.avgLoss + loss;
        if count == e.period then
          var n := e.period as real;
          e.(count := count, avgGain := sumGain / n, avgLoss := sumLoss / n)
        else
          e.(count := count, avgGain := sumGain, avgLoss := sumLoss)
      else
        e.(avgGain := Wilder(e.avgGain, gain, e.period), avgLoss := Wilder(e.avgLoss, loss, e.period))
  }

  /**
   * `Rsi::update`, returning the new state and the value the source returns:
   * nothing while `count` is below `period`, else the index, also stored as
   * the current value.
   */
  function Update(e: State, price: real): (r: (State, Option<real>))
    requires Valid(e)
    ensures Valid(r.0) && r.0.period == e.period
    ensures r.0.prevPrice == Some(price)
    ensures r.0.count == Advance(e, price).count
    ensures r.0.avgGain == Advance(e, price).avgGain && r.0.avgLoss == Advance(e, price).avgLoss
    ensures r.1 == r.0.current
    ensures r.1.Some? <==> r.0.count == e.period
    ensures r.1.Some? ==> r.1 == Some(Index(r.0.avgGain, r.0.avgLoss))
    ensures r.1.Some? ==> 0.0 <= r.1.value < 100.0
  {
    var e2 := Advance(e, price).(prevPrice := Some(price));
    if e2.count < e2.period then
      (e2, None)
    else
      var rsi := Some(Index(e2.avgGain, e2.avgLoss));
      (e2.(current := rsi), rsi)
  }

  /**
   * `Rsi::get_current_rsi`: on a reachable state, present exactly once
   * `period` changes have been averaged, and then the index of the averages.
   */
  function CurrentRsi(e: State): (r: Option<real>)
    ensures Valid(e) ==> (r.Some? <==> e.count == e.period)
    ensures Valid(e) && r.Some? ==> r == Some(Index(e.avgGain, e.avgLoss)) && 0.0 <= r.value < 100.0
  {
    e.current
  }

  /** The state after feeding `xs` in order. */
  function Run(e: State, xs: seq<real>): (e': State)
    requires Valid(e)
    ensures Valid(e') && e'.period == e.period
    decreases |xs|
  {
    if |xs| == 0 then e else Update(Run(e, xs[..|xs| - 1]), xs[|xs| - 1]).0
  }

  /** The gains between consecutive samples. */
  function Gains(xs: seq<real>): (gs: seq<real>)
    ensures |gs| == if |xs| == 0 then 0 else |xs| - 1
    decreases |xs|
  {
    if |xs| < 2 then [] else Gains(xs[..|xs| - 1]) + [Gain(xs[|xs| - 2], xs[|xs| - 1])]
  }

  /** The losses between consecutive samples. */
  function Losses(xs: seq<real>): (ls: seq<real>)
    ensures |ls| == if |xs| == 0 then 0 else |xs| - 1
    decreases |xs|
  {
    if |xs| < 2 then [] else Losses(xs[..|xs| - 1]) + [Loss(xs[|xs| - 2], xs[|xs| - 1])]
  }

  /**
   * What `e` holds after the samples `xs`: `count` is min(n - 1, period); the
   * index is absent for the first `period` samples and present from sample
   * period + 1; until then the averages are the sums of the changes seen, and
   * at sample period + 1 they are the simple means of the first `period`
   * gains and losses; whenever the index is present it is the index of the
   * averages held.
   */
  predicate After(e: State, period: nat, xs: seq<real>) {
    && e.period == period
    && Valid(e)
    && e.count == (if |xs| == 0 then 0 else if |xs| - 1 < period then |xs| - 1 else period)
    && (e.current.Some? <==> |xs| >= period + 1)
    && (|xs| >= 1 ==> e.prevPrice == Some(xs[|xs| - 1]))
    && (|xs| == 0 ==> e.prevPrice.None?)
    && (|xs| <= period ==> e.avgGain == Sum(Gains(xs)) && e.avgLoss == Sum(Losses(xs)))
    && (|xs| == period + 1 ==> e.avgGain == Mean(Gains(xs)) && e.avgLoss == Mean(Losses(xs)))
    && (e.current.Some? ==> e.current == Some(Index(e.avgGain, e.avgLoss)))
  }

  /** One update moves `After` on by one sample. */
  lemma AfterStep(e: State, period: nat, xs: seq<real>)
    requires |xs| > 0 && After(e, period, xs[..|xs| - 1])
    ensures After(Update(e, xs[|xs| - 1]).0, period, xs)
  {
    var pre := xs[..|xs| - 1];
    if |xs| == 1 {
      assert Gains(xs) == [] && Losses(xs) == [];
    } else {
      assert pre[|pre| - 1] == xs[|xs| - 2];
      assert Gains(xs) == Gains(pre) + [Gain(xs[|xs| - 2], xs[|xs| - 1])];
      assert Losses(xs) == Losses(pre) + [Loss(xs[|xs| - 2], xs[|xs| - 1])];
      SumAppend(Gains(pre), [Gain(xs[|xs| - 2], xs[|xs| - 1])]);
      SumAppend(Losses(pre), [Loss(xs[|xs| - 2], xs[|xs| - 1])]);
    }
  }

  /**
   * Over a price series from `New`, `After` holds; in particular the index is
   * absent for the first `period` prices and present from then on.
   */
  lemma {:induction false} WarmUp(period: nat, xs: seq<real>)
    requires period >= 1
    ensures After(Run(New(period), xs), period, xs)
    ensures CurrentRsi(Run(New(period), xs)).Some? <==> |xs| > period
    decreases |xs|
  {
    if |xs| > 0 {
      WarmUp(period, xs[..|xs| - 1]);
      AfterStep(Run(New(period), xs[..|xs| - 1]), period, xs);
    }
  }
}
