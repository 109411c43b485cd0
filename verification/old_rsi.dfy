/**
 * The older RSI of src/old/indicators/rsi.rs: the first price change seeds
 * the average gain and loss directly, later changes are Wilder-smoothed, and
 * from the second price on the index is recomputed with no guard against a
 * zero average loss, so it can be 100 or NaN.
 */
module OldRsi {
  import opened Options
  import opened Series
  import opened Ranges
  import Rsi

  /** An `f64` index: a number, or NaN. */
  datatype Reading = Number(value: real) | NaN

  datatype State = State(
    period: nat,
    prevPrice: Option<real>,
    avgGain: Option<real>,
    avgLoss: Option<real>,
    rsi: Option<Reading>)

  /** `Rsi::new`: a reachable state with no averages and no index. */
  function New(period: nat): (e: State)
    ensures period >= 1 ==> Valid(e)
    ensures GetRsi(e).None? && e.prevPrice.None?
  {
    State(period, None, None, None, None)
  }

  /** `Rsi::calculate_gain_loss`: the positive and the negative part of the price difference. */
  function CalculateGainLoss(prev: real, close: real): (real, real) {
    var diff := close - prev;
    (if diff > 0.0 then diff else 0.0, if diff < 0.0 then Abs(diff) else 0.0)
  }

  /** `calculate_gain_loss` agrees with the gain and loss that `update` computes inline. */
  lemma CalculateGainLossAgrees(prev: real, close: real)
    ensures CalculateGainLoss(prev, close) == (Rsi.Gain(prev, close), Rsi.Loss(prev, close))
  {
  }

  /**
   * Reachable states: the averages appear together, with the index, once a
   * price change has been seen, and they are never negative.
   */
  predicate Valid(e: State) {
    && e.period >= 1
    && (e.avgGain.Some? <==> e.avgLoss.Some?)
    && (e.rsi.Some? <==> e.avgGain.Some?)
    && (e.prevPrice.None? ==> e.avgGain.None?)
    && (e.avgGain.Some? ==> e.avgGain.value >= 0.0 && e.avgLoss.value >= 0.0)
    && (e.rsi.Some? ==> e.rsi == Some(OldIndex(e.avgGain.value, e.avgLoss.value)))
  }

  /** The averages after a change from `prev` to `price`: the seed, or one Wilder step. */
  function Averages(e: State, prev: real, price: real): (r: (real, real))
    requires Valid(e)
    ensures r.0 >= 0.0 && r.1 >= 0.0
    ensures e.avgGain.None? ==> r == (Rsi.Gain(prev, price), Rsi.Loss(prev, price))
    ensures e.avgGain.Some? ==>
              r == (Wilder(e.avgGain.value, Rsi.Gain(prev, price), e.period),
                    Wilder(e.avgLoss.value, Rsi.Loss(prev, price), e.period))
  {
    var gain := Rsi.Gain(prev, price);
    var loss := Rsi.Loss(prev, price);
    Rsi.GainLossSplit(prev, price);
    if e.avgGain.None? then (gain, loss)
    else (Wilder(e.avgGain.value, gain, e.period), Wilder(e.avgLoss.value, loss, e.period))
  }

  /**
   * The old index of the averages, computed in `f64` with no guard:
   * 100 - 100 / (1 + gain / loss). A positive loss gives the current
   * `Rsi.Index`. A zero loss with a positive gain makes gain / loss +inf, so
   * 100 / (1 + inf) is 0 and the index is exactly 100. Zero gain and loss give
   * 0 / 0, so the index is NaN. A number is always the share of gains.
   */
  function OldIndex(avgGain: real, avgLoss: real): (r: Reading)
    requires avgGain >= 0.0 && avgLoss >= 0.0
    ensures r.NaN? <==> avgGain == 0.0 && avgLoss == 0.0
    ensures avgLoss > 0.0 ==> r == Number(Rsi.Index(avgGain, avgLoss))
    ensures avgLoss == 0.0 && avgGain > 0.0 ==> r == Number(100.0)
    ensures r.Number? ==> 0.0 <= r.value <= 100.0 && r.value * (avgGain + avgLoss) == 100.0 * avgGain
  {
    if avgLoss > 0.0 then Number(UnguardedIndex(avgGain, avgLoss))
    else if avgGain > 0.0 then Number(100.0)
    else NaN
  }

  /**
   * The unguarded formula 100 - 100 / (1 + gain / loss) for a positive loss;
   * it is the current `Rsi.Index`.
   */
  function UnguardedIndex(avgGain: real, avgLoss: real): (rsi: real)
    requires avgGain >= 0.0 && avgLoss > 0.0
    ensures rsi == Rsi.Index(avgGain, avgLoss)
  {
    assert avgGain / avgLoss * avgLoss == avgGain;
    assert 1.0 + avgGain / avgLoss >= 1.0;
    100.0 - 100.0 / (1.0 + avgGain / avgLoss)
  }

  /**
   * `Rsi::update`. The first price is only remembered. Every later price
   * updates the averages and sets the index to `OldIndex` of them. The
   * averages never divide by zero, so every price series is accepted.
   */
  function Update(e: State, price: real): (e': State)
    requires Valid(e)
    ensures Valid(e') && e'.period == e.period && e'.prevPrice == Some(price)
    ensures e.prevPrice.None? ==> e'.avgGain == e.avgGain && e'.avgLoss == e.avgLoss && e'.rsi == e.rsi
    ensures e.prevPrice.Some? ==>
              var r := Averages(e, e.prevPrice.value, price);
              && e'.avgGain == Some(r.0) && e'.avgLoss == Some(r.1)
              && e'.rsi == Some(OldIndex(r.0, r.1))
  {
    match e.prevPrice
    case None => e.(prevPrice := Some(price))
    case Some(prev) =>
      var r := Averages(e, prev, price);
      State(e.period, Some(price), Some(r.0), Some(r.1), Some(OldIndex(r.0, r.1)))
  }

  /**
   * A NaN index does not stick: the averages stay finite, so the next fall
   * gives a positive average loss and a numeric index again.
   */
  lemma RecoversAfterNaN(e: State, price: real)
    requires Valid(e) && e.rsi == Some(NaN) && price < e.prevPrice.value
    ensures var e' := Update(e, price);
            e'.rsi.Some? && e'.rsi.value.Number? && e'.avgLoss.value > 0.0
  {
    var prev := e.prevPrice.value;
    assert Rsi.Loss(prev, price) == prev - price > 0.0;
    assert e.avgLoss.value == 0.0;
    var l := Wilder(0.0, Rsi.Loss(prev, price), e.period);
    assert l - 0.0 == (Rsi.Loss(prev, price) - 0.0) / (e.period as real);
  }

  /** `Rsi::get_rsi`: on a reachable state, present exactly when the averages are, and then their `OldIndex`. */
  function GetRsi(e: State): (r: Option<Reading>)
    ensures Valid(e) ==> (r.Some? <==> e.avgGain.Some?)
    ensures Valid(e) && r.Some? ==> r == Some(OldIndex(e.avgGain.value, e.avgLoss.value))
    ensures Valid(e) && r.Some? && r.value.Number? ==> 0.0 <= r.value.value <= 100.0
  {
    e.rsi
  }

  /** The state after feeding `xs` in order. */
  function Run(e: State, xs: seq<real>): (e': State)
    requires Valid(e)
    ensures Valid(e') && e'.period == e.period
    decreases |xs|
  {
    if |xs| == 0 then e else Update(Run(e, xs[..|xs| - 1]), xs[|xs| - 1])
  }

  /** Reference: a non-empty series seeded with its first value and Wilder-smoothed from then on. */
  function WilderFold(s: seq<real>, period: nat): real
    requires |s| > 0 && period >= 1
    decreases |s|
  {
    if |s| == 1 then s[0] else Wilder(WilderFold(s[..|s| - 1], period), s[|s| - 1], period)
  }

  /**
   * Over any price series the averages and the index are absent until the
   * second price; from then on the averages are the Wilder folds of the gains
   * and losses seeded with the first change, and the index is their `OldIndex`.
   */
  lemma {:induction false} WarmUp(period: nat, xs: seq<real>)
    requires period >= 1
    ensures var e := Run(New(period), xs);
            && (|xs| >= 1 ==> e.prevPrice == Some(xs[|xs| - 1]))
            && (|xs| <= 1 ==> e.avgGain.None? && e.avgLoss.None? && e.rsi.None?)
            && (|xs| >= 2 ==>
                  && e.avgGain == Some(WilderFold(Rsi.Gains(xs), period))
                  && e.avgLoss == Some(WilderFold(Rsi.Losses(xs), period))
                  && e.rsi == Some(OldIndex(e.avgGain.value, e.avgLoss.value)))
    decreases |xs|
  {
    if |xs| > 0 {
      var pre := xs[..|xs| - 1];
      WarmUp(period, pre);
      if |xs| >= 2 {
        assert pre[|pre| - 1] == xs[|xs| - 2];
        var gs := Rsi.Gains(xs);
        var ls := Rsi.Losses(xs);
        assert gs[..|gs| - 1] == Rsi.Gains(pre);
        assert ls[..|ls| - 1] == Rsi.Losses(pre);
      }
    }
  }

  /**
   * A first change that is a rise gives index 100, and a fall of 2 after a
   * rise of 1 at period 14 gives averages 13/14 and 2/14, so index 260/3.
   */
  lemma RiseThenFall()
    ensures GetRsi(Run(New(14), [100.0, 101.0])) == Some(Number(100.0))
    ensures GetRsi(Run(New(14), [100.0, 101.0, 99.0])) == Some(Number(260.0 / 3.0))
  {
    var e1 := Run(New(14), [100.0]);
    assert [100.0, 101.0][..1] == [100.0];
    assert [100.0, 101.0, 99.0][..2] == [100.0, 101.0];
    var e2 := Run(New(14), [100.0, 101.0]);
    assert e2 == Update(e1, 101.0);
    assert e2.avgGain == Some(1.0) && e2.avgLoss == Some(0.0);
    var e3 := Update(e2, 99.0);
    assert e3 == Run(New(14), [100.0, 101.0, 99.0]);
    assert e3.avgGain == Some(13.0 / 14.0) && e3.avgLoss == Some(2.0 / 14.0);
  }
}
