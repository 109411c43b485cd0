/**
 * Average true range of src/indicators/atr.rs: the true ranges of the last
 * `period` bars are kept in a window with their running sum, and the ATR is
 * their simple mean once the window has rolled over at least once.
 */
module Atr {
  import opened Options
  import opened Series
  import opened Ranges

  datatype State = State(
    period: nat,
    prevClose: Option<real>,
    trueRangeSum: real,
    values: seq<real>,
    atrValue: Option<real>)

  /** `Atr::new`: the state after no bars. */
  function New(period: nat): (a: State)
    ensures period >= 1 ==> After(a, period, [])
  {
    State(period, None, 0.0, [], None)
  }

  /**
   * Reachable states: the window never outgrows the period, the running sum
   * is the window's sum, and an ATR value is the mean of a full window.
   */
  predicate Valid(a: State) {
    && a.period >= 1
    && |a.values| <= a.period
    && a.trueRangeSum == Sum(a.values)
    && (a.atrValue.Some? ==> |a.values| == a.period && a.atrValue.value == Mean(a.values))
  }

  /** The bar's true range: high - low for the first bar, else against the previous close. */
  function BarRange(a: State, high: real, low: real): (tr: real)
    ensures a.prevClose.None? ==> tr == high - low
    ensures a.prevClose.Some? ==> tr >= 0.0 && tr >= high - low
  {
    match a.prevClose
    case None => high - low
    case Some(prev) => TrueRange(high, low, prev)
  }

  /**
   * `Atr::update`. A period of 0 would remove from an empty window, which
   * panics in the source.
   */
  function Update(a: State, high: real, low: real, close: real): (a': State)
    requires Valid(a)
    ensures Valid(a') && a'.period == a.period
    ensures a'.prevClose == Some(close)
    ensures a'.values == Last(a.values + [BarRange(a, high, low)], a.period)
    ensures a'.atrValue.Some? <==> a.atrValue.Some? || |a.values| == a.period
  {
    var tr := BarRange(a, high, low);
    if |a.values| < a.period then
      SumAppend(a.values, [tr]);
      a.(trueRangeSum := a.trueRangeSum + tr, values := a.values + [tr], prevClose := Some(close))
    else
      var values := a.values[1..] + [tr];
      var sum := a.trueRangeSum - a.values[0] + tr;
      assert sum == Sum(values) by {
        SumCons(a.values[0], a.values[1..]);
        assert [a.values[0]] + a.values[1..] == a.values;
        SumAppend(a.values[1..], [tr]);
      }
      a.(trueRangeSum := sum, values := values, prevClose := Some(close),
         atrValue := Some(sum / (a.period as real)))
  }

  /** `Atr::get_atr`: on a reachable state, when present, the mean of a full window. */
  function GetAtr(a: State): (r: Option<real>)
    ensures Valid(a) && r.Some? ==> |a.values| == a.period && r.value == Mean(a.values)
  {
    a.atrValue
  }

  /** The state after feeding `bars` in order. */
  function Run(a: State, bars: seq<Hlc>): (a': State)
    requires Valid(a)
    ensures Valid(a') && a'.period == a.period
    decreases |bars|
  {
    if |bars| == 0 then a
    else
      var b := bars[|bars| - 1];
      Update(Run(a, bars[..|bars| - 1]), b.high, b.low, b.close)
  }

  /** Reference: the true range of every bar of a series. */
  function TrueRanges(bars: seq<Hlc>): (trs: seq<real>)
    ensures |trs| == |bars|
    decreases |bars|
  {
    if |bars| == 0 then []
    else
      var b := bars[|bars| - 1];
      var pre := bars[..|bars| - 1];
      TrueRanges(pre)
        + [if |pre| == 0 then b.high - b.low else TrueRange(b.high, b.low, pre[|pre| - 1].close)]
  }

  /**
   * What `a` holds after the bars `bars`: the window is the last `period`
   * true ranges, the ATR is absent for the first `period` bars and is the
   * mean of that window from bar period + 1 on (a simple, not Wilder-smoothed,
   * average), and the previous close is the last bar's.
   */
  predicate After(a: State, period: nat, bars: seq<Hlc>) {
    && a.period == period >= 1
    && a.values == Last(TrueRanges(bars), period)
    && (a.atrValue.Some? <==> |bars| > period)
    && (a.atrValue.Some? ==> |a.values| == period && a.atrValue.value == Mean(a.values))
    && (|bars| > 0 ==> a.prevClose == Some(bars[|bars| - 1].close))
    && (|bars| == 0 ==> a.prevClose.None?)
  }

  /** One update moves `After` on by one bar. */
  lemma AfterStep(a: State, period: nat, bars: seq<Hlc>)
    requires Valid(a) && |bars| > 0 && After(a, period, bars[..|bars| - 1])
    ensures var b := bars[|bars| - 1];
            After(Update(a, b.high, b.low, b.close), period, bars)
  {
    var pre := bars[..|bars| - 1];
    var b := bars[|bars| - 1];
    var tr := BarRange(a, b.high, b.low);
    assert TrueRanges(bars) == TrueRanges(pre) + [tr];
    LastSnoc(TrueRanges(pre), tr, period);
    LastLength(TrueRanges(pre), period);
  }

  /** Over a bar series from `New`, `After` holds. */
  lemma {:induction false} WarmUp(period: nat, bars: seq<Hlc>)
    requires period >= 1
    ensures After(Run(New(period), bars), period, bars)
    decreases |bars|
  {
    if |bars| > 0 {
      WarmUp(period, bars[..|bars| - 1]);
      AfterStep(Run(New(period), bars[..|bars| - 1]), period, bars);
    }
  }
}
