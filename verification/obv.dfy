/**
 * On-balance volume of src/indicators/obv.rs: a running total of volume,
 * added on an up-close, subtracted on a down-close, seeded with the first
 * bar's volume.
 */
module Obv {
  import opened Options
  import opened Series

  datatype State = State(obv: real, prevClose: Option<real>)

  /** A bar's close and volume, the only parts OBV reads. */
  datatype Sample = Sample(close: real, volume: real)

  /** `Obv::new`: no previous close, so the first bar's volume becomes the total. */
  function New(): (o: State)
    ensures o.prevClose.None?
    ensures forall close, volume :: Update(o, close, volume).obv == volume
  {
    State(0.0, None)
  }

  /** `Obv::update`. */
  function Update(o: State, close: real, volume: real): (o': State)
    ensures o'.prevClose == Some(close)
    ensures o.prevClose.None? ==> o'.obv == volume
    ensures o.prevClose.Some? && close > o.prevClose.value ==> o'.obv == o.obv + volume
    ensures o.prevClose.Some? && close < o.prevClose.value ==> o'.obv == o.obv - volume
    ensures o.prevClose.Some? && close == o.prevClose.value ==> o'.obv == o.obv
  {
    var obv :=
      match o.prevClose
      case Some(prev) =>
        if close > prev then o.obv + volume
        else if close < prev then o.obv - volume
        else o.obv
      case None => volume;
    State(obv, Some(close))
  }

  /** The state after feeding `bars` in order. */
  function Run(o: State, bars: seq<Sample>): State
    decreases |bars|
  {
    if |bars| == 0 then o
    else
      var b := bars[|bars| - 1];
      Update(Run(o, bars[..|bars| - 1]), b.close, b.volume)
  }

  /** +1, -1 or 0 by the direction of the close against the previous close. */
  function Direction(prev: real, close: real): real {
    if close > prev then 1.0 else if close < prev then -1.0 else 0.0
  }

  /** The signed contribution of bar `i`: the first bar's own volume, then volume signed by direction. */
  function Flow(bars: seq<Sample>, i: nat): real
    requires i < |bars|
  {
    if i == 0 then bars[0].volume
    else Direction(bars[i - 1].close, bars[i].close) * bars[i].volume
  }

  function Flows(bars: seq<Sample>): (fs: seq<real>)
    ensures |fs| == |bars|
    ensures forall i :: 0 <= i < |bars| ==> fs[i] == Flow(bars, i)
  {
    seq(|bars|, i requires 0 <= i < |bars| => Flow(bars, i))
  }

  /** OBV is the sum of the signed volume flows, and remembers the last close. */
  lemma {:induction false} ObvIsSignedVolume(bars: seq<Sample>)
    ensures var o := Run(New(), bars);
            && o.obv == Sum(Flows(bars))
            && (|bars| == 0 <==> o.prevClose.None?)
            && (|bars| > 0 ==> o.prevClose == Some(bars[|bars| - 1].close))
    decreases |bars|
  {
    if |bars| > 0 {
      var pre := bars[..|bars| - 1];
      var b := bars[|bars| - 1];
      var fs := Flows(bars);
      assert fs[..|bars| - 1] == Flows(pre);
      ObvIsSignedVolume(pre);
      if |bars| > 1 {
        assert pre[|pre| - 1] == bars[|bars| - 2];
      }
    }
  }
}
