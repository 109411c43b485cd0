/**
 * The MACD of src/indicators/macd.rs: a short and a long EMA of the same
 * prices, their difference (the MACD line) once both exist, and a signal EMA
 * fed with every MACD value.
 */
module Macd {
  import opened Options
  import Ema

  datatype State = State(short: Ema.State, long: Ema.State, signal: Ema.State, current: Option<real>)

  /** `Macd::new`: a reachable state in which neither line has a value yet. */
  function New(shortPeriod: nat, longPeriod: nat, signalPeriod: nat): (m: State)
    ensures shortPeriod >= 1 && longPeriod >= 1 && signalPeriod >= 1 ==> Valid(m)
    ensures SignalAndMacd(m) == (None, None)
  {
    State(Ema.New(shortPeriod), Ema.New(longPeriod), Ema.New(signalPeriod), None)
  }

  /** All three periods are usable by `Ema::update`. */
  predicate Periods(m: State) {
    m.short.period >= 1 && m.long.period >= 1 && m.signal.period >= 1
  }

  /**
   * Reachable states: the three EMAs are reachable, the MACD line exists
   * exactly when both price EMAs have a value and is then their difference,
   * and the signal exists only once the MACD line does.
   */
  predicate Valid(m: State) {
    && Periods(m)
    && Ema.Valid(m.short) && Ema.Valid(m.long) && Ema.Valid(m.signal)
    && (m.current.Some? <==> m.short.current.Some? && m.long.current.Some?)
    && (m.current.Some? ==> m.current.value == m.short.current.value - m.long.current.value)
    && (m.signal.current.Some? ==> m.current.Some?)
  }

  /**
   * `Macd::update`: both price EMAs advance; when both have a value, the MACD
   * line becomes their difference and that difference is fed to the signal EMA.
   * `get_current_ema` is read as the EMA's current value.
   */
  function Update(m: State, value: real): (m': State)
    requires Periods(m)
    ensures Periods(m')
    ensures m'.short.period == m.short.period && m'.long.period == m.long.period
    ensures m'.signal.period == m.signal.period
    ensures m'.short == Ema.Update(m.short, value) && m'.long == Ema.Update(m.long, value)
    ensures m'.short.current.Some? && m'.long.current.Some? ==>
              && m'.current == Some(m'.short.current.value - m'.long.current.value)
              && m'.signal == Ema.Update(m.signal, m'.current.value)
    ensures !(m'.short.current.Some? && m'.long.current.Some?) ==>
              m'.current == m.current && m'.signal == m.signal
  {
    var short := Ema.Update(m.short, value);
    var long := Ema.Update(m.long, value);
    if short.current.Some? && long.current.Some? then
      var macd := short.current.value - long.current.value;
      State(short, long, Ema.Update(m.signal, macd), Some(macd))
    else
      m.(short := short, long := long)
  }

  /** `Update` keeps a state reachable. */
  lemma UpdateValid(m: State, value: real)
    requires Valid(m)
    ensures Valid(Update(m, value))
  {
    var m' := Update(m, value);
    assert m.short.current.Some? ==> m'.short.current.Some?;
    assert m.long.current.Some? ==> m'.long.current.Some?;
  }

  /**
   * `Macd::get_signal_n_macd`: (signal, MACD line). On a reachable state the
   * MACD line is present exactly when both price EMAs have a value, and is
   * then their difference; the signal is present only with the MACD line.
   */
  function SignalAndMacd(m: State): (r: (Option<real>, Option<real>))
    ensures Valid(m) ==> (r.1.Some? <==> m.short.current.Some? && m.long.current.Some?)
    ensures Valid(m) && r.1.Some? ==> r.1.value == m.short.current.value - m.long.current.value
    ensures Valid(m) ==> (r.0.Some? ==> r.1.Some?)
  {
    (Ema.Value(m.signal), m.current)
  }

  /** The state after feeding `xs` in order. */
  function Run(m: State, xs: seq<real>): (m': State)
    requires Periods(m)
    ensures Periods(m')
    ensures m'.short.period == m.short.period && m'.long.period == m.long.period
    ensures m'.signal.period == m.signal.period
    decreases |xs|
  {
    if |xs| == 0 then m else Update(Run(m, xs[..|xs| - 1]), xs[|xs| - 1])
  }

  /** Feeding one more price is one more update. */
  lemma RunSnoc(m: State, xs: seq<real>, x: real)
    requires Periods(m)
    ensures Run(m, xs + [x]) == Update(Run(m, xs), x)
  {
    assert (xs + [x])[..|xs|] == xs;
  }

  /**
   * Reference: the MACD values a price series produces, one for every prefix
   * after which both EMAs of that prefix have a value.
   */
  function MacdValues(shortPeriod: nat, longPeriod: nat, xs: seq<real>): seq<real>
    requires shortPeriod >= 1 && longPeriod >= 1
    decreases |xs|
  {
    if |xs| == 0 then []
    else
      MacdValues(shortPeriod, longPeriod, xs[..|xs| - 1])
        + MacdOf(Ema.Run(Ema.New(shortPeriod), xs), Ema.Run(Ema.New(longPeriod), xs))
  }

  /** The MACD value of two EMA states, if both have a value. */
  function MacdOf(short: Ema.State, long: Ema.State): seq<real> {
    if short.current.Some? && long.current.Some? then [short.current.value - long.current.value] else []
  }

  /** The two price EMAs see every price. */
  lemma {:induction false} ReplayPrices(s: nat, l: nat, g: nat, xs: seq<real>)
    requires s >= 1 && l >= 1 && g >= 1
    ensures var m := Run(New(s, l, g), xs);
            m.short == Ema.Run(Ema.New(s), xs) && m.long == Ema.Run(Ema.New(l), xs)
    decreases |xs|
  {
    if |xs| > 0 {
      ReplayPrices(s, l, g, xs[..|xs| - 1]);
    }
  }

  /** The newest of the MACD values, if any. */
  function LastValue(mv: seq<real>): Option<real> {
    if |mv| == 0 then None else Some(mv[|mv| - 1])
  }

  /**
   * One update extends the signal EMA's input by the new MACD value, if
   * there is one; `m` is any state related to `m0` as `Update` relates them.
   */
  lemma ReplayStep(m0: State, m: State, g: nat, mv0: seq<real>)
    requires g >= 1
    requires m0.signal == Ema.Run(Ema.New(g), mv0) && m0.current == LastValue(mv0)
    requires m.short.current.Some? && m.long.current.Some? ==>
               && m.current == Some(m.short.current.value - m.long.current.value)
               && m.signal == Ema.Update(m0.signal, m.current.value)
    requires !(m.short.current.Some? && m.long.current.Some?) ==>
               m.current == m0.current && m.signal == m0.signal
    ensures var mv := mv0 + MacdOf(m.short, m.long);
            m.signal == Ema.Run(Ema.New(g), mv) && m.current == LastValue(mv)
  {
    if m.short.current.Some? && m.long.current.Some? {
      var d := m.short.current.value - m.long.current.value;
      assert MacdOf(m.short, m.long) == [d];
      SignalAppend(g, mv0, d);
    } else {
      assert MacdOf(m.short, m.long) == [];
      assert mv0 + [] == mv0;
    }
  }

  /** `ReplayStep` for the state `Update` produces. */
  lemma ReplayUpdate(m0: State, x: real, g: nat, mv0: seq<real>)
    requires Periods(m0) && m0.signal.period == g
    requires m0.signal == Ema.Run(Ema.New(g), mv0) && m0.current == LastValue(mv0)
    ensures var m := Update(m0, x);
            var mv := mv0 + MacdOf(m.short, m.long);
            m.signal == Ema.Run(Ema.New(g), mv) && m.current == LastValue(mv)
  {
    var m := Update(m0, x);
    var both := m.short.current.Some? && m.long.current.Some?;
    assert both ==> m.current == Some(m.short.current.value - m.long.current.value);
    assert both ==> m.signal == Ema.Update(m0.signal, m.current.value);
    assert !both ==> m.current == m0.current && m.signal == m0.signal;
    ReplayStep(m0, m, g, mv0);
  }

  /** Appending a MACD value is one more signal update, and makes it the latest value. */
  lemma SignalAppend(g: nat, mv0: seq<real>, d: real)
    requires g >= 1
    ensures Ema.Run(Ema.New(g), mv0 + [d]) == Ema.Update(Ema.Run(Ema.New(g), mv0), d)
    ensures LastValue(mv0 + [d]) == Some(d)
  {
    Ema.RunSnoc(Ema.New(g), mv0, d);
  }

  /** `MacdValues` adds the MACD value after each price. */
  lemma MacdValuesSnoc(s: nat, l: nat, xs: seq<real>)
    requires s >= 1 && l >= 1 && |xs| > 0
    ensures MacdValues(s, l, xs)
            == MacdValues(s, l, xs[..|xs| - 1]) + MacdOf(Ema.Run(Ema.New(s), xs), Ema.Run(Ema.New(l), xs))
  {
  }

  /**
   * The signal EMA sees exactly the MACD values and nothing else, and the
   * MACD line is the latest of them.
   */
  lemma {:induction false} Replay(s: nat, l: nat, g: nat, xs: seq<real>)
    requires s >= 1 && l >= 1 && g >= 1
    ensures var m := Run(New(s, l, g), xs);
            var mv := MacdValues(s, l, xs);
            m.signal == Ema.Run(Ema.New(g), mv) && m.current == LastValue(mv)
    decreases |xs|
  {
    if |xs| > 0 {
      var pre := xs[..|xs| - 1];
      var x := xs[|xs| - 1];
      Replay(s, l, g, pre);
      ReplayPrices(s, l, g, xs);
      var m0 := Run(New(s, l, g), pre);
      assert Update(m0, x) == Run(New(s, l, g), xs);
      ReplayUpdate(m0, x, g, MacdValues(s, l, pre));
      MacdValuesSnoc(s, l, xs);
    }
  }

  /** One MACD value per price from the `max(s, l)`-th price on. */
  lemma {:induction false} MacdValuesCount(s: nat, l: nat, xs: seq<real>)
    requires s >= 1 && l >= 1
    ensures var lead := if s <= l then l else s;
            |MacdValues(s, l, xs)| == if |xs| >= lead then |xs| - lead + 1 else 0
    decreases |xs|
  {
    if |xs| > 0 {
      MacdValuesCount(s, l, xs[..|xs| - 1]);
      Ema.WarmUp(s, xs);
      Ema.WarmUp(l, xs);
    }
  }

  /**
   * Warm-up of `get_signal_n_macd`: the MACD line appears at price
   * `max(s, l)` and the signal at price `max(s, l) + g - 1`.
   */
  lemma WarmUp(s: nat, l: nat, g: nat, xs: seq<real>)
    requires s >= 1 && l >= 1 && g >= 1
    ensures var lead := if s <= l then l else s;
            var r := SignalAndMacd(Run(New(s, l, g), xs));
            && (r.1.Some? <==> |xs| >= lead)
            && (r.0.Some? <==> |xs| >= lead + g - 1)
  {
    Replay(s, l, g, xs);
    MacdValuesCount(s, l, xs);
    Ema.WarmUp(g, MacdValues(s, l, xs));
  }
}

/**
 * The older MACD of src/old/indicators/macd.rs. Its update is the same
 * algorithm as `Macd.Update` (both EMAs advance, the difference feeds the
 * signal once both exist); it adds a histogram.
 */
module OldMacd {
  import opened Options
  import Ema
  import Macd

  /** `Macd::get_macd`: the MACD line, as the newer `get_signal_n_macd` reports it. */
  function GetMacd(m: Macd.State): (r: Option<real>)
    ensures r == Macd.SignalAndMacd(m).1
    ensures Macd.Valid(m) && r.Some? ==> r.value == m.short.current.value - m.long.current.value
  {
    m.current
  }

  /** `Macd::get_signal`: the signal, as the newer `get_signal_n_macd` reports it. */
  function GetSignal(m: Macd.State): (r: Option<real>)
    ensures r == Macd.SignalAndMacd(m).0
    ensures Macd.Valid(m) && r.Some? ==> GetMacd(m).Some?
  {
    Ema.Value(m.signal)
  }

  /**
   * `Macd::get_histogram`: present exactly with the MACD line; MACD minus
   * signal once the signal exists, the MACD line itself before (the signal
   * counts as 0 while absent).
   */
  function Histogram(m: Macd.State): (r: Option<real>)
    ensures r.Some? <==> GetMacd(m).Some?
    ensures r.Some? && GetSignal(m).Some? ==> r.value == GetMacd(m).value - GetSignal(m).value
    ensures GetSignal(m).None? ==> r == GetMacd(m)
  {
    if m.current.Some? then Some(m.current.value - Ema.Value(m.signal).GetOr(0.0)) else None
  }

  /**
   * The histogram of a state after `n` prices, when the MACD line appears at
   * price `lead` and the signal at price `lead + g - 1`: absent before the
   * MACD line, equal to it while the signal warms up, MACD minus signal after.
   */
  predicate HistogramShape(m: Macd.State, n: nat, lead: nat, g: nat) {
    var h := Histogram(m);
    && (h.None? <==> n < lead)
    && (lead <= n < lead + g - 1 ==> h == GetMacd(m))
    && (n >= lead + g - 1 ==>
          GetMacd(m).Some? && GetSignal(m).Some? && h == Some(GetMacd(m).value - GetSignal(m).value))
  }

  /** `HistogramShape` follows from when the two lines appear. */
  lemma HistogramAfter(m: Macd.State, n: nat, lead: nat, g: nat)
    requires g >= 1
    requires (GetMacd(m).Some? <==> n >= lead) && (GetSignal(m).Some? <==> n >= lead + g - 1)
    ensures HistogramShape(m, n, lead, g)
  {
  }

  /** Over a price series the histogram has the shape of `HistogramShape`. */
  lemma HistogramWarmUp(s: nat, l: nat, g: nat, xs: seq<real>)
    requires s >= 1 && l >= 1 && g >= 1
    ensures HistogramShape(Macd.Run(Macd.New(s, l, g), xs), |xs|, if s <= l then l else s, g)
  {
    Macd.WarmUp(s, l, g, xs);
    HistogramAfter(Macd.Run(Macd.New(s, l, g), xs), |xs|, if s <= l then l else s, g);
  }
}
