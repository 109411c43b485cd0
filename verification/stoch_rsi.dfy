/**
 * The stochastic RSI of src/indicators/stoch_rsi.rs: the last `period` values
 * of an inner RSI are kept, and each new RSI value is placed within their
 * range as a percentage. The inner RSI is not part of this model; each step
 * receives the value it produced, if any.
 */
module StochRsi {
  import opened Options
  import opened Series
  import opened Ranges

  datatype State = State(period: nat, history: seq<real>)

  /**
   * `StochRSI::new`, without the inner RSI: an empty history, so with a
   * period of at least 2 the first RSI value yields no percentage.
   */
  function New(period: nat): (s: State)
    ensures s.period == period && s.history == []
    ensures period >= 2 ==> forall v :: CanNext(s, Some(v)) && Next(s, Some(v)).1.None?
  {
    State(period, [])
  }

  /** The percentage divides by the range of a full history, which must not be flat. */
  predicate CanNext(s: State, rsi: Option<real>) {
    rsi.None?
    || var h := EvictThenPush(s.history, rsi.value, s.period);
       |h| != s.period || MaxOf(h) != MinOf(h)
  }

  /**
   * `StochRSI::next`, given what the inner RSI produced for the price:
   * nothing happens without an RSI value; otherwise it enters the history,
   * evicting the oldest when full, and a full history yields the percentage
   * of the new value within the history's range.
   */
  function Next(s: State, rsi: Option<real>): (r: (State, Option<real>))
    requires CanNext(s, rsi)
    ensures r.0.period == s.period
    ensures rsi.None? ==> r == (s, None)
    ensures rsi.Some? ==> r.0.history == EvictThenPush(s.history, rsi.value, s.period)
    ensures r.1.Some? <==> rsi.Some? && |r.0.history| == s.period
    ensures r.1.Some? ==>
              var lo := MinOf(r.0.history);
              var hi := MaxOf(r.0.history);
              && lo <= rsi.value <= hi
              && r.1.value == Percent(rsi.value, lo, hi)
              && 0.0 <= r.1.value <= 100.0
  {
    match rsi
    case None => (s, None)
    case Some(v) =>
      var h := EvictThenPush(s.history, v, s.period);
      if |h| == s.period then
        var lo := MinOf(h);
        var hi := MaxOf(h);
        assert h[|h| - 1] == v;
        (State(s.period, h), Some(Percent(v, lo, hi)))
      else
        (State(s.period, h), None)
  }

  /** The RSI values actually produced, in order. */
  function Values(rsis: seq<Option<real>>): seq<real>
    decreases |rsis|
  {
    if |rsis| == 0 then []
    else
      var o := rsis[|rsis| - 1];
      Values(rsis[..|rsis| - 1]) + (if o.Some? then [o.value] else [])
  }

  /** Every step of feeding `rsis` from `s` meets a non-flat full history. */
  predicate Runnable(s: State, rsis: seq<Option<real>>)
    decreases |rsis|, 0
  {
    |rsis| == 0 || (Runnable(s, rsis[..|rsis| - 1]) && CanNext(Run(s, rsis[..|rsis| - 1]), rsis[|rsis| - 1]))
  }

  /** The state after feeding `rsis` in order. */
  function Run(s: State, rsis: seq<Option<real>>): (s': State)
    requires Runnable(s, rsis)
    ensures s'.period == s.period
    decreases |rsis|, 1
  {
    if |rsis| == 0 then s else Next(Run(s, rsis[..|rsis| - 1]), rsis[|rsis| - 1]).0
  }

  /**
   * The history is the last `period` RSI values produced, so a step yields a
   * value exactly when the inner RSI produced one and at least `period` have
   * been produced in all.
   */
  lemma {:induction false} History(period: nat, rsis: seq<Option<real>>)
    requires period >= 1 && Runnable(New(period), rsis)
    ensures Run(New(period), rsis).history == Last(Values(rsis), period)
    decreases |rsis|
  {
    if |rsis| > 0 {
      var pre := rsis[..|rsis| - 1];
      History(period, pre);
      var s0 := Run(New(period), pre);
      assert Run(New(period), rsis) == Next(s0, rsis[|rsis| - 1]).0;
      HistoryStep(s0, period, rsis);
    }
  }

  /** One step extends a history of the last `period` values before `rsis`' last entry to those of `rsis`. */
  lemma HistoryStep(s0: State, period: nat, rsis: seq<Option<real>>)
    requires period >= 1 && |rsis| > 0 && s0.period == period
    requires s0.history == Last(Values(rsis[..|rsis| - 1]), period)
    requires CanNext(s0, rsis[|rsis| - 1])
    ensures Next(s0, rsis[|rsis| - 1]).0.history == Last(Values(rsis), period)
  {
    var pre := rsis[..|rsis| - 1];
    var o := rsis[|rsis| - 1];
    var vs := Values(pre);
    if o.Some? {
      assert Values(rsis) == vs + [o.value];
      LastLength(vs, period);
      assert Next(s0, o).0.history == EvictThenPush(s0.history, o.value, period);
      assert EvictThenPush(s0.history, o.value, period) == Last(s0.history + [o.value], period);
      LastSnoc(vs, o.value, period);
    } else {
      assert Values(rsis) == vs + [];
      assert vs + [] == vs;
    }
  }

  /** A step after `rsis` yields a value exactly when it receives one and `period` are known. */
  lemma NextYields(period: nat, rsis: seq<Option<real>>, rsi: Option<real>)
    requires period >= 1 && Runnable(New(period), rsis + [rsi])
    ensures var s := Run(New(period), rsis);
            CanNext(s, rsi)
            && (Next(s, rsi).1.Some? <==> rsi.Some? && |Values(rsis)| + 1 >= period)
  {
    assert (rsis + [rsi])[..|rsis|] == rsis;
    History(period, rsis);
    LastLength(Values(rsis), period);
  }
}
