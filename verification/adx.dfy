/**
 * The average directional index of src/indicators/adx.rs, as written: after a
 * first bar that only records the previous high, low and close, each bar's
 * true range and directional movements are either added to running sums or,
 * once the DX buffer holds `period` values, Wilder-smoothed into a DX value
 * that enters the buffer; the ADX is the mean of a full buffer.
 */
module Adx {
  import opened Options
  import opened Series
  import opened Ranges

  datatype State = State(
    period: nat,
    prev: Option<Hlc>,
    trSum: real,
    posDmSum: real,
    negDmSum: real,
    prevTr: Option<real>,
    prevPosDm: Option<real>,
    prevNegDm: Option<real>,
    dxBuffer: seq<real>)

  /** `Adx::new`; the previous high, low and close are recorded together, as one bar. */
  function New(period: nat): (a: State)
    ensures period >= 1 ==> Accumulated(a, period, [])
  {
    State(period, None, 0.0, 0.0, 0.0, None, None, None, [])
  }

  /**
   * `Adx::directional_movements`: the up move counts as +DM when it beats the
   * down move, and the down move as -DM when it beats the up move. There is no
   * check that the winning move is positive.
   */
  function DirectionalMovements(high: real, low: real, prevHigh: real, prevLow: real): (dm: (real, real))
    ensures dm.0 == 0.0 || dm.1 == 0.0
    ensures high - prevHigh == prevLow - low ==> dm == (0.0, 0.0)
    ensures dm.0 != 0.0 ==> dm.0 == high - prevHigh && dm.0 > prevLow - low
    ensures dm.1 != 0.0 ==> dm.1 == prevLow - low && dm.1 > high - prevHigh
  {
    var up := high - prevHigh;
    var down := prevLow - low;
    (if up > down then up else 0.0, if down > up then down else 0.0)
  }

  /** An inside bar (lower high, higher low) yields a negative +DM. */
  lemma NegativePlusDm()
    ensures DirectionalMovements(9.0, 8.0, 10.0, 6.0) == (-1.0, 0.0)
  {
  }

  /** A non-negative quantity as a percentage of a positive one is non-negative. */
  lemma PercentNonNegative(x: real, tr: real)
    requires tr != 0.0
    ensures tr > 0.0 && x >= 0.0 ==> (x / tr) * 100.0 >= 0.0
  {
    if tr > 0.0 && x >= 0.0 {
      MulNonNegative(x / tr, 100.0);
    }
  }

  /** The spread of two non-negative values is at most their sum. */
  lemma SpreadWithin(p: real, n: real)
    requires p + n != 0.0
    ensures p >= 0.0 && n >= 0.0 ==> 0.0 <= 100.0 * Abs(p - n) / (p + n) <= 100.0
  {
    if p >= 0.0 && n >= 0.0 {
      var spread := Abs(p - n);
      var total := p + n;
      assert 0.0 <= spread <= total;
      UnitRatio(spread, total);
      MulDiv(100.0, spread, total);
      var r := spread / total;
      assert 100.0 * spread / total == 100.0 * r;
    }
  }

  /** `Adx::calculate_di`: both movements as percentages of the true range, which must not be 0. */
  function CalculateDi(posDm: real, negDm: real, tr: real): (di: (real, real))
    requires tr != 0.0
    ensures di.0 * tr == 100.0 * posDm && di.1 * tr == 100.0 * negDm
    ensures tr > 0.0 && posDm >= 0.0 ==> di.0 >= 0.0
    ensures tr > 0.0 && negDm >= 0.0 ==> di.1 >= 0.0
  {
    PercentNonNegative(posDm, tr);
    PercentNonNegative(negDm, tr);
    ((posDm / tr) * 100.0, (negDm / tr) * 100.0)
  }

  /**
   * `Adx::calculate_dx`: the spread of the two indicators as a percentage of
   * their sum, which must not be 0; it lies in [0, 100] for non-negative indicators.
   */
  function CalculateDx(posDi: real, negDi: real): (dx: real)
    requires posDi + negDi != 0.0
    ensures dx * (posDi + negDi) == 100.0 * Abs(posDi - negDi)
    ensures posDi >= 0.0 && negDi >= 0.0 ==> 0.0 <= dx <= 100.0
  {
    SpreadWithin(posDi, negDi);
    100.0 * Abs(posDi - negDi) / (posDi + negDi)
  }

  /** Wilder smoothing of a previous smoothed value, taken as 0 while absent. */
  function Smooth(prev: Option<real>, x: real, period: nat): real
    requires period >= 1
  {
    Wilder(prev.GetOr(0.0), x, period)
  }

  /** The three smoothed values of a step; the DX of that step needs them to be usable divisors. */
  predicate DxDefined(a: State, tr: real, pos: real, neg: real)
    requires a.period >= 1
  {
    var st := Smooth(a.prevTr, tr, a.period);
    && st != 0.0
    && var di := CalculateDi(Smooth(a.prevPosDm, pos, a.period), Smooth(a.prevNegDm, neg, a.period), st);
       di.0 + di.1 != 0.0
  }

  /** The DX of the smoothed true range and movements. */
  function DxOf(a: State, tr: real, pos: real, neg: real): real
    requires a.period >= 1 && DxDefined(a, tr, pos, neg)
  {
    var st := Smooth(a.prevTr, tr, a.period);
    var di := CalculateDi(Smooth(a.prevPosDm, pos, a.period), Smooth(a.prevNegDm, neg, a.period), st);
    CalculateDx(di.0, di.1)
  }

  /** The accumulating branch: the three values are added to their running sums. */
  function Accumulate(a: State, tr: real, pos: real, neg: real): (a': State)
    ensures a'.trSum - a.trSum == tr && a'.posDmSum - a.posDmSum == pos && a'.negDmSum - a.negDmSum == neg
    ensures a' == a.(trSum := a'.trSum, posDmSum := a'.posDmSum, negDmSum := a'.negDmSum)
  {
    a.(trSum := a.trSum + tr, posDmSum := a.posDmSum + pos, negDmSum := a.negDmSum + neg)
  }

  /**
   * The smoothing branch: the three values are Wilder-smoothed and their DX
   * enters the buffer, evicting the oldest beyond `period`.
   */
  function Push(a: State, tr: real, pos: real, neg: real): (a': State)
    requires a.period >= 1 && DxDefined(a, tr, pos, neg)
    ensures a'.period == a.period && a'.prev == a.prev
    ensures a'.trSum == a.trSum && a'.posDmSum == a.posDmSum && a'.negDmSum == a.negDmSum
    ensures a'.prevTr == Some(Smooth(a.prevTr, tr, a.period))
    ensures a'.prevPosDm == Some(Smooth(a.prevPosDm, pos, a.period))
    ensures a'.prevNegDm == Some(Smooth(a.prevNegDm, neg, a.period))
    ensures |a.dxBuffer| <= a.period ==> a'.dxBuffer == Last(a.dxBuffer + [DxOf(a, tr, pos, neg)], a.period)
  {
    var st := Smooth(a.prevTr, tr, a.period);
    var sp := Smooth(a.prevPosDm, pos, a.period);
    var sn := Smooth(a.prevNegDm, neg, a.period);
    var di := CalculateDi(sp, sn, st);
    var dx := CalculateDx(di.0, di.1);
    a.(prevTr := Some(st), prevPosDm := Some(sp), prevNegDm := Some(sn),
       dxBuffer := PushThenEvict(a.dxBuffer, dx, a.period))
  }

  /** The true range and directional movements of a bar against the previous one. */
  datatype Move = Move(tr: real, pos: real, neg: real)

  /** The move of `b` after `p`, with the directional movements as written. */
  function BarMove(p: Hlc, b: Hlc): (m: Move)
    ensures m.tr >= 0.0 && m.tr >= b.high - b.low
  {
    var dm := DirectionalMovements(b.high, b.low, p.high, p.low);
    Move(TrueRange(b.high, b.low, p.close), dm.0, dm.1)
  }

  /** The smoothing branch is only entered once the buffer is full; it needs its divisors. */
  predicate CanUpdate(a: State, b: Hlc)
    requires a.period >= 1
  {
    a.prev.None? || |a.dxBuffer| < a.period
    || var m := BarMove(a.prev.value, b); DxDefined(a, m.tr, m.pos, m.neg)
  }

  /**
   * `Adx::update` with the bar's high, low and close. The source computes
   * `period - 1` as a float and divides by `period`: a period of 0 would
   * divide by 0.
   */
  function Update(a: State, b: Hlc): (a': State)
    requires a.period >= 1 && CanUpdate(a, b)
    ensures a'.period == a.period && a'.prev == Some(b)
    ensures a.prev.None? ==> a' == a.(prev := Some(b))
    ensures a.prev.Some? && |a.dxBuffer| < a.period ==>
              var m := BarMove(a.prev.value, b);
              && a'.dxBuffer == a.dxBuffer
              && a'.trSum == a.trSum + m.tr && a'.posDmSum == a.posDmSum + m.pos
              && a'.negDmSum == a.negDmSum + m.neg
    ensures a.prev.Some? && |a.dxBuffer| == a.period ==>
              var m := BarMove(a.prev.value, b);
              a'.dxBuffer == Last(a.dxBuffer + [DxOf(a, m.tr, m.pos, m.neg)], a.period)
    ensures |a.dxBuffer| <= a.period ==> |a'.dxBuffer| <= a.period
  {
    match a.prev
    case None => a.(prev := Some(b))
    case Some(p) =>
      var m := BarMove(p, b);
      var a1 := if |a.dxBuffer| < a.period then Accumulate(a, m.tr, m.pos, m.neg) else Push(a, m.tr, m.pos, m.neg);
      a1.(prev := Some(b))
  }

  /** `Adx::get_adx`: the mean of the buffer once it holds exactly `period` values. */
  function GetAdx(a: State): (r: Option<real>)
    requires a.period >= 1
    ensures r.Some? <==> |a.dxBuffer| == a.period
    ensures r.Some? ==> r.value == Mean(a.dxBuffer)
  {
    if |a.dxBuffer| == a.period then Some(Sum(a.dxBuffer) / (a.period as real)) else None
  }

  /**
   * The state after feeding `bars` in order from a state with an empty
   * buffer. The buffer only grows in the branch taken when it already holds
   * `period` values, so it stays empty and every step accumulates.
   */
  function Run(a: State, bars: seq<Hlc>): (a': State)
    requires a.period >= 1 && a.dxBuffer == []
    ensures a'.period == a.period && a'.dxBuffer == []
    decreases |bars|
  {
    if |bars| == 0 then a else Update(Run(a, bars[..|bars| - 1]), bars[|bars| - 1])
  }

  /** Reference: the moves of a bar series, one per bar after the first. */
  function Moves(bars: seq<Hlc>): (ms: seq<Move>)
    ensures |ms| == if |bars| == 0 then 0 else |bars| - 1
    decreases |bars|
  {
    if |bars| <= 1 then []
    else Moves(bars[..|bars| - 1]) + [BarMove(bars[|bars| - 2], bars[|bars| - 1])]
  }

  function Trs(ms: seq<Move>): (s: seq<real>)
    ensures |s| == |ms| && forall i :: 0 <= i < |ms| ==> s[i] == ms[i].tr
  {
    seq(|ms|, i requires 0 <= i < |ms| => ms[i].tr)
  }

  function PosDms(ms: seq<Move>): (s: seq<real>)
    ensures |s| == |ms| && forall i :: 0 <= i < |ms| ==> s[i] == ms[i].pos
  {
    seq(|ms|, i requires 0 <= i < |ms| => ms[i].pos)
  }

  function NegDms(ms: seq<Move>): (s: seq<real>)
    ensures |s| == |ms| && forall i :: 0 <= i < |ms| ==> s[i] == ms[i].neg
  {
    seq(|ms|, i requires 0 <= i < |ms| => ms[i].neg)
  }

  /** Appending a move appends its three components. */
  lemma ProjectSnoc(ms: seq<Move>, m: Move)
    ensures Trs(ms + [m]) == Trs(ms) + [m.tr]
    ensures PosDms(ms + [m]) == PosDms(ms) + [m.pos]
    ensures NegDms(ms + [m]) == NegDms(ms) + [m.neg]
  {
    assert Trs(ms + [m]) == Trs(ms) + [m.tr];
    assert PosDms(ms + [m]) == PosDms(ms) + [m.pos];
    assert NegDms(ms + [m]) == NegDms(ms) + [m.neg];
  }

  /**
   * What the as-written state holds after `bars`: the sums hold the totals of
   * all moves so far, the DX buffer is empty, nothing has been smoothed, and
   * the previous bar is the last one.
   */
  predicate Accumulated(a: State, period: nat, bars: seq<Hlc>) {
    var ms := Moves(bars);
    && a.period == period >= 1
    && a.dxBuffer == []
    && a.trSum == Sum(Trs(ms)) && a.posDmSum == Sum(PosDms(ms)) && a.negDmSum == Sum(NegDms(ms))
    && a.prev == (if |bars| == 0 then None else Some(bars[|bars| - 1]))
    && a.prevTr.None? && a.prevPosDm.None? && a.prevNegDm.None?
  }

  /** One update moves `Accumulated` on by one bar. */
  lemma AccumulatedStep(a: State, period: nat, bars: seq<Hlc>)
    requires |bars| > 0 && Accumulated(a, period, bars[..|bars| - 1])
    ensures CanUpdate(a, bars[|bars| - 1])
    ensures Accumulated(Update(a, bars[|bars| - 1]), period, bars)
  {
    var pre := bars[..|bars| - 1];
    if |bars| > 1 {
      assert pre[|pre| - 1] == bars[|bars| - 2];
      assert a.prev == Some(bars[|bars| - 2]);
      var m := BarMove(bars[|bars| - 2], bars[|bars| - 1]);
      var ms0 := Moves(pre);
      assert Moves(bars) == ms0 + [m];
      ProjectSnoc(ms0, m);
      SumAppend(Trs(ms0), [m.tr]);
      SumAppend(PosDms(ms0), [m.pos]);
      SumAppend(NegDms(ms0), [m.neg]);
    }
  }

  /**
   * As written, over any bar series the sums hold the totals of all moves so
   * far, the DX buffer stays empty and `get_adx` never yields a value.
   */
  lemma {:induction false} NeverReady(period: nat, bars: seq<Hlc>)
    requires period >= 1
    ensures Accumulated(Run(New(period), bars), period, bars)
    ensures GetAdx(Run(New(period), bars)) == None
    decreases |bars|
  {
    if |bars| > 0 {
      NeverReady(period, bars[..|bars| - 1]);
      AccumulatedStep(Run(New(period), bars[..|bars| - 1]), period, bars);
    }
  }
}

/**
 * The ADX of src/indicators/adx.rs as evidently intended: the sums accumulate
 * for the first `period` moves, counted separately from the DX buffer, after
 * which every move is smoothed into a DX value; a directional movement counts
 * only when the winning move is positive. Everything else is the as-written
 * machinery of `Adx`.
 */
module AdxCorrected {
  import opened Options
  import opened Series
  import opened Ranges
  import Adx

  /** The as-written state plus the number of moves accumulated so far. */
  datatype State = State(inner: Adx.State, count: nat)

  /** A reachable state with nothing accumulated and no ADX. */
  function New(period: nat): (a: State)
    ensures period >= 1 ==> Valid(a) && a.count == 0 && a.inner.prev.None? && GetAdx(a).None?
  {
    State(Adx.New(period), 0)
  }

  /** Directional movements that count only a positive winning move. */
  function DirectionalMovements(high: real, low: real, prevHigh: real, prevLow: real): (dm: (real, real))
    ensures dm.0 >= 0.0 && dm.1 >= 0.0
    ensures dm.0 == 0.0 || dm.1 == 0.0
  {
    var up := high - prevHigh;
    var down := prevLow - low;
    (if up > down && up > 0.0 then up else 0.0, if down > up && down > 0.0 then down else 0.0)
  }

  /** The corrected movements are the as-written ones with negatives clamped to 0. */
  lemma ClampsAsWritten(high: real, low: real, prevHigh: real, prevLow: real)
    ensures var w := Adx.DirectionalMovements(high, low, prevHigh, prevLow);
            DirectionalMovements(high, low, prevHigh, prevLow) == (Max(w.0, 0.0), Max(w.1, 0.0))
  {
  }

  /** The move of `b` after `p`, with the corrected directional movements. */
  function BarMove(p: Hlc, b: Hlc): (m: Adx.Move)
    ensures m.tr >= 0.0 && m.tr >= b.high - b.low && m.pos >= 0.0 && m.neg >= 0.0
  {
    var dm := DirectionalMovements(b.high, b.low, p.high, p.low);
    Adx.Move(TrueRange(b.high, b.low, p.close), dm.0, dm.1)
  }

  /**
   * Reachable states: at most `period` moves are accumulated, the buffer only
   * fills after that, the smoothed values are never negative and every DX
   * lies in [0, 100].
   */
  predicate Valid(a: State) {
    var i := a.inner;
    && i.period >= 1
    && a.count <= i.period
    && |i.dxBuffer| <= i.period
    && (i.prev.None? ==> a.count == 0)
    && (|i.dxBuffer| > 0 ==> a.count == i.period)
    && (i.prevTr.Some? ==> i.prevTr.value >= 0.0)
    && (i.prevPosDm.Some? ==> i.prevPosDm.value >= 0.0)
    && (i.prevNegDm.Some? ==> i.prevNegDm.value >= 0.0)
    && AllWithin(i.dxBuffer, 0.0, 100.0)
  }

  /** The smoothing branch needs its divisors. */
  predicate CanUpdate(a: State, b: Hlc)
    requires Valid(a)
  {
    a.inner.prev.None? || a.count < a.inner.period
    || var m := BarMove(a.inner.prev.value, b); Adx.DxDefined(a.inner, m.tr, m.pos, m.neg)
  }

  /** The DX of non-negative moves and smoothed values lies in [0, 100]. */
  lemma DxWithin(a: State, m: Adx.Move)
    requires Valid(a) && m.tr >= 0.0 && m.pos >= 0.0 && m.neg >= 0.0
    requires Adx.DxDefined(a.inner, m.tr, m.pos, m.neg)
    ensures 0.0 <= Adx.DxOf(a.inner, m.tr, m.pos, m.neg) <= 100.0
    ensures Adx.Smooth(a.inner.prevTr, m.tr, a.inner.period) >= 0.0
    ensures Adx.Smooth(a.inner.prevPosDm, m.pos, a.inner.period) >= 0.0
    ensures Adx.Smooth(a.inner.prevNegDm, m.neg, a.inner.period) >= 0.0
  {
  }

  /** A full window that admits one more value within bounds stays within bounds. */
  lemma WindowWithin(w: seq<real>, x: real, k: nat)
    requires AllWithin(w, 0.0, 100.0) && 0.0 <= x <= 100.0
    ensures AllWithin(Last(w + [x], k), 0.0, 100.0)
  {
    var s := w + [x];
    assert AllWithin(s, 0.0, 100.0);
    LastLength(s, k);
  }

  /** One bar with the corrected guard: count the accumulated moves, not the DX values. */
  function Update(a: State, b: Hlc): (a': State)
    requires Valid(a) && CanUpdate(a, b)
    ensures Valid(a') && a'.inner.period == a.inner.period && a'.inner.prev == Some(b)
    ensures a.inner.prev.None? ==> a'.count == 0 && a'.inner.dxBuffer == a.inner.dxBuffer
    ensures a.inner.prev.Some? && a.count < a.inner.period ==>
              var m := BarMove(a.inner.prev.value, b);
              && a'.count == a.count + 1 && a'.inner.dxBuffer == a.inner.dxBuffer
              && a'.inner.trSum == a.inner.trSum + m.tr
              && a'.inner.posDmSum == a.inner.posDmSum + m.pos
              && a'.inner.negDmSum == a.inner.negDmSum + m.neg
    ensures a.inner.prev.Some? && a.count == a.inner.period ==>
              var m := BarMove(a.inner.prev.value, b);
              && a'.count == a.count
              && a'.inner.dxBuffer == Last(a.inner.dxBuffer + [Adx.DxOf(a.inner, m.tr, m.pos, m.neg)], a.inner.period)
  {
    match a.inner.prev
    case None => State(a.inner.(prev := Some(b)), 0)
    case Some(p) =>
      var m := BarMove(p, b);
      if a.count < a.inner.period then
        State(Adx.Accumulate(a.inner, m.tr, m.pos, m.neg).(prev := Some(b)), a.count + 1)
      else
        DxWithin(a, m);
        WindowWithin(a.inner.dxBuffer, Adx.DxOf(a.inner, m.tr, m.pos, m.neg), a.inner.period);
        LastLength(a.inner.dxBuffer + [Adx.DxOf(a.inner, m.tr, m.pos, m.neg)], a.inner.period);
        State(Adx.Push(a.inner, m.tr, m.pos, m.neg).(prev := Some(b)), a.count)
  }

  /** The ADX: the mean of a full buffer, in [0, 100]. */
  function GetAdx(a: State): (r: Option<real>)
    requires Valid(a)
    ensures r == Adx.GetAdx(a.inner)
    ensures r.Some? ==> 0.0 <= r.value <= 100.0
  {
    var r := Adx.GetAdx(a.inner);
    if r.Some? then MeanWithin(a.inner.dxBuffer, 0.0, 100.0); r else r
  }

  /** Every step of feeding `bars` from `a` has usable divisors. */
  predicate Runnable(a: State, bars: seq<Hlc>)
    requires Valid(a)
    decreases |bars|, 0
  {
    |bars| == 0
    || (Runnable(a, bars[..|bars| - 1]) && CanUpdate(Run(a, bars[..|bars| - 1]), bars[|bars| - 1]))
  }

  /** The state after feeding `bars` in order. */
  function Run(a: State, bars: seq<Hlc>): (a': State)
    requires Valid(a) && Runnable(a, bars)
    ensures Valid(a') && a'.inner.period == a.inner.period
    decreases |bars|, 1
  {
    if |bars| == 0 then a else Update(Run(a, bars[..|bars| - 1]), bars[|bars| - 1])
  }

  /**
   * Warm-up: after n bars, min(n - 1, period) moves have been accumulated, the
   * buffer holds min(n - period - 1, period) DX values once that is positive,
   * and the ADX exists exactly from bar 2 * period + 1 on, within [0, 100].
   */
  lemma {:induction false} WarmUp(period: nat, bars: seq<Hlc>)
    requires period >= 1 && Runnable(New(period), bars)
    ensures var a := Run(New(period), bars);
            var n := |bars|;
            && (a.inner.prev.None? <==> n == 0)
            && a.count == (if n == 0 then 0 else if n - 1 <= period then n - 1 else period)
            && |a.inner.dxBuffer| == (if n <= period + 1 then 0 else if n - period - 1 <= period then n - period - 1 else period)
            && (GetAdx(a).Some? <==> n >= 2 * period + 1)
    decreases |bars|
  {
    if |bars| > 0 {
      var pre := bars[..|bars| - 1];
      WarmUp(period, pre);
      CountStep(Run(New(period), pre), bars[|bars| - 1], |pre|);
    }
  }

  /** One bar moves the counts of `WarmUp` from n to n + 1 bars. */
  lemma CountStep(a: State, b: Hlc, n: nat)
    requires Valid(a) && CanUpdate(a, b)
    requires a.inner.prev.None? <==> n == 0
    requires var period := a.inner.period;
             && a.count == (if n == 0 then 0 else if n - 1 <= period then n - 1 else period)
             && |a.inner.dxBuffer| == (if n <= period + 1 then 0 else if n - period - 1 <= period then n - period - 1 else period)
    ensures var a' := Update(a, b);
            var period := a.inner.period;
            && a'.inner.prev.Some?
            && a'.count == (if n + 1 - 1 <= period then n else period)
            && |a'.inner.dxBuffer| == (if n + 1 <= period + 1 then 0 else if n - period <= period then n - period else period)
            && (GetAdx(a').Some? <==> n + 1 >= 2 * period + 1)
  {
    var period := a.inner.period;
    if a.inner.prev.Some? && a.count == period {
      var m := BarMove(a.inner.prev.value, b);
      LastLength(a.inner.dxBuffer + [Adx.DxOf(a.inner, m.tr, m.pos, m.neg)], period);
    }
  }
}
