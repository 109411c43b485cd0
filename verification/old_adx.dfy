/**
 * The older ADX of src/old/indicators/adx.rs: after a first bar that only
 * records the previous high, low and close, the true range and both
 * directional movements are Wilder-smoothed with the `smoothing` length from
 * a start of 0, and the ADX is seeded with the first DX and smoothed after.
 */
module OldAdx {
  import opened Options
  import opened Series
  import opened Ranges
  import Adx
  import AdxCorrected

  datatype State = State(
    period: nat,
    smoothing: nat,
    prev: Option<Hlc>,
    tr: real,
    plusDm: real,
    minusDm: real,
    adx: Option<real>)

  /** `Adx::new`; `period` is stored but never read. */
  function New(period: nat, smoothing: nat): (a: State)
    ensures smoothing >= 1 ==> Valid(a)
    ensures a.prev.None? && GetAdx(a).None?
  {
    State(period, smoothing, None, 0.0, 0.0, 0.0, None)
  }

  /**
   * The move of a bar after the previous one. The movements here already
   * require the winning move to be positive, which is exactly
   * `AdxCorrected.DirectionalMovements`.
   */
  function BarMove(p: Hlc, b: Hlc): (m: Adx.Move)
    ensures m.tr >= 0.0 && m.tr >= b.high - b.low
    ensures m.pos >= 0.0 && m.neg >= 0.0 && (m.pos == 0.0 || m.neg == 0.0)
  {
    AdxCorrected.BarMove(p, b)
  }

  /**
   * Reachable states: the smoothed values are never negative, and an ADX
   * exists only after a previous bar and lies in [0, 100].
   */
  predicate Valid(a: State) {
    && a.smoothing >= 1
    && a.tr >= 0.0 && a.plusDm >= 0.0 && a.minusDm >= 0.0
    && (a.adx.Some? ==> a.prev.Some? && 0.0 <= a.adx.value <= 100.0)
  }

  /** The three smoothed values after a move. */
  function Smoothed(a: State, m: Adx.Move): (r: Adx.Move)
    requires Valid(a) && m.tr >= 0.0 && m.pos >= 0.0 && m.neg >= 0.0
    ensures r.tr >= 0.0 && r.pos >= 0.0 && r.neg >= 0.0
    ensures r == Adx.Move(Wilder(a.tr, m.tr, a.smoothing), Wilder(a.plusDm, m.pos, a.smoothing),
                          Wilder(a.minusDm, m.neg, a.smoothing))
  {
    Adx.Move(Wilder(a.tr, m.tr, a.smoothing), Wilder(a.plusDm, m.pos, a.smoothing),
             Wilder(a.minusDm, m.neg, a.smoothing))
  }

  /** The DX of the smoothed values divides by the true range and by the sum of the indicators. */
  predicate DxDefined(r: Adx.Move) {
    r.tr != 0.0 && var di := Adx.CalculateDi(r.pos, r.neg, r.tr); di.0 + di.1 != 0.0
  }

  /** The DX of smoothed values; in [0, 100] since they are non-negative. */
  function Dx(r: Adx.Move): (dx: real)
    requires DxDefined(r) && r.tr >= 0.0 && r.pos >= 0.0 && r.neg >= 0.0
    ensures 0.0 <= dx <= 100.0
  {
    var di := Adx.CalculateDi(r.pos, r.neg, r.tr);
    Adx.CalculateDx(di.0, di.1)
  }

  predicate CanUpdate(a: State, b: Hlc)
    requires Valid(a)
  {
    a.prev.None? || DxDefined(Smoothed(a, BarMove(a.prev.value, b)))
  }

  /**
   * `Adx::update` with the bar's high, low and close. A smoothing length of 0
   * would divide by 0. The source computes the DX as |+DI - -DI| / (+DI + -DI)
   * * 100, the same real number as `Adx.CalculateDx`.
   */
  function Update(a: State, b: Hlc): (a': State)
    requires Valid(a) && CanUpdate(a, b)
    ensures Valid(a') && a'.smoothing == a.smoothing && a'.prev == Some(b)
    ensures a.prev.None? ==> a' == a.(prev := Some(b))
    ensures a.prev.Some? ==>
              var r := Smoothed(a, BarMove(a.prev.value, b));
              && a'.tr == r.tr && a'.plusDm == r.pos && a'.minusDm == r.neg
              && a'.adx == Some(if a.adx.None? then Dx(r) else Wilder(a.adx.value, Dx(r), a.smoothing))
  {
    match a.prev
    case None => a.(prev := Some(b))
    case Some(p) =>
      var r := Smoothed(a, BarMove(p, b));
      var dx := Dx(r);
      var adx := if a.adx.Some? then Wilder(a.adx.value, dx, a.smoothing) else dx;
      State(a.period, a.smoothing, Some(b), r.tr, r.pos, r.neg, Some(adx))
  }

  /** `Adx::get_adx`. */
  function GetAdx(a: State): (r: Option<real>)
    ensures Valid(a) && r.Some? ==> a.prev.Some? && 0.0 <= r.value <= 100.0
  {
    a.adx
  }

  /** Every step of feeding `bars` from `a` has usable divisors. */
  predicate Runnable(a: State, bars: seq<Hlc>)
    requires Valid(a)
    decreases |bars|, 0
  {
    |bars| == 0
    || (Runnable(a, bars[..|bars| - 1]) && CanUpdate(Run(a, bars[..|bars| - 1]), bars[|bars| - 1]))
  }

  /** The state after feeding `bars` in order. */
  function Run(a: State, bars: seq<Hlc>): (a': State)
    requires Valid(a) && Runnable(a, bars)
    ensures Valid(a') && a'.smoothing == a.smoothing
    decreases |bars|, 1
  {
    if |bars| == 0 then a else Update(Run(a, bars[..|bars| - 1]), bars[|bars| - 1])
  }

  /** Reference: the moves of a bar series, one per bar after the first. */
  function Moves(bars: seq<Hlc>): (ms: seq<Adx.Move>)
    ensures |ms| == if |bars| == 0 then 0 else |bars| - 1
    decreases |bars|
  {
    if |bars| <= 1 then []
    else Moves(bars[..|bars| - 1]) + [BarMove(bars[|bars| - 2], bars[|bars| - 1])]
  }

  /** Reference: Wilder smoothing of a series from a start of 0. */
  function SmoothFromZero(xs: seq<real>, smoothing: nat): real
    requires smoothing >= 1
    decreases |xs|
  {
    if |xs| == 0 then 0.0 else Wilder(SmoothFromZero(xs[..|xs| - 1], smoothing), xs[|xs| - 1], smoothing)
  }

  /**
   * Over a bar series the three running values are the Wilder smoothings
   * from 0 of the true ranges and movements, and the ADX is absent for the
   * first bar and present, in [0, 100], from the second bar on.
   */
  lemma {:induction false} WarmUp(period: nat, smoothing: nat, bars: seq<Hlc>)
    requires smoothing >= 1 && Runnable(New(period, smoothing), bars)
    ensures var a := Run(New(period, smoothing), bars);
            var ms := Moves(bars);
            && a.tr == SmoothFromZero(Adx.Trs(ms), smoothing)
            && a.plusDm == SmoothFromZero(Adx.PosDms(ms), smoothing)
            && a.minusDm == SmoothFromZero(Adx.NegDms(ms), smoothing)
            && (a.adx.Some? <==> |bars| >= 2)
            && (|bars| >= 1 ==> a.prev == Some(bars[|bars| - 1]))
    decreases |bars|
  {
    if |bars| > 0 {
      var pre := bars[..|bars| - 1];
      WarmUp(period, smoothing, pre);
      var a0 := Run(New(period, smoothing), pre);
      assert Run(New(period, smoothing), bars) == Update(a0, bars[|bars| - 1]);
      if |bars| == 1 {
        assert Moves(bars) == [];
      } else {
        assert pre[|pre| - 1] == bars[|bars| - 2];
        assert Moves(bars) == Moves(pre) + [BarMove(bars[|bars| - 2], bars[|bars| - 1])];
        SmoothStep(a0, bars[|bars| - 1], Moves(pre));
      }
    }
  }

  /** Feeding one more value to the reference is one more Wilder step. */
  lemma SmoothSnoc(xs: seq<real>, x: real, smoothing: nat)
    requires smoothing >= 1
    ensures SmoothFromZero(xs + [x], smoothing) == Wilder(SmoothFromZero(xs, smoothing), x, smoothing)
  {
    assert (xs + [x])[..|xs|] == xs;
  }

  /** A bar after the first extends each smoothed value by one Wilder step of its move. */
  lemma SmoothStep(a: State, b: Hlc, ms: seq<Adx.Move>)
    requires Valid(a) && CanUpdate(a, b) && a.prev.Some?
    requires a.tr == SmoothFromZero(Adx.Trs(ms), a.smoothing)
    requires a.plusDm == SmoothFromZero(Adx.PosDms(ms), a.smoothing)
    requires a.minusDm == SmoothFromZero(Adx.NegDms(ms), a.smoothing)
    ensures var a' := Update(a, b);
            var ms' := ms + [BarMove(a.prev.value, b)];
            && a'.tr == SmoothFromZero(Adx.Trs(ms'), a.smoothing)
            && a'.plusDm == SmoothFromZero(Adx.PosDms(ms'), a.smoothing)
            && a'.minusDm == SmoothFromZero(Adx.NegDms(ms'), a.smoothing)
  {
    var m := BarMove(a.prev.value, b);
    Adx.ProjectSnoc(ms, m);
    SmoothSnoc(Adx.Trs(ms), m.tr, a.smoothing);
    SmoothSnoc(Adx.PosDms(ms), m.pos, a.smoothing);
    SmoothSnoc(Adx.NegDms(ms), m.neg, a.smoothing);
  }

  /** The second bar sets the ADX to its DX. */
  lemma SecondBarSeedsAdx(period: nat, smoothing: nat, b0: Hlc, b1: Hlc)
    requires smoothing >= 1 && Runnable(New(period, smoothing), [b0, b1])
    ensures var a := New(period, smoothing).(prev := Some(b0));
            var r := Smoothed(a, BarMove(b0, b1));
            && DxDefined(r)
            && Run(New(period, smoothing), [b0, b1]).adx == Some(Dx(r))
  {
    var n := New(period, smoothing);
    assert [b0, b1][..1] == [b0];
    assert [b0][..0] == [];
    assert Run(n, [b0]) == Update(n, b0);
    assert Run(n, [b0, b1]) == Update(Update(n, b0), b1);
  }
}
