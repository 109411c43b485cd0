/**
 * The signal engine of src/trading_bot.rs. Every finished bar advances a
 * 9-bar and a 12-bar EMA of the close, a MACD(12, 26, 9) and an OBV. After a
 * warm-up of 36 bars, each request for a signal first tracks the direction of
 * the MACD line against its signal line, counting how many requests in a row
 * it has kept that direction, and then answers Buy or Sell only when the
 * direction is fresh (fewer than 10 requests old) and the two EMAs agree with it.
 */
module TradingBot {
  import opened Options
  import Ema
  import Macd
  import Obv
  import LazyCandlestick

  datatype Signal = Buy | Sell | Hold

  /** A MACD direction this many requests old no longer trades. */
  const MaxMacdSignalPeriod: nat := 10

  /** Bars counted before any signal other than Hold; `count` stops here. */
  const WarmUpBars: nat := 36

  datatype Bot = Bot(
    price: real,
    shortEma: Ema.State,
    longEma: Ema.State,
    macd: Macd.State,
    obv: Obv.State,
    count: nat,
    macdCount: nat,
    currentMacdSignal: Signal)

  /** `TradingBot::new`. */
  function New(): (b: Bot)
    ensures b.count == 0 && b.macdCount == 0 && b.currentMacdSignal == Hold
    ensures b.shortEma.period == 9 && b.longEma.period == 12 && Valid(b)
  {
    Bot(0.0, Ema.New(9), Ema.New(12), Macd.New(12, 26, 9), Obv.New(), 0, 0, Hold)
  }

  /** Every average has a usable period and the bar counter never passes its cap. */
  predicate Valid(b: Bot) {
    && b.shortEma.period >= 1 && b.longEma.period >= 1
    && Macd.Periods(b.macd)
    && b.count <= WarmUpBars
  }

  /**
   * `TradingBot::update_bot`: every indicator sees the bar's close (and OBV
   * its volume), the price becomes the close, and the bar counter advances
   * until it reaches 36. The MACD tracking is untouched.
   */
  function UpdateBot(b: Bot, candle: LazyCandlestick.Candle): (b': Bot)
    requires Valid(b)
    ensures Valid(b')
    ensures b'.price == candle.close
    ensures b'.count == if b.count < WarmUpBars then b.count + 1 else WarmUpBars
    ensures b'.shortEma == Ema.Update(b.shortEma, candle.close)
    ensures b'.longEma == Ema.Update(b.longEma, candle.close)
    ensures b'.macd == Macd.Update(b.macd, candle.close)
    ensures b'.obv == Obv.Update(b.obv, candle.close, candle.volume)
    ensures b'.macdCount == b.macdCount && b'.currentMacdSignal == b.currentMacdSignal
  {
    Bot(
      candle.close,
      Ema.Update(b.shortEma, candle.close),
      Ema.Update(b.longEma, candle.close),
      Macd.Update(b.macd, candle.close),
      Obv.Update(b.obv, candle.close, candle.volume),
      if b.count <= 35 then b.count + 1 else b.count,
      b.macdCount,
      b.currentMacdSignal)
  }

  /** The direction the MACD line points relative to its signal; a tie reads as Sell. */
  function Direction(line: real, signal: real): Signal {
    if line > signal then Buy else Sell
  }

  /**
   * `TradingBot::update_macd_signal_and_count`: a strict move in the tracked
   * direction extends the streak; anything else starts a new streak of 1 in
   * the direction the line now points.
   */
  function UpdateMacdSignalAndCount(b: Bot, line: real, signal: real): (b': Bot)
    ensures b'.currentMacdSignal == Direction(line, signal)
    ensures b'.currentMacdSignal != Hold && b'.macdCount >= 1
    ensures b'.macdCount == if line != signal && b.currentMacdSignal == Direction(line, signal)
                            then b.macdCount + 1 else 1
    ensures b' == b.(macdCount := b'.macdCount, currentMacdSignal := b'.currentMacdSignal)
  {
    if (line > signal && b.currentMacdSignal == Buy) || (line < signal && b.currentMacdSignal == Sell) then
      b.(macdCount := b.macdCount + 1)
    else
      b.(macdCount := 1, currentMacdSignal := if line > signal then Buy else Sell)
  }

  /** The MACD line and its signal, when both exist. */
  predicate MacdReady(b: Bot) {
    b.macd.current.Some? && Ema.Value(b.macd.signal).Some?
  }

  /**
   * `TradingBot::get_signal`, returning the bot (whose MACD tracking it
   * advances) and the signal. Buy needs the warm-up to be over, a MACD
   * direction fewer than 10 requests old pointing up, and the short EMA above
   * the long one; Sell the mirror image, where a tie of the MACD lines counts
   * as pointing down. Everything else is Hold.
   */
  function GetSignal(b: Bot): (r: (Bot, Signal))
    ensures b.count < WarmUpBars || !MacdReady(b) ==> r == (b, Hold)
    ensures b.count >= WarmUpBars && MacdReady(b) ==>
              r.0 == UpdateMacdSignalAndCount(b, b.macd.current.value, Ema.Value(b.macd.signal).value)
    ensures r.1 == Buy <==>
              && b.count >= WarmUpBars && MacdReady(b) && r.0.macdCount < MaxMacdSignalPeriod
              && b.shortEma.current.Some? && b.longEma.current.Some?
              && b.shortEma.current.value > b.longEma.current.value
              && b.macd.current.value > Ema.Value(b.macd.signal).value
    ensures r.1 == Sell <==>
              && b.count >= WarmUpBars && MacdReady(b) && r.0.macdCount < MaxMacdSignalPeriod
              && b.shortEma.current.Some? && b.longEma.current.Some?
              && b.shortEma.current.value < b.longEma.current.value
              && b.macd.current.value <= Ema.Value(b.macd.signal).value
    ensures r.1 != Hold ==> r.1 == r.0.currentMacdSignal
    ensures r.0 == b.(macdCount := r.0.macdCount, currentMacdSignal := r.0.currentMacdSignal)
  {
    if b.count <= 35 || !MacdReady(b) then (b, Hold)
    else
      var line := b.macd.current.value;
      var signal := Ema.Value(b.macd.signal).value;
      var b1 := UpdateMacdSignalAndCount(b, line, signal);
      if b1.macdCount >= MaxMacdSignalPeriod then (b1, Hold)
      else if b.shortEma.current.None? || b.longEma.current.None? then (b1, Hold)
      else
        var short := b.shortEma.current.value;
        var long := b.longEma.current.value;
        if short > long && b1.currentMacdSignal == Buy then (b1, Buy)
        else if short < long && b1.currentMacdSignal == Sell then (b1, Sell)
        else (b1, Hold)
  }

  /** The closes of a bar series. */
  function Closes(cs: seq<LazyCandlestick.Candle>): (xs: seq<real>)
    ensures |xs| == |cs| && forall i :: 0 <= i < |cs| ==> xs[i] == cs[i].close
  {
    seq(|cs|, i requires 0 <= i < |cs| => cs[i].close)
  }

  /** The state after feeding `cs` to `UpdateBot` in order. */
  function Run(b: Bot, cs: seq<LazyCandlestick.Candle>): (b': Bot)
    requires Valid(b)
    ensures Valid(b')
    decreases |cs|
  {
    if |cs| == 0 then b else UpdateBot(Run(b, cs[..|cs| - 1]), cs[|cs| - 1])
  }

  /** The closes of one more bar. */
  lemma ClosesSnoc(cs: seq<LazyCandlestick.Candle>)
    requires |cs| > 0
    ensures Closes(cs) == Closes(cs[..|cs| - 1]) + [cs[|cs| - 1].close]
  {
  }

  /** Over a bar series from `New` the short EMA has seen every close. */
  lemma {:induction false} RunShort(cs: seq<LazyCandlestick.Candle>)
    ensures Run(New(), cs).shortEma == Ema.Run(Ema.New(9), Closes(cs))
    decreases |cs|
  {
    if |cs| > 0 {
      var pre := cs[..|cs| - 1];
      RunShort(pre);
      ClosesSnoc(cs);
      Ema.RunSnoc(Ema.New(9), Closes(pre), cs[|cs| - 1].close);
    }
  }

  /** Over a bar series from `New` the long EMA has seen every close. */
  lemma {:induction false} RunLong(cs: seq<LazyCandlestick.Candle>)
    ensures Run(New(), cs).longEma == Ema.Run(Ema.New(12), Closes(cs))
    decreases |cs|
  {
    if |cs| > 0 {
      var pre := cs[..|cs| - 1];
      RunLong(pre);
      ClosesSnoc(cs);
      Ema.RunSnoc(Ema.New(12), Closes(pre), cs[|cs| - 1].close);
    }
  }

  /** Over a bar series from `New` the MACD has seen every close. */
  lemma {:induction false} RunMacd(cs: seq<LazyCandlestick.Candle>)
    ensures Run(New(), cs).macd == Macd.Run(Macd.New(12, 26, 9), Closes(cs))
    decreases |cs|
  {
    if |cs| > 0 {
      var pre := cs[..|cs| - 1];
      RunMacd(pre);
      ClosesSnoc(cs);
      Macd.RunSnoc(Macd.New(12, 26, 9), Closes(pre), cs[|cs| - 1].close);
    }
  }

  /**
   * Over a bar series from `New` the counter is min(n, 36), the price is the
   * last close, and the MACD tracking has not moved.
   */
  lemma {:induction false} RunCount(cs: seq<LazyCandlestick.Candle>)
    ensures var b := Run(New(), cs);
            && b.count == (if |cs| < WarmUpBars then |cs| else WarmUpBars)
            && (|cs| > 0 ==> b.price == cs[|cs| - 1].close)
            && b.macdCount == 0 && b.currentMacdSignal == Hold
    decreases |cs|
  {
    if |cs| > 0 {
      RunCount(cs[..|cs| - 1]);
    }
  }

  /**
   * Once the warm-up is over, a bot fed from `New` always has both MACD lines
   * and both EMAs, so its signal depends only on the MACD streak and the
   * directions of the two crossings.
   */
  lemma WarmedUp(cs: seq<LazyCandlestick.Candle>)
    requires |cs| >= WarmUpBars
    ensures var b := Run(New(), cs);
            && b.count == WarmUpBars && MacdReady(b)
            && b.shortEma.current.Some? && b.longEma.current.Some?
  {
    RunShort(cs);
    RunLong(cs);
    RunMacd(cs);
    RunCount(cs);
    Macd.WarmUp(12, 26, 9, Closes(cs));
    Ema.WarmUp(9, Closes(cs));
    Ema.WarmUp(12, Closes(cs));
  }

  /** The warm-up: no signal but Hold before 36 bars, and the bot is left as it is. */
  lemma EarlyHold(cs: seq<LazyCandlestick.Candle>)
    requires |cs| < WarmUpBars
    ensures GetSignal(Run(New(), cs)) == (Run(New(), cs), Hold)
  {
    RunCount(cs);
  }

  /** The state after a series of MACD observations (line, signal). */
  function Follow(b: Bot, ps: seq<(real, real)>): (b': Bot)
    ensures b' == b.(macdCount := b'.macdCount, currentMacdSignal := b'.currentMacdSignal)
    decreases |ps|
  {
    if |ps| == 0 then b
    else
      var p := ps[|ps| - 1];
      UpdateMacdSignalAndCount(Follow(b, ps[..|ps| - 1]), p.0, p.1)
  }

  /**
   * `n` is the length of the maximal streak ending an observation series in
   * direction `d`: the last `n` observations all point in `d`, all but the
   * first of them strictly, and the streak cannot be extended backwards
   * (the one before points elsewhere, or the first is a tie).
   */
  predicate MaximalStreak(ps: seq<(real, real)>, n: nat, d: Signal) {
    && 1 <= n <= |ps|
    && (forall i :: |ps| - n <= i < |ps| ==> Direction(ps[i].0, ps[i].1) == d)
    && (forall i :: |ps| - n < i < |ps| ==> ps[i].0 != ps[i].1)
    && (n < |ps| ==>
          Direction(ps[|ps| - n - 1].0, ps[|ps| - n - 1].1) != d || ps[|ps| - n].0 == ps[|ps| - n].1)
  }

  /**
   * From a bot that tracks nothing yet, the MACD count after any non-empty
   * series of observations is the length of the maximal streak the series
   * ends with, and the tracked signal is that streak's direction.
   */
  lemma {:induction false} Streak(b: Bot, ps: seq<(real, real)>)
    requires b.currentMacdSignal == Hold && |ps| > 0
    ensures var f := Follow(b, ps);
            MaximalStreak(ps, f.macdCount, f.currentMacdSignal)
    decreases |ps|
  {
    var pre := ps[..|ps| - 1];
    var p := ps[|ps| - 1];
    var f := Follow(b, ps);
    if |pre| == 0 {
      assert Follow(b, pre) == b;
      assert f == UpdateMacdSignalAndCount(b, p.0, p.1);
    } else {
      Streak(b, pre);
      var f0 := Follow(b, pre);
      assert f == UpdateMacdSignalAndCount(f0, p.0, p.1);
      var n0 := f0.macdCount;
      if p.0 != p.1 && f0.currentMacdSignal == Direction(p.0, p.1) {
        assert f.macdCount == n0 + 1;
        forall i | |ps| - (n0 + 1) <= i < |ps|
          ensures Direction(ps[i].0, ps[i].1) == f.currentMacdSignal
        {
          if i < |pre| {
            assert ps[i] == pre[i];
          }
        }
        forall i | |ps| - (n0 + 1) < i < |ps|
          ensures ps[i].0 != ps[i].1
        {
          if i < |pre| {
            assert ps[i] == pre[i];
          }
        }
        if n0 + 1 < |ps| {
          assert ps[|ps| - (n0 + 1) - 1] == pre[|pre| - n0 - 1];
          assert ps[|ps| - (n0 + 1)] == pre[|pre| - n0];
        }
      } else {
        assert f.macdCount == 1;
        assert ps[|ps| - 2] == pre[|pre| - 1];
      }
    }
  }

  /** The MACD line and signal of a bot fed with the closes `xs` from `New`. */
  function Observation(xs: seq<real>): (real, real)
    requires |xs| >= WarmUpBars
  {
    var m := Macd.Run(Macd.New(12, 26, 9), xs);
    Macd.WarmUp(12, 26, 9, xs);
    (m.current.value, Ema.Value(m.signal).value)
  }

  /** Reference: the MACD observations a bot driven by `Session` makes, one per bar from bar 36 on. */
  function Observations(xs: seq<real>): (ps: seq<(real, real)>)
    ensures |ps| == if |xs| < WarmUpBars then 0 else |xs| - WarmUpBars + 1
    decreases |xs|
  {
    if |xs| < WarmUpBars then [] else Observations(xs[..|xs| - 1]) + [Observation(xs)]
  }

  /**
   * An assumed driver of the bot: on each bar, `update_bot` and then
   * `get_signal`. No caller in src/ makes this sequence of calls; it is the
   * use the two methods suggest. Returns the bot and the signals produced,
   * one per bar.
   */
  function Session(cs: seq<LazyCandlestick.Candle>): (r: (Bot, seq<Signal>))
    ensures Valid(r.0) && |r.1| == |cs|
    decreases |cs|
  {
    if |cs| == 0 then (New(), [])
    else
      var prev := Session(cs[..|cs| - 1]);
      var g := GetSignal(UpdateBot(prev.0, cs[|cs| - 1]));
      (g.0, prev.1 + [g.1])
  }

  /** One more bar from bar 36 on adds its observation. */
  lemma ObservationsSnoc(xs: seq<real>)
    requires |xs| >= WarmUpBars
    ensures Observations(xs) == Observations(xs[..|xs| - 1]) + [Observation(xs)]
  {
  }

  /**
   * The bot the driver should hold after `cs`: the indicators of `Run`
   * and the MACD tracking of `Follow` over the observations.
   */
  function Tracked(cs: seq<LazyCandlestick.Candle>): Bot {
    var f := Follow(New(), Observations(Closes(cs)));
    Run(New(), cs).(macdCount := f.macdCount, currentMacdSignal := f.currentMacdSignal)
  }

  /** Updating the tracked bot by one bar updates its indicators and counter and keeps its tracking. */
  lemma TrackedSnoc(cs: seq<LazyCandlestick.Candle>)
    requires |cs| > 0
    ensures var pre := Tracked(cs[..|cs| - 1]);
            var u := UpdateBot(pre, cs[|cs| - 1]);
            && u == Run(New(), cs).(macdCount := pre.macdCount, currentMacdSignal := pre.currentMacdSignal)
            && u.count == (if |cs| < WarmUpBars then |cs| else WarmUpBars)
  {
    RunCount(cs);
    assert Run(New(), cs) == UpdateBot(Run(New(), cs[..|cs| - 1]), cs[|cs| - 1]);
  }

  /** During the warm-up there is nothing to track. */
  lemma TrackedWarmUp(cs: seq<LazyCandlestick.Candle>)
    requires |cs| < WarmUpBars
    ensures Tracked(cs) == Run(New(), cs).(macdCount := 0, currentMacdSignal := Hold)
  {
    assert Observations(Closes(cs)) == [];
  }

  /** After the warm-up, the tracking of one more bar follows its observation. */
  lemma TrackedObserve(cs: seq<LazyCandlestick.Candle>)
    requires |cs| >= WarmUpBars
    ensures var pre := Tracked(cs[..|cs| - 1]);
            var u := UpdateBot(pre, cs[|cs| - 1]);
            && MacdReady(u)
            && Tracked(cs) == UpdateMacdSignalAndCount(u, u.macd.current.value, Ema.Value(u.macd.signal).value)
  {
    var pre := cs[..|cs| - 1];
    var xs := Closes(cs);
    var u := UpdateBot(Tracked(pre), cs[|cs| - 1]);
    TrackedSnoc(cs);
    ObservedBar(cs);
    var o := Observation(xs);
    ClosesSnoc(cs);
    ObservationsSnoc(xs);
    var f0 := Follow(New(), Observations(Closes(pre)));
    var f := Follow(New(), Observations(xs));
    assert f == UpdateMacdSignalAndCount(f0, o.0, o.1);
    SameTracking(u, f0, o.0, o.1);
  }

  /** After the warm-up a bot fed from `New` is MACD-ready, and its lines are the observation of its closes. */
  lemma ObservedBar(cs: seq<LazyCandlestick.Candle>)
    requires |cs| >= WarmUpBars
    ensures var b := Run(New(), cs);
            && MacdReady(b)
            && Observation(Closes(cs)) == (b.macd.current.value, Ema.Value(b.macd.signal).value)
  {
    RunMacd(cs);
    WarmedUp(cs);
  }

  /** `update_macd_signal_and_count` reads and writes only the MACD tracking. */
  lemma SameTracking(a: Bot, b: Bot, line: real, signal: real)
    requires a.macdCount == b.macdCount && a.currentMacdSignal == b.currentMacdSignal
    ensures var r := UpdateMacdSignalAndCount(b, line, signal);
            UpdateMacdSignalAndCount(a, line, signal) == a.(macdCount := r.macdCount, currentMacdSignal := r.currentMacdSignal)
  {
  }

  /** One bar of the driver keeps the bot at `Tracked`, answering Hold in the warm-up. */
  lemma SessionStep(cs: seq<LazyCandlestick.Candle>)
    requires |cs| > 0
    ensures var g := GetSignal(UpdateBot(Tracked(cs[..|cs| - 1]), cs[|cs| - 1]));
            && g.0 == Tracked(cs)
            && (|cs| < WarmUpBars ==> g.1 == Hold)
  {
    TrackedSnoc(cs);
    if |cs| >= WarmUpBars {
      TrackedObserve(cs);
    } else {
      TrackedWarmUp(cs);
      TrackedWarmUp(cs[..|cs| - 1]);
    }
  }

  /** Under the driver the bot after each bar is `Tracked`. */
  lemma {:induction false} SessionState(cs: seq<LazyCandlestick.Candle>)
    ensures Session(cs).0 == Tracked(cs)
    decreases |cs|
  {
    if |cs| > 0 {
      SessionState(cs[..|cs| - 1]);
      SessionStep(cs);
    } else {
      assert Observations(Closes(cs)) == [];
    }
  }

  /** The driver answers Hold for the first 35 bars. */
  lemma {:induction false} SessionWarmUp(cs: seq<LazyCandlestick.Candle>)
    ensures forall i :: 0 <= i < |cs| && i < WarmUpBars - 1 ==> Session(cs).1[i] == Hold
    decreases |cs|
  {
    if |cs| > 0 {
      var pre := cs[..|cs| - 1];
      SessionWarmUp(pre);
      SessionState(pre);
      SessionStep(cs);
    }
  }

  /**
   * The headline property of the driver: after the warm-up, the MACD count
   * is the length of the maximal streak of MACD directions since bar 36 and
   * the tracked direction is that streak's.
   */
  lemma SessionStreak(cs: seq<LazyCandlestick.Candle>)
    requires |cs| >= WarmUpBars
    ensures var b := Session(cs).0;
            MaximalStreak(Observations(Closes(cs)), b.macdCount, b.currentMacdSignal)
  {
    SessionState(cs);
    Streak(New(), Observations(Closes(cs)));
  }
}
