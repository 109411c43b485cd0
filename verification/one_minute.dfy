/**
 * `OneMinuteCandle::from_trades` of src/model.rs: one bar built in a single
 * pass over a batch of trades, and its agreement with the two per-tick bar
 * builders.
 */
module OneMinute {
  import opened Options
  import opened Series
  import opened Ranges
  import Candlestick
  import LazyCandlestick

  /** A market trade; identifiers, product and side play no part in a bar. */
  datatype Trade = Trade(price: real, size: real, time: int)

  datatype OneMinuteCandle = OneMinuteCandle(
    open: real,
    close: real,
    high: real,
    low: real,
    volume: real)

  function Prices(trades: seq<Trade>): (ps: seq<real>)
    ensures |ps| == |trades|
    ensures forall i :: 0 <= i < |trades| ==> ps[i] == trades[i].price
  {
    seq(|trades|, i requires 0 <= i < |trades| => trades[i].price)
  }

  function Sizes(trades: seq<Trade>): (ss: seq<real>)
    ensures |ss| == |trades|
    ensures forall i :: 0 <= i < |trades| ==> ss[i] == trades[i].size
  {
    seq(|trades|, i requires 0 <= i < |trades| => trades[i].size)
  }

  /**
   * `from_trades`: open is the first price, close the last, high and low the
   * extreme prices and volume the total size. The source unwraps the first
   * and last trade, so an empty batch is outside its domain.
   */
  function FromTrades(trades: seq<Trade>): (c: OneMinuteCandle)
    requires |trades| > 0
    ensures c.open == trades[0].price && c.close == trades[|trades| - 1].price
    ensures forall i :: 0 <= i < |trades| ==> c.low <= trades[i].price <= c.high
    ensures exists i :: 0 <= i < |trades| && trades[i].price == c.high
    ensures exists i :: 0 <= i < |trades| && trades[i].price == c.low
    ensures c.volume == Sum(Sizes(trades))
    ensures c.low <= Min(c.open, c.close) && Max(c.open, c.close) <= c.high
  {
    var ps := Prices(trades);
    var high := MaxOf(ps);
    var low := MinOf(ps);
    assert exists i :: 0 <= i < |trades| && trades[i].price == high by {
      var i :| 0 <= i < |ps| && ps[i] == high;
    }
    assert exists i :: 0 <= i < |trades| && trades[i].price == low by {
      var i :| 0 <= i < |ps| && ps[i] == low;
    }
    OneMinuteCandle(trades[0].price, trades[|trades| - 1].price, high, low, Sum(Sizes(trades)))
  }

  /** Five unit trades priced 100, 101, 102, 101, 100 make the bar {100, 102, 100, 100, 5}. */
  lemma FromTradesExample()
    ensures FromTrades([Trade(100.0, 1.0, 0), Trade(101.0, 1.0, 1), Trade(102.0, 1.0, 2),
                        Trade(101.0, 1.0, 3), Trade(100.0, 1.0, 4)])
            == OneMinuteCandle(100.0, 100.0, 102.0, 100.0, 5.0)
  {
    var ts := [Trade(100.0, 1.0, 0), Trade(101.0, 1.0, 1), Trade(102.0, 1.0, 2),
               Trade(101.0, 1.0, 3), Trade(100.0, 1.0, 4)];
    var c := FromTrades(ts);
    assert c.high >= ts[2].price;
    assert c.low <= ts[0].price;
    SumOfConstant(Sizes(ts), 1.0);
  }

  /** Per-tick bar of src/candlestick.rs: open with the first trade, update with the rest. */
  function TickBar(trades: seq<Trade>): Candlestick.Candle
    requires |trades| > 0
    decreases |trades|
  {
    var last := trades[|trades| - 1];
    if |trades| == 1 then Candlestick.New(last.time, last.price, last.size)
    else Candlestick.Update(TickBar(trades[..|trades| - 1]), last.price, last.size)
  }

  /** The per-tick builder and the batch builder produce the same bar. */
  lemma {:induction false} TickBarMatchesFromTrades(trades: seq<Trade>)
    requires |trades| > 0
    ensures var c := TickBar(trades);
            var b := FromTrades(trades);
            c.open == b.open && c.high == b.high && c.low == b.low
            && c.close == b.close && c.volume == b.volume
    decreases |trades|
  {
    if |trades| > 1 {
      var pre := trades[..|trades| - 1];
      TickBarMatchesFromTrades(pre);
      assert Prices(trades)[..|trades| - 1] == Prices(pre);
      assert Sizes(trades)[..|trades| - 1] == Sizes(pre);
    } else {
      assert Sizes(trades)[..0] == [];
      assert MaxOf(Prices(trades)) == trades[0].price;
      assert MinOf(Prices(trades)) == trades[0].price;
      assert Sum(Sizes(trades)) == trades[0].size;
    }
  }

  /** Lazily opened bar of src/model/candlestick.rs after folding in every trade. */
  function LazyBar(start: int, trades: seq<Trade>): LazyCandlestick.Candle
    decreases |trades|
  {
    if |trades| == 0 then LazyCandlestick.New(start)
    else
      var last := trades[|trades| - 1];
      LazyCandlestick.Update(LazyBar(start, trades[..|trades| - 1]), last.price, last.size)
  }

  /**
   * With non-negative prices the lazily opened bar agrees with the batch bar
   * (its high starts at 0, so a batch of negative prices would differ).
   */
  lemma {:induction false} LazyBarMatchesFromTrades(start: int, trades: seq<Trade>)
    requires |trades| > 0
    requires forall i :: 0 <= i < |trades| ==> trades[i].price >= 0.0
    ensures var c := LazyBar(start, trades);
            var b := FromTrades(trades);
            c.open == Some(b.open) && c.high == b.high && c.low == Some(b.low)
            && c.close == b.close && c.volume == b.volume
    decreases |trades|
  {
    var pre := trades[..|trades| - 1];
    if |trades| > 1 {
      LazyBarMatchesFromTrades(start, pre);
      assert Prices(trades)[..|trades| - 1] == Prices(pre);
      assert Sizes(trades)[..|trades| - 1] == Sizes(pre);
    } else {
      assert Sizes(trades)[..0] == [];
      assert MaxOf(Prices(trades)) == trades[0].price;
      assert MinOf(Prices(trades)) == trades[0].price;
      assert Sum(Sizes(trades)) == trades[0].size;
      assert pre == [];
    }
  }

  /** Every bar the lazy builder produces from trades keeps the OHLC ordering. */
  lemma {:induction false} LazyBarValid(start: int, trades: seq<Trade>)
    ensures LazyCandlestick.Valid(LazyBar(start, trades))
    ensures (LazyBar(start, trades).open.Some? <==> |trades| > 0)
    ensures |trades| > 0 ==> LazyBar(start, trades).open == Some(trades[0].price)
    decreases |trades|
  {
    if |trades| > 0 {
      LazyBarValid(start, trades[..|trades| - 1]);
    }
  }
}
