/**
 * The lazily opened bar of src/model/candlestick.rs: it is created empty for
 * a given start time, and its open and low only exist once a first trade has
 * been folded in.
 */
module LazyCandlestick {
  import opened Options
  import opened Ranges
  import Candlestick

  datatype Candle = Candle(
    start: int,
    end: int,
    high: real,
    low: Option<real>,
    open: Option<real>,
    close: real,
    volume: real)

  /**
   * The state every bar built by `New` and `Update` is in: open and low are set
   * together, and once set they sit inside [low, high] with the close.
   */
  predicate Valid(c: Candle) {
    && (c.open.Some? <==> c.low.Some?)
    && (c.open.Some? ==>
          c.low.value <= Min(c.open.value, c.close) && Max(c.open.value, c.close) <= c.high)
  }

  /** `Candlestick::new(start)`: an empty one-minute bar. */
  function New(start: int): (c: Candle)
    ensures c.start == start && c.end == start + Candlestick.MinuteNanos
    ensures c.open.None? && c.low.None?
    ensures c.high == 0.0 && c.close == 0.0 && c.volume == 0.0
    ensures Valid(c)
  {
    Candle(start, start + Candlestick.MinuteNanos, 0.0, None, None, 0.0, 0.0)
  }

  /** `Candlestick::update`: fold one trade (its price as `close`) into the bar. */
  function Update(c: Candle, close: real, volume: real): (c': Candle)
    ensures c'.start == c.start && c'.end == c.end
    ensures c'.open == (if c.open.Some? then c.open else Some(close))
    ensures c'.high >= c.high && c'.high >= close && (c'.high == c.high || c'.high == close)
    ensures c'.low.Some? && c'.low.value <= close
    ensures c.low.None? ==> c'.low == Some(close)
    ensures c.low.Some? ==>
              c'.low.value <= c.low.value && (c'.low.value == c.low.value || c'.low.value == close)
    ensures c'.close == close && c'.volume == c.volume + volume
    ensures Valid(c) ==> Valid(c')
  {
    var open := if c.open.Some? then c.open else Some(close);
    var low := match c.low
      case None => close
      case Some(l) => Min(l, close);
    c.(open := open, high := Max(c.high, close), low := Some(low), volume := c.volume + volume,
       close := close)
  }
}
