/**
 * The per-tick OHLCV bar of src/candlestick.rs: a bar is opened by one tick,
 * aligned to the start of that tick's minute, and every later tick of the
 * bar widens high/low, moves close and adds to the volume.
 */
module Candlestick {
  import opened Ranges

  /** Bar length in seconds (`CANDLESTICK_TIMEFRAME`). */
  const CandlestickTimeframe: int := 60
  const NanosPerSecond: int := 1_000_000_000
  /** One minute in nanoseconds: bar starts are whole minutes. */
  const MinuteNanos: int := 60 * NanosPerSecond

  /** Times are nanoseconds since the Unix epoch (UTC). */
  datatype Candle = Candle(
    start: int,
    end: int,
    high: real,
    low: real,
    open: real,
    close: real,
    volume: real)

  /** The OHLC ordering invariant: low <= open, close <= high. */
  predicate OhlcOrdered(c: Candle) {
    c.low <= Min(c.open, c.close) && Max(c.open, c.close) <= c.high
  }

  /** The tick time with its seconds and nanoseconds set to zero. */
  function StartTime(time: int): (s: int)
    ensures s % MinuteNanos == 0
    ensures s <= time < s + MinuteNanos
  {
    time - time % MinuteNanos
  }

  /** A whole minute containing `time` is the one `StartTime` picks. */
  lemma StartTimeUnique(time: int, s: int)
    requires s % MinuteNanos == 0 && s <= time < s + MinuteNanos
    ensures s == StartTime(time)
  {
    var t := StartTime(time);
    var a := s / MinuteNanos;
    var b := t / MinuteNanos;
    assert s == a * MinuteNanos;
    assert t == b * MinuteNanos;
  }

  /** `Candlestick::new`: a one-tick bar in the minute that contains `time`. */
  function New(time: int, price: real, size: real): (c: Candle)
    ensures c.start % MinuteNanos == 0 && c.start <= time < c.end
    ensures c.end == c.start + CandlestickTimeframe * NanosPerSecond
    ensures c.open == price && c.high == price && c.low == price && c.close == price
    ensures c.volume == size
    ensures OhlcOrdered(c)
  {
    var start := StartTime(time);
    Candle(start, start + CandlestickTimeframe * NanosPerSecond, price, price, price, price, size)
  }

  /** `Candlestick::update`: fold one more tick into the bar. */
  function Update(c: Candle, price: real, size: real): (c': Candle)
    ensures c'.start == c.start && c'.end == c.end && c'.open == c.open
    ensures c'.close == price
    ensures c'.volume == c.volume + size
    ensures c'.high >= c.high && c'.high >= price && (c'.high == c.high || c'.high == price)
    ensures c'.low <= c.low && c'.low <= price && (c'.low == c.low || c'.low == price)
    ensures OhlcOrdered(c) ==> OhlcOrdered(c')
    ensures c.volume >= 0.0 && size >= 0.0 ==> c'.volume >= 0.0
  {
    var high := if price > c.high then price else c.high;
    var low := if price < c.low then price else c.low;
    c.(high := high, low := low, close := price, volume := c.volume + size)
  }
}
