# coinbase_bot analytics in Dafny

This project models the sequential analytics of a Coinbase trading bot. Prices and volumes are Dafny `real`s. Exact arithmetic stands in for the source's `f64` and `Decimal`. Every stateful component is an immutable record with pure update functions. Each component comes with a fold (`Run`) over a sample series and lemmas about what the fold produces.

The model has four parts.

- **Bar construction.** There are three bar builders:
  - `Candlestick`: the per-tick bar of `src/candlestick.rs`, aligned to the start of the tick's minute;
  - `LazyCandlestick`: the lazily opened bar of `src/model/candlestick.rs`;
  - `OneMinute`: the batch bar of `OneMinuteCandle::from_trades` in `src/model.rs`.

  They share the OHLC ordering (low ≤ open, close ≤ high) and additive volume. Lemmas prove that the two per-tick builders agree with the batch builder.
- **Incremental indicators.** One module per indicator:
  - current indicators: `Ema`, `Rsi`, `Obv`, `Atr`, `BollingerBands`, `Macd`, `Adx`, `Stoch` and `StochRsi`;
  - older variants from `src/old/indicators`: `OldRsi`, `OldAdx` and `OldMacd`.

  Each has a state record and an update, plus lemmas. The lemmas cover the exact warm-up (when `None` turns into `Some`), the window contents, the seed-then-recurrence formulas, and the range bounds. `AdxCorrected` is the current ADX with its two defects repaired (see Findings).
- **Signal engine.** `TradingBot` models `src/trading_bot.rs`. It has three pieces:
  - a bar counter capped at 36;
  - a MACD-direction streak counter with a cutoff of 10;
  - the Buy/Sell/Hold rule.

  `Session` is a driver the model assumes: `update_bot` then `get_signal` on every bar. No code in the source calls the two methods (see Left out). The model proves that:
  - the driver answers Hold through the warm-up;
  - after the warm-up, its MACD count is the length of the maximal streak of MACD directions.
- **Order book.** `OrderBook` models `src/indicators/order_book.rs`. Each side is a sequence of level-2 entries. An update replaces or deletes one price level and keeps the side sorted with unique levels. The strong level of a side is the first level at which the cumulative quantity reaches a threshold.

Shared helpers live in `Series` (sums, means, extremes, sliding windows, Wilder smoothing), `Ranges` (true range, percentages, the `Hlc` bar) and `Options`.

Timestamps are integer nanoseconds since the Unix epoch. `f64::sqrt` in the Bollinger bands is a function parameter `sqrt`, required to return a non-negative square root of a non-negative argument. The inner RSI of the stochastic RSI is not part of this model. Each `StochRsi.Next` receives the `Option` that RSI produced.

Where the code departs from the textbook indicator, the model follows the code:
- RSI with a zero average loss: textbook RSI is then 100. `src/indicators/rsi.rs:50-56` uses rs = 100, which gives 100 − 100/101. `Rsi.Index` states the code's value.
- ADX: Wilder's ADX counts a directional movement only when the winning move is positive and smooths the DX, as `src/old/indicators/adx.rs:47-76` does. The current `src/indicators/adx.rs` differs on both counts; see Findings.

## Model

| member | source | states |
|---|---|---|
| Candlestick.StartTime | src/candlestick.rs:52-58 | the bar start is a whole minute and the tick time lies in the minute that starts there |
| Candlestick.StartTimeUnique | src/candlestick.rs:52-58 | the whole minute containing a time is unique, so the start is exactly the time with seconds and nanoseconds zeroed |
| Candlestick.New | src/candlestick.rs:26-38 | a new bar lies in the tick's minute, ends 60 seconds after its start, has open = high = low = close = price and volume = size, and is OHLC-ordered |
| Candlestick.Update | src/candlestick.rs:40-49 | a tick keeps start, end and open, makes the price the close, widens high/low to include the price, adds the size to the volume, keeps OHLC ordering and keeps the volume non-negative for non-negative sizes |
| LazyCandlestick.New | src/model/candlestick.rs:16-28 | an empty bar ends one minute after its start, has no open and no low, zero high, close and volume, and satisfies the lazy OHLC invariant |
| LazyCandlestick.Update | src/model/candlestick.rs:29-35 | the first trade sets the open and later ones keep it; high and low widen to the close; start and end never change; the OHLC invariant is preserved |
| OneMinute.FromTrades | src/model.rs:134-156 | open is the first trade's price, close the last, high and low are attained extreme prices bounding every trade, volume is the total size, and low ≤ open, close ≤ high |
| OneMinute.FromTradesExample | src/model.rs:134-156 | unit trades priced 100, 101, 102, 101, 100 make the bar open 100, high 102, low 100, close 100, volume 5 |
| OneMinute.TickBarMatchesFromTrades | src/model.rs:134-156 | opening a per-tick bar with the first trade and updating it with the rest gives the same OHLCV as the batch bar |
| OneMinute.LazyBarMatchesFromTrades | src/model.rs:134-156 | folding non-negative-priced trades into an empty lazy bar gives the same OHLCV as the batch bar |
| OneMinute.LazyBarValid | src/model/candlestick.rs:29-35 | a lazy bar fed any trades is OHLC-ordered, and is opened, at the first trade's price, exactly when a trade was seen |
| Ema.Multiplier | src/indicators/ema.rs:66 | the smoothing factor lies in (0, 1] for every period ≥ 1 |
| Ema.New | src/indicators/ema.rs:62-69 | a new average is reachable, with an empty seed buffer and no value |
| Ema.Value | src/indicators/ema.rs:89-91 | on a reachable state the average is present exactly once the seed buffer is full |
| Ema.Update | src/indicators/ema.rs:71-91 | the seed buffer takes prices only until it holds `period`; the first value is the seed mean and appears exactly when the buffer fills; once present it stays present; reachable states stay reachable |
| Ema.Pull | src/indicators/ema.rs:77 | after the seed, an update shrinks the distance to the price by 1 − 2/(period+1), so the new average lies between the old one and the price |
| Ema.WarmUp | src/indicators/ema.rs:71-85 | over any series the buffer is its first `period` prices, the value is absent for exactly the first period − 1 prices, and after exactly `period` prices it is their mean |
| Ema.ConstantInput | src/indicators/ema.rs:76-85 | a constant input v makes the average exactly v from the seed on |
| Rsi.New | src/indicators/rsi.rs:12-21 | a new RSI is the state after no prices: reachable, count 0, no previous price, zero sums, no index |
| Rsi.GainLossSplit | src/indicators/rsi.rs:25-26 | gain and loss are non-negative, at most one is non-zero, and gain − loss is the price change |
| Rsi.Index | src/indicators/rsi.rs:50-56 | the index lies in [0, 100); with zero average loss it is 100 − 100/101; otherwise it is the share of gains 100·gain/(gain + loss) |
| Rsi.Advance | src/indicators/rsi.rs:24-43 | the first call only remembers the price; later calls add gains and losses to running sums, divide them by `period` when the period-th change arrives, and Wilder-smooth them after that; count never passes period |
| Rsi.Update | src/indicators/rsi.rs:23-59 | prev_price becomes the price; the result is absent exactly while count < period and is then the stored index in [0, 100) |
| Rsi.WarmUp | src/indicators/rsi.rs:23-58 | over any series, count is min(n − 1, period), the index appears exactly from price period + 1, the averages are the sums of the gains and losses up to then, and at price period + 1 they are their simple means |
| Rsi.CurrentRsi | src/indicators/rsi.rs:63-65 | on a reachable state the index is present exactly once `period` changes have been averaged, and is then the index of the averages, in [0, 100) |
| Obv.New | src/indicators/obv.rs:7-12 | a new OBV has no previous close, so its first bar sets the total to that bar's volume |
| Obv.Update | src/indicators/obv.rs:14-28 | the first bar sets OBV to its volume; later bars add the volume on an up-close, subtract it on a down-close and leave OBV unchanged on an equal close; prev_close is the last close |
| Obv.ObvIsSignedVolume | src/indicators/obv.rs:14-28 | over any bar series OBV equals the sum of the first volume and every later volume signed by the direction of its close |
| Ranges.TrueRange | src/indicators/adx.rs:75-84 | the true range is one of high − low, abs(high − prev close), abs(low − prev close) and is at least each of them, so it is ≥ 0 |
| Atr.New | src/indicators/atr.rs:11-19 | a new ATR is the state after no bars: reachable, empty window, no previous close, no value |
| Atr.BarRange | src/indicators/atr.rs:22-33 | the first bar's range is high − low; later ranges are ≥ 0 and ≥ high − low |
| Atr.Update | src/indicators/atr.rs:21-46 | the window becomes the last `period` true ranges, the running sum stays the window sum, the ATR appears once a full window rolls and is then the window mean |
| Atr.WarmUp | src/indicators/atr.rs:21-50 | over any bar series the window is the last `period` true ranges, the ATR is absent for the first `period` bars and from bar period + 1 is the simple mean of that window, and prev_close is the last close |
| Atr.GetAtr | src/indicators/atr.rs:48-50 | on a reachable state a present ATR is the mean of a full window of true ranges |
| BollingerBands.New | src/indicators/bollinger_bands.rs:12-21 | new bands are the state after no prices: reachable, empty window, no bands |
| BollingerBands.Variance | src/indicators/bollinger_bands.rs:34-39 | the population variance of a window is never negative |
| BollingerBands.Update | src/indicators/bollinger_bands.rs:23-48 | the window takes the price and evicts the oldest beyond `period`; with a short window the bands are unchanged; with a full window the middle is the window mean and upper − middle = middle − lower = 2·std with std² the variance, so lower ≤ middle ≤ upper |
| BollingerBands.WarmUp | src/indicators/bollinger_bands.rs:23-31 | over any series the window is the last `period` prices and the bands are absent exactly until `period` prices have been seen |
| BollingerBands.FullWindowBands | src/indicators/bollinger_bands.rs:33-47 | once `period` prices have been seen, the bands describe the last `period` of them and are ordered |
| BollingerBands.VarianceOfConstant | src/indicators/bollinger_bands.rs:34-39 | a constant window has variance 0 |
| BollingerBands.ConstantWindow | src/indicators/bollinger_bands.rs:33-47 | a constant window collapses all three bands onto its value |
| BollingerBands.GetBands | src/indicators/bollinger_bands.rs:50-52 | on a reachable state the three bands are present together exactly when the window is full; the middle is the window mean and the outer bands lie equally far either side of it |
| Macd.New | src/indicators/macd.rs:13-24 | a new MACD is reachable and reports neither a signal nor a MACD line |
| Macd.Update | src/indicators/macd.rs:26-37 | both price EMAs see the price; when both have a value, the MACD line is short − long and feeds the signal EMA; otherwise line and signal are unchanged |
| Macd.UpdateValid | src/indicators/macd.rs:26-37 | an update keeps a state reachable: the MACD line exists exactly when both price EMAs do and is their difference, and the signal exists only with the line |
| Macd.SignalAndMacd | src/indicators/macd.rs:39-41 | on a reachable state the MACD line is present exactly when both price EMAs are and is then short − long; a signal is present only with the line |
| Macd.Replay | src/indicators/macd.rs:26-37 | over any series the signal EMA has been fed exactly the sequence of MACD values and the MACD line is the latest of them |
| Macd.MacdValuesCount | src/indicators/macd.rs:26-37 | one MACD value is produced per price from price max(short, long) on |
| Macd.WarmUp | src/indicators/macd.rs:26-41 | `get_signal_n_macd`'s MACD line appears exactly at price max(short, long) and its signal exactly at price max(short, long) + signal − 1 |
| OldMacd.GetMacd | src/old/indicators/macd.rs:34-36 | the old MACD line is the line the newer `get_signal_n_macd` reports, short − long on a reachable state |
| OldMacd.GetSignal | src/old/indicators/macd.rs:38-40 | the old signal is the signal the newer `get_signal_n_macd` reports, present only with the MACD line |
| OldMacd.Histogram | src/old/indicators/macd.rs:42-47 | the histogram is present exactly with the MACD line; it is MACD − signal once the signal exists and the MACD line itself before |
| OldMacd.HistogramAfter | src/old/indicators/macd.rs:42-47 | the histogram is absent iff the MACD line is, equals the line while the signal warms up, and is line − signal after |
| OldMacd.HistogramWarmUp | src/old/indicators/macd.rs:21-47 | over any series the histogram is absent before price max(short, long), equals the MACD line until the signal appears and is MACD − signal from then on |
| Adx.DirectionalMovements | src/indicators/adx.rs:86-106 | at most one of +DM and −DM is non-zero, both are 0 when the moves are equal, and a non-zero one is its move and beats the other |
| Adx.NegativePlusDm | src/indicators/adx.rs:93-97 | an inside bar (high 9, low 8 after high 10, low 6) gives +DM = −1 |
| Adx.CalculateDi | src/indicators/adx.rs:108-112 | each indicator is its movement as a percentage of the true range, non-negative for non-negative inputs |
| Adx.CalculateDx | src/indicators/adx.rs:114-116 | DX is the spread of the indicators as a percentage of their sum, in [0, 100] for non-negative indicators |
| Adx.New | src/indicators/adx.rs:17-31 | a new ADX is the as-written state after no bars: zero sums, empty buffer, nothing smoothed, no previous bar |
| Adx.Update | src/indicators/adx.rs:33-73 | the first bar only records the previous bar; while the buffer is short the moves are added to the sums; with a full buffer the smoothed DX enters it, evicting the oldest; the buffer never exceeds `period` |
| Adx.GetAdx | src/indicators/adx.rs:118-124 | the ADX exists exactly when the buffer holds `period` values and is then their mean |
| Adx.NeverReady | src/indicators/adx.rs:33-124 | as written, over any bar series the sums are the totals of all moves, the buffer stays empty and `get_adx` never yields a value |
| AdxCorrected.DirectionalMovements | src/indicators/adx.rs:93-105 | corrected movements are non-negative and at most one is non-zero |
| AdxCorrected.ClampsAsWritten | src/indicators/adx.rs:93-105 | the corrected movements are the as-written ones with negatives clamped to 0 |
| AdxCorrected.Update | src/indicators/adx.rs:33-73 | counting accumulated moves rather than DX values: the first `period` moves accumulate, after which each move's DX enters the window; reachable states stay reachable and every DX lies in [0, 100] |
| AdxCorrected.GetAdx | src/indicators/adx.rs:118-124 | the corrected ADX is the as-written mean of a full buffer and lies in [0, 100] |
| AdxCorrected.WarmUp | src/indicators/adx.rs:33-124 | over any bar series min(n − 1, period) moves are accumulated, the buffer holds min(n − period − 1, period) DX values, and the ADX exists exactly from bar 2·period + 1 on |
| AdxCorrected.New | src/indicators/adx.rs:17-31 | a new corrected ADX is reachable, has accumulated nothing, has no previous bar and no ADX |
| OldRsi.New | src/old/indicators/rsi.rs:21-29 | a new old RSI is reachable, with no previous price and no index |
| OldRsi.CalculateGainLossAgrees | src/old/indicators/rsi.rs:134-148 | `calculate_gain_loss` splits a change into the same gain and loss that `update` computes inline |
| OldRsi.Averages | src/old/indicators/rsi.rs:44-56 | the first change seeds the averages with its gain and loss; later changes are Wilder-smoothed; both stay non-negative |
| OldRsi.OldIndex | src/old/indicators/rsi.rs:58-64 | the `f64` index 100 − 100/(1 + gain/loss): the current RSI's index for a positive loss, exactly 100 for a zero loss and positive gain (gain/0 is +inf), NaN exactly when both averages are 0; every number lies in [0, 100] and is the share of gains 100·gain/(gain + loss) |
| OldRsi.UnguardedIndex | src/old/indicators/rsi.rs:58-64 | with a positive average loss the unguarded formula 100 − 100/(1 + gain/loss) is the same index as the current RSI's |
| OldRsi.Update | src/old/indicators/rsi.rs:31-68 | every price is accepted; the first is only remembered; from the second price the averages advance and the index is the `f64` index of the new averages |
| OldRsi.RecoversAfterNaN | src/old/indicators/rsi.rs:44-64 | a NaN index does not stick: the averages stay finite, so the next fall gives a positive average loss and a numeric index |
| OldRsi.WarmUp | src/old/indicators/rsi.rs:31-68 | over every price series, the averages and index are absent up to the first price; from the second price the averages are the Wilder folds of the gains and losses seeded with the first change, and the index is their `f64` index |
| OldRsi.RiseThenFall | src/old/indicators/rsi.rs:31-68 | at period 14, prices 100, 101 give index 100 (zero average loss), and a further 99 gives averages 13/14 and 2/14, so index 260/3 |
| OldRsi.GetRsi | src/old/indicators/rsi.rs:150-152 | on a reachable state the index is present exactly when the averages are, and is then their `f64` index, a number in [0, 100] or NaN |
| OldAdx.New | src/old/indicators/adx.rs:15-27 | a new old ADX is reachable, has no previous bar and no ADX |
| OldAdx.BarMove | src/old/indicators/adx.rs:33-57 | the true range is ≥ 0 and ≥ high − low, both movements are ≥ 0 and at most one is positive |
| OldAdx.Dx | src/old/indicators/adx.rs:64-67 | the DX of non-negative smoothed values lies in [0, 100] |
| OldAdx.Update | src/old/indicators/adx.rs:29-82 | the first bar only records the previous bar; later bars Wilder-smooth true range and movements and set the ADX to the DX on the second bar and smooth it after, so once present it stays present, within [0, 100] |
| OldAdx.WarmUp | src/old/indicators/adx.rs:29-86 | over any bar series the running values are Wilder smoothings from 0 of the true ranges and movements, and the ADX is present exactly from the second bar |
| OldAdx.SecondBarSeedsAdx | src/old/indicators/adx.rs:70-76 | the second bar sets the ADX to that bar's DX |
| OldAdx.GetAdx | src/old/indicators/adx.rs:84-86 | on a reachable state a present ADX lies in [0, 100] and a previous bar has been seen |
| Stoch.New | src/indicators/stoch.rs:10-16 | a new oscillator is the state after no prices, with an empty, bounded history |
| Stoch.PercentK | src/indicators/stoch.rs:29-40 | %K is the position of the price within the window's range as a percentage, in [0, 100] |
| Stoch.PercentD | src/indicators/stoch.rs:42-47 | %D is %K while fewer than three values are recorded, else the mean of the three latest earlier %K, within [0, 100] for bounded inputs |
| Stoch.Update | src/indicators/stoch.rs:18-53 | the window takes the price, evicting the oldest when full; the result is absent exactly while the window is short; otherwise it is the (%K, %D) of the window and is appended to the history |
| Stoch.WarmUp | src/indicators/stoch.rs:18-52 | over any series the window is the last `period` prices and one (%K, %D) is recorded per price from the period-th on |
| Stoch.AlwaysBounded | src/indicators/stoch.rs:29-52 | over any series every recorded %K and %D lies in [0, 100] |
| StochRsi.New | src/indicators/stoch_rsi.rs:74-80 | a new stochastic RSI has an empty history, so with a period of at least 2 its first RSI value yields no percentage |
| StochRsi.Next | src/indicators/stoch_rsi.rs:82-96 | no RSI value means no change and no result; otherwise the value enters the history, evicting the oldest when full, and a full history yields the value's percentage within the history range, in [0, 100] |
| StochRsi.History | src/indicators/stoch_rsi.rs:84-87 | over any series the history is the last `period` RSI values actually produced |
| StochRsi.NextYields | src/indicators/stoch_rsi.rs:83-95 | a step yields a value exactly when it receives an RSI value and at least `period` have been produced in all |
| OrderBook.New | src/indicators/order_book.rs:10-15 | a new book has two empty sides, sorted with unique levels, whose strong level is 0 at every threshold |
| OrderBook.InsertSorted | src/indicators/order_book.rs:26-27 | inserting into a sorted side keeps it sorted and adds exactly the new entry |
| OrderBook.Sort | src/indicators/order_book.rs:26-27 | sorting yields an ascending permutation of the side |
| OrderBook.SortSorted | src/indicators/order_book.rs:26-27 | sorting a side that is already ascending leaves it as it is |
| OrderBook.RetainMembers | src/indicators/order_book.rs:20 | retaining keeps exactly the entries at other price levels |
| OrderBook.UpdateSide | src/indicators/order_book.rs:20-27 | an updated side is sorted and is a permutation of the entries at other levels plus the update exactly when its quantity is positive |
| OrderBook.ProcessSideUpdate | src/indicators/order_book.rs:17-40 | an update changes only the side it names |
| OrderBook.UpdateKeepsLevels | src/indicators/order_book.rs:20-27 | on a side with unique levels, an update keeps the levels unique and ascending, keeps every entry at another level untouched, and the updated level is present iff its quantity is positive |
| OrderBook.GetStrongLevel | src/indicators/order_book.rs:48-57 | the result is the price of the first entry whose cumulative quantity reaches the threshold, or 0 when none does |
| OrderBook.IdentifySupportAndResistance | src/indicators/order_book.rs:42-46 | support is the strong level of the bids and resistance that of the asks |
| TradingBot.New | src/trading_bot.rs:27-43 | a new bot has counted no bars, has no MACD streak, tracks Hold and uses a 9- and a 12-bar EMA |
| TradingBot.UpdateBot | src/trading_bot.rs:45-55 | every indicator sees the close (OBV also the volume), the price becomes the close, the bar counter advances up to 36 and the MACD tracking is untouched |
| TradingBot.UpdateMacdSignalAndCount | src/trading_bot.rs:88-101 | the tracked direction becomes the MACD direction (a tie reads as Sell); the streak grows when the line moves strictly in the tracked direction and otherwise restarts at 1; the tracked signal is never Hold afterwards |
| TradingBot.GetSignal | src/trading_bot.rs:57-86 | Hold with the bot unchanged during the warm-up or without both MACD lines; otherwise the streak advances, and the signal is Buy iff the streak is under 10, the short EMA is above the long one and the line is above its signal, Sell iff the mirror image, with a tie of the lines counting as down |
| TradingBot.RunCount | src/trading_bot.rs:45-55 | over any bar series the counter is min(n, 36), the price is the last close and the MACD tracking has not moved |
| TradingBot.WarmedUp | src/trading_bot.rs:45-55 | after 36 bars from a new bot, both MACD lines and both EMAs exist |
| TradingBot.EarlyHold | src/trading_bot.rs:58-60 | before 36 bars a signal request answers Hold and leaves the bot as it is |
| TradingBot.Streak | src/trading_bot.rs:88-101 | from an untracked bot, after any MACD observations, the count is the length of the maximal streak they end with and the tracked signal is its direction |
| TradingBot.SessionState | src/trading_bot.rs:45-101 | under the assumed per-bar driver the bot after each bar holds the indicators of all closes and the MACD tracking of all observations since bar 36 |
| TradingBot.SessionWarmUp | src/trading_bot.rs:58-60 | the assumed driver answers Hold for the first 35 bars |
| TradingBot.SessionStreak | src/trading_bot.rs:88-101 | after the warm-up, the assumed driver's MACD count is the length of the maximal streak of MACD directions since bar 36, and its tracked signal is that streak's direction |

## Left out

- Websocket and HTTP plumbing, request signing, environment loading, async tasks, channels and locks: I/O and concurrency.
- Serde wire types and the string-or-number parsers: thin wrappers over parsing.
- Commented-out code, the `main` demo of `src/indicators/stoch.rs` and the `Display` implementations: not live, or printing only.
- Floating-point behaviour: NaN, infinities, rounding and the NaN seeds of the true-range folds. A division by zero that would yield inf or NaN is a precondition instead, except in the old RSI, whose 100 and NaN results are modelled.
- A period of 0: every indicator requires `period >= 1` (a smoothing length ≥ 1 for the old ADX). With 0 the source divides by 0 or removes from an empty vector.
- `Stoch.Update`, `StochRsi.Next`: require a non-flat full window. With a flat one the source divides 0 by 0.
- `OldRsi.OldIndex`: of the `f64` special values only the two the old index can produce are modelled: +inf for gain/0, which makes the index 100, and NaN for 0/0.
- `Adx.Update`, `AdxCorrected.Update`, `OldAdx.Update`: require the smoothed true range and the DI sum of a smoothing step to be non-zero. The source gets inf or NaN there.
- `OneMinute.FromTrades`: an empty batch panics in the source (`first().unwrap()`), so the model requires a non-empty one.
- `OneMinute.LazyBarMatchesFromTrades`: stated for non-negative prices only. The lazy bar's high starts at 0, so an all-negative batch gives high 0 where `from_trades` gives the true maximum.
- `BollingerBands.Update`: `f64::sqrt` is a parameter required to return a non-negative root, not the library function.
- `StochRsi.Next`: `src/indicators/stoch_rsi.rs:90-91` calls `.iter().min()` and `.max()` on a `VecDeque<f64>`, which does not compile because `f64` is not `Ord`. The model reads them as the numeric minimum and maximum of the history.
- `StochRsi.Next`: the inner RSI type of `src/indicators/stoch_rsi.rs` is not part of this model. Each step receives the value it produced, if any.
- `OldMacd`: it reuses `Macd.Update`, because src/old/indicators/ema.rs is not part of this model. The old MACD update has the same shape over the current EMA.
- `Macd.Update`: `get_current_ema` is read as the EMA's current value; the current `Ema` only offers `get_ema`, which returns it.
- `TradingBot.GetSignal`: `src/trading_bot.rs` reads `prev_ema` and `get_signal`, which the current `Macd` and `Ema` do not have. They are read as the MACD line, the signal EMA's value and each EMA's current value.
- `TradingBot.UpdateMacdSignalAndCount`: `macd_count` is unbounded, so a `usize` overflow after 2^64 requests is not modelled.
- `TradingBot.Session`: no code in the source calls `update_bot` and `get_signal`. `src/main.rs` never builds a `TradingBot`, and `src/old/main.rs:153-161` calls `process_data`, which `src/trading_bot.rs` does not define. The model assumes a driver that calls `update_bot` then `get_signal` on each bar.
- `TradingBot`: the OBV is updated with every bar but never read by the signal rule, so no property of it is stated there.
- `OrderBook.Sort`: `sort_by` is stable; the model's insertion sort is too, but stability is not stated. Uniqueness of levels makes it irrelevant after an update.
- `OrderBook`: the event time of an entry is carried along and never interpreted. The `partial_cmp().unwrap()` panic on NaN levels is not modelled.
- `Candlestick.StartTime`: chrono's leap-second representation is not modelled. Times are whole nanoseconds on a uniform scale.

## Findings

| source | as written | input that shows it | evidently intended | confidence | as-written member | corrected member |
|---|---|---|---|---|---|---|
| src/indicators/adx.rs:41-66 | the smoothing branch, the only place a DX enters the buffer, runs only once the buffer already holds `period` values, so for period ≥ 1 it never runs and `get_adx` always returns None | any bar series with period 14 | accumulate the first `period` moves, counted separately, then smooth each move into a DX value, so the ADX exists from bar 2·period + 1; the corrected member keeps the as-written zero start of the smoothing (`prev_tr.unwrap_or(0.0)`), so the sums stay unused, where Wilder's method would seed the smoothing with them | high (not executed) | Adx.NeverReady | AdxCorrected.WarmUp |
| src/indicators/adx.rs:93-105 | +DM is the up move whenever it beats the down move, with no check that it is positive, so an inside bar gives a negative +DM (likewise −DM) | high 9, low 8 after high 10, low 6: up move −1, down move −2, +DM = −1 | count a movement only when the winning move is positive, as src/old/indicators/adx.rs:47-57 does | high (not executed) | Adx.NegativePlusDm | AdxCorrected.DirectionalMovements |
