# crypto_analysis: indicators, signals and backtest, modelled in Dafny

This project models the analysis pipeline of `crypto_analysis` as four Dafny modules:

- **`CryptoDataProcessor`** (`indicators.dfy`, module `Indicators`) turns a frame of OHLC bars into an indicator frame. It adds Bollinger Bands (20-row rolling mean ± 2 rolling sample standard deviations of the close) and a 14-row RSI. It echoes the oversold/overbought thresholds onto every row, then drops every row with an undefined band or RSI cell.
- **`SignalGenerator`** (`signals.dfy`, module `Signals`) walks the indicator rows once with a 0/1 position flag. It writes a buy price on rows where a long position opens, and a sell price on rows where it closes.
- **`Backtester`** (`backtesting.dfy`, module `Backtesting`) replays a signal frame from a flat position. It:
  - logs each entry and exit;
  - books each closed trade's profit into the capital;
  - records the capital under every row label;
  - then computes the report.
- **`calculate_metrics`** and its helpers (`metrics.dfy`, module `Metrics`) compute the report. It holds:
  - the trade counts and the total profit;
  - the Sharpe ratio, the annual return and the maximum drawdown.

`frames.dfy` (module `Frames`) holds the row types shared by all stages. Each stage's row wraps the previous stage's row:

1. `Bar`: the label, time, OHLC, vwap, volume and count.
2. `BandRow`: a `Bar` plus the bands.
3. `IndicatorRow`: a `BandRow` plus the RSI and the thresholds.
4. `SignalRow`: an `IndicatorRow` plus the buy and sell cells.

A frame is a sequence of rows in index order. A pandas NaN cell is `None` of an `Option`. A Python comparison with NaN is false, and so is the model's `Less` on a `None`.

The code's form is kept:
- The indicator computations are pure functions.
- `SignalGenerator` and `Backtester` are classes whose methods update their fields.
- `GenerateSignals` and `RunBacktest` are loops carrying invariants. Each is proved against a specification function (`Signals.Signals`, `Backtesting.Replay`).
- Lemmas about those functions state what the code promises.

Two behaviours of the code are worth noting:
- **RSI when gain and loss are both 0.** Over a window with no price change, `gain / loss` is `0/0`, so the RSI is NaN and the row is dropped. It is not 100. `Indicators.RsiFlat` states it. A window with rises and no falls does give exactly 100 (`Indicators.RsiOnlyRises`).
- **No validation of its own.** The code never checks its inputs.
  - Rows with undefined indicators are dropped by `dropna`.
  - `generate_signals` compares NaN cells as false.
  - An empty portfolio series makes `calculate_metrics` fail through `iloc[-1]`. `Metrics.CalculateMetrics` models that as `Err(EmptyPortfolio)`, returned exactly when no value was recorded.

## Model

| member | source | states |
|---|---|---|
| Indicators.RollingMean | crypto_analysis/crypto_data_processor.py:42 | the rolling mean is defined exactly when the window is complete, and is then the mean of the last `w` closes (times `w` it is their sum) |
| Indicators.RollingStdDev | crypto_analysis/crypto_data_processor.py:43 | the rolling sample standard deviation is defined exactly when the window is complete and holds at least two rows; it is then the standard deviation of the last `w` closes, never negative |
| Indicators.CalculateBollingerBands | crypto_analysis/crypto_data_processor.py:27-49 | one row per bar, its bar unchanged; `moving_avg` and `moving_std_dev` are the rolling mean and rolling std dev of the closes; the bands are defined exactly where both are, and are `moving_avg ± num_std_dev · moving_std_dev` |
| Indicators.BandsAt | crypto_analysis/crypto_data_processor.py:42-47 | one band row: the bar unchanged, the rolling mean and rolling std dev of the closes, and the bands `avg ± num_std_dev · std`, defined exactly where both are |
| Indicators.BandsWindowRule | crypto_analysis/crypto_data_processor.py:42-47 | row `i`'s moving average is defined iff `0 < window <= i + 1`, and its std dev and both bands iff `2 <= window <= i + 1` |
| Indicators.MovingAvgWithinWindow | crypto_analysis/crypto_data_processor.py:42 | the moving average lies between the lowest and highest close of its window |
| Indicators.BandOrdering | crypto_analysis/crypto_data_processor.py:46-47 | where the upper band is defined, lower ≤ average ≤ upper, the two bands are symmetric about the average, and (multiplier > 0) they meet iff the std dev is 0 |
| Indicators.Gains | crypto_analysis/crypto_data_processor.py:64-65 | the gain of row `i` is the rise from the previous close, 0 for a fall, no change or the first row |
| Indicators.Losses | crypto_analysis/crypto_data_processor.py:64-66 | the loss of row `i` is the size of the fall from the previous close, 0 for a rise, no change or the first row |
| Indicators.GainsLossesSplit | crypto_analysis/crypto_data_processor.py:64-66 | at most one of a row's gain and loss is non-zero, both are 0 on the first row, and gain − loss is the change of the close |
| Indicators.Rsi | crypto_analysis/crypto_data_processor.py:68-69 | the RSI is undefined when either average is; with a zero loss it is undefined exactly when the gain is 0 as well, and otherwise exactly 100 |
| Indicators.RsiRange | crypto_analysis/crypto_data_processor.py:68-69 | for non-negative averages the RSI is defined iff gain + loss > 0 and is then `100 * gain / (gain + loss)`: in [0, 100) with losses, exactly 100 with gains only |
| Indicators.CalculateRsi | crypto_analysis/crypto_data_processor.py:51-73 | one row per input row, its bands unchanged, every row carrying the processor's oversold and overbought thresholds |
| Indicators.RsiColumn | crypto_analysis/crypto_data_processor.py:64-69 | the gain and loss averages are defined from row `period - 1` on and are non-negative; the RSI is defined iff they are and their sum is positive, and then lies in [0, 100] |
| Indicators.RsiOnlyRises | crypto_analysis/crypto_data_processor.py:64-69 | a window with at least one rise and no fall gives RSI exactly 100 |
| Indicators.RsiFlat | crypto_analysis/crypto_data_processor.py:64-69 | a window with no price change gives an undefined RSI (0/0) |
| Indicators.DropIncomplete | crypto_analysis/crypto_data_processor.py:24 | a row survives `dropna` iff it has all four band cells and an RSI |
| Indicators.DropIncompleteKeepsOrder | crypto_analysis/crypto_data_processor.py:24 | dropping rows keeps the row labels strictly ascending |
| Indicators.Augmented | crypto_analysis/crypto_data_processor.py:21-23 | bands then RSI keep one row per bar, with its bar and both thresholds |
| Indicators.GetProcessedData | crypto_analysis/crypto_data_processor.py:20-25 | a row is in the processed frame iff it is a row of the augmented frame with defined bands and RSI; every kept row has the processor's thresholds; the frame is no longer than the input |
| Indicators.ProcessedDataRows | crypto_analysis/crypto_data_processor.py:20-25 | on a frame labelled 0, 1, 2, …: the first 19 rows are always dropped, a later row is kept iff its RSI is defined, and labels stay ascending |
| Signals.Next | crypto_analysis/signal_generator.py:21-33 | from flat the position opens iff the buy condition holds; from long it closes iff the sell condition holds |
| Signals.Emit | crypto_analysis/signal_generator.py:21-36 | a row's output keeps the row, sets at most one cell, to the close, and sets one exactly when the position changes |
| Signals.PositionAfter | crypto_analysis/signal_generator.py:17-33 | starting flat, a position can be open only if some row met the buy condition |
| Signals.Signals | crypto_analysis/signal_generator.py:16-41 | the signal frame has one row per input row, each carrying its input row |
| Signals.SignalAt | crypto_analysis/signal_generator.py:21-36 | row `i`'s cells are decided by the position flag the first `i` rows leave |
| Signals.SignalIff | crypto_analysis/signal_generator.py:21-36 | a row gets a buy price iff the position before it is flat and close < lower band and rsi < over_sold; the price is the close and the position becomes long; symmetrically for sells; otherwise the position is unchanged; never both |
| Signals.SignalsAlternate | crypto_analysis/signal_generator.py:17-36 | the non-empty signals alternate buy, sell, buy, … starting with a buy, and #buys = #sells + the final position flag |
| Signals.GenerateSignalsIdempotent | crypto_analysis/signal_generator.py:38-41 | regenerating signals on a signal frame overwrites the columns with the same values |
| Signals.SignalGenerator.constructor | crypto_analysis/signal_generator.py:7-8 | the generator holds the given frame, without signal columns |
| Signals.SignalGenerator.GenerateSignals | crypto_analysis/signal_generator.py:10-41 | the loop writes exactly the `Signals` of the held frame's indicator rows into the frame and returns it |
| Backtesting.IsBuySignal | crypto_analysis/backtester.py:38-40 | a buy signal needs a buy price, and never fires while a position is open |
| Backtesting.IsSellSignal | crypto_analysis/backtester.py:42-44 | a sell signal needs a sell price, and never fires while flat |
| Backtesting.SetAt | crypto_analysis/backtester.py:62 | the series grows by at most one entry, and the label's first entry holds the new value |
| Backtesting.Act | crypto_analysis/backtester.py:27-31 | entering or exiting leaves the portfolio series alone, changes the capital only on an exit (by sell − entry), and adds at most one entry to each log |
| Backtesting.Step | crypto_analysis/backtester.py:25-34 | one iteration is `Act` followed by recording the capital after it under the row's label |
| Backtesting.Replay | crypto_analysis/backtester.py:25-34 | each row adds at most one position entry, one trade and one portfolio entry, and no log gets shorter |
| Backtesting.ReplayKeepsLogs | crypto_analysis/backtester.py:25-34 | replaying rows keeps the earlier position and trade logs as prefixes, and every earlier portfolio entry stays at its place under its label |
| Backtesting.Find | crypto_analysis/backtester.py:62 | the position of the first portfolio entry under a label, or the length when none |
| Backtesting.SetAtRecords | crypto_analysis/backtester.py:62 | `.at[index] = value` leaves the value under the label, appends one entry iff the label is new, and leaves every other entry in place |
| Backtesting.StepAppends | crypto_analysis/backtester.py:60-62 | a row with a new label appends one portfolio entry holding the capital after the row |
| Backtesting.StepBooksProfit | crypto_analysis/backtester.py:27-31 | one row changes the capital only on an exit, by sell price − entry price, and keeps capital = initial + Σ profits |
| Backtesting.CapitalIsInitialPlusProfits | crypto_analysis/backtester.py:20-36 | after a fresh run the capital is the initial capital plus the sum of the trade profits |
| Backtesting.ActKeepsTradeLog | crypto_analysis/backtester.py:46-58 | entering and exiting keep the position log alternating buy/sell, paired with the trade log (entry price, exit, label, profit = exit − entry) |
| Backtesting.FreshRunTradeLog | crypto_analysis/backtester.py:20-36 | on a fresh run the position and trade logs always pair up: \|positions\| = 2·\|trades\| + open-position flag |
| Backtesting.PortfolioTracksCapital | crypto_analysis/backtester.py:25-34 | with unique ascending row labels the portfolio series has one entry per row: row `i`'s label and the capital after row `i` |
| Backtesting.AfterIsReplay | crypto_analysis/backtester.py:25-34 | the state after the first `i` rows, taken one row at a time, is `Replay` of those rows from a fresh backtester |
| Backtesting.PortfolioChangesOnlyOnExits | crypto_analysis/backtester.py:25-34 | each recorded value is the previous one (the initial capital for the first row) plus the profit of a trade closed on that row |
| Backtesting.StepFollowsEmit | crypto_analysis/backtester.py:38-44 | on a generated signal row the backtester's flag moves as the generator's and adds one log entry per signal cell |
| Backtesting.BacktestFollowsSignals | crypto_analysis/backtester.py:25-31 | backtesting generated signals: the final flag is the generator's, #trades = #sell signals, #positions = #buy + #sell signals |
| Backtesting.BacktestLogIsSignalEvents | crypto_analysis/backtester.py:25-31 | the position log of a backtest of generated signals is exactly the buy/sell event sequence of the signal frame |
| Backtesting.LedgerReport | crypto_analysis/backtester.py:64-97 | for a state whose capital matches its trades and whose series runs from the initial to the current capital: the report fails iff the series is empty, its profit is Σ profits, wins + losses ≤ trades, and with a positive stake its drawdown is defined and at most the peak-relative drawdown |
| Backtesting.FreshRunSeriesEnds | crypto_analysis/backtester.py:20-36 | a fresh run's series is empty iff the frame is, starts at the initial capital and ends at the final capital |
| Backtesting.FirstRowKeepsCapital | crypto_analysis/backtester.py:27-31 | no trade closes on the first row of a fresh run |
| Backtesting.Backtester.constructor | crypto_analysis/backtester.py:5-18 | a new backtester has capital = initial capital and empty position, trade and portfolio logs |
| Backtesting.Backtester.EnterPosition | crypto_analysis/backtester.py:46-50 | logs ('buy', price, label) and returns flag 1 with the buy price as entry price |
| Backtesting.Backtester.ExitPosition | crypto_analysis/backtester.py:52-58 | adds sell − entry to the capital and logs the trade (entry, sell, profit, label) and ('sell', price, label) |
| Backtesting.Backtester.UpdatePortfolioValue | crypto_analysis/backtester.py:60-62 | records the current capital under the label (`SetAt`) |
| Backtesting.Backtester.ProcessRow | crypto_analysis/backtester.py:26-34 | one loop iteration moves the object and the local flag and entry price by exactly one `Step` |
| Backtesting.Backtester.RunBacktest | crypto_analysis/backtester.py:20-36 | the loop leaves the object in the state `Replay` gives from its state at the call, starting flat, and returns the metrics of that state |
| Metrics.CountWinning | crypto_analysis/backtester.py:99-101 | at most the number of trades; 0 iff no profit is positive; all iff every profit is positive |
| Metrics.CountLosing | crypto_analysis/backtester.py:103-105 | at most the number of trades; 0 iff no profit is negative; all iff every profit is negative |
| Metrics.WinsAndLossesPartition | crypto_analysis/backtester.py:99-105 | wins + losses ≤ trades, with equality iff no trade broke even |
| Metrics.ProfitSign | crypto_analysis/backtester.py:99-105 | with no losing trade the total profit is ≥ 0, with no winning trade ≤ 0 |
| Metrics.AnnualReturn | crypto_analysis/backtester.py:90-92 | undefined iff the initial capital is 0; otherwise initial · (1 + r/100) = final value |
| Metrics.AnnualReturnSign | crypto_analysis/backtester.py:90-92 | on a positive stake the return is positive iff the portfolio grew, 0 iff it did not move |
| Metrics.Peak | crypto_analysis/backtester.py:96 | the running maximum is at least every value so far |
| Metrics.PeakAttained | crypto_analysis/backtester.py:96 | the running maximum is one of the values so far |
| Metrics.PeakMonotone | crypto_analysis/backtester.py:96 | the running maximum never decreases |
| Metrics.Drawdown | crypto_analysis/backtester.py:96 | a drawdown is never negative |
| Metrics.DeepestDrawdown | crypto_analysis/backtester.py:97 | `drawdown.max()` is a drawdown of the series and at least every drawdown |
| Metrics.MaxDrawdown | crypto_analysis/backtester.py:94-97 | as written: undefined iff the last running maximum is 0, else the deepest drawdown divided by the LAST running maximum, in percent |
| Metrics.MaxDrawdownBounds | crypto_analysis/backtester.py:94-97 | for a non-negative series with a positive peak the as-written figure is defined and in [0, 100] |
| Metrics.PeakRelativeDrawdown | crypto_analysis/backtester.py:94-97 | corrected: the largest fall of any value below its own running peak, in percent of that peak |
| Metrics.PeakRelativeDrawdownBounds | crypto_analysis/backtester.py:94-97 | for a non-negative series starting positive the corrected figure is in [0, 100] |
| Metrics.MaxDrawdownUnderstates | crypto_analysis/backtester.py:94-97 | for a series starting positive the as-written figure is defined and never exceeds the corrected one |
| Metrics.DrawdownCounterexample | crypto_analysis/backtester.py:96-97 | on [100, 50, 200] the as-written figure is 25 while the fall from 100 to 50 is 50 |
| Metrics.PeriodReturns | crypto_analysis/backtester.py:66 | `pct_change().dropna()` has at most one return per consecutive pair, and none exactly when the series has fewer than two values or is all zero |
| Metrics.SharpeRatio | crypto_analysis/backtester.py:86-88 | 0 when there is no period return, otherwise the estimator applied to the period returns |
| Metrics.CalculateMetrics | crypto_analysis/backtester.py:64-84 | fails iff no value was recorded; otherwise reports the capitals, profit = final − initial, the trade counts with wins + losses ≤ total, and the annual return, drawdown and Sharpe ratio of the recorded series |

## Left out

- The market-data fetch (`fetch_data` and the Kraken API handler), the trading engine, the plotter, the Streamlit app and the build scripts are not part of this model. `GetProcessedData` takes the fetched bars as a parameter.
- Floating point is modelled as exact real arithmetic. NaN is `None`. Rounding, overflow to infinity and float equality are not modelled, except where an infinity or NaN decides a branch (RSI with zero loss, a zero initial capital or peak, a return from a zero value).
- Indicators.RollingStdDev: the square root in the sample standard deviation is not modelled. It is an abstract non-negative function of the window (`StdDev`). The contract states where it is defined and that it is that function of the trailing `w` closes; no property of the square root itself is stated.
- Metrics.SharpeRatio: the estimator `mean / std * sqrt(252)` is a parameter (`SharpeEstimator`). Only the "no returns gives 0" guard and the exact returns fed to it are modelled.
- Metrics.PeriodReturns: an infinite return (a zero value followed by a non-zero one) is `None`. Its sign is not kept.
- Row labels are integers, the provider's default range index. Duplicate labels in the portfolio series are modelled by overwriting (`SetAt`). The portfolio lemmas assume strictly ascending labels, which the processed frame guarantees (`Indicators.ProcessedDataRows`).
- Signals.Signals: assumes unique row labels. It reads each row by position and never fails. `generate_signals` reads cells by label (`df.loc[i, 'close']`, `df['close'][i]`). With a repeated label those reads return a series, and the `and` in the condition raises `ValueError`. That error path is not modelled. The processed frame never repeats a label.
- Pandas aliasing is not modelled. `generate_signals` writes its columns into the frame it was given, which the caller may share. Here the frame is a value held by the generator.
- The oversold and overbought thresholds are reals. Their range and order are not checked, as in the code.
- `get_portfolio_values` is a plain getter (the `portfolioValues` field).

## Findings

| source | as written | input that shows it | evidently intended | confidence | as-written member | corrected member |
|---|---|---|---|---|---|---|
| crypto_analysis/backtester.py:96-97 | the deepest drawdown of the whole series is divided by the running maximum at the LAST row | portfolio values [100, 50, 200]: the deepest drawdown 50 is divided by the final peak 200, reporting 25% | the fall from 100 to 50 is 50% of the peak it fell from; each drawdown should be divided by the running maximum at its own row | not executed | Metrics.MaxDrawdown (Metrics.DrawdownCounterexample) | Metrics.PeakRelativeDrawdown (Metrics.PeakRelativeDrawdownBounds, Metrics.MaxDrawdownUnderstates) |

`Metrics.CalculateMetrics` reports the figure as written, since that is what the code returns. `Backtesting.LedgerReport` bounds the reported figure by the corrected one.
