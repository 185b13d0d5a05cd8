# AlgoTrading_ML core, modelled in Dafny

This project models the signal-and-backtest pipeline of AlgoTrading_ML. The pipeline has three
steps over a chronological sequence of daily price bars:

- **Signal generator** (`core/strategy.py`). It computes a 14-row RSI with a strict warm-up and
  20- and 50-row moving averages of the close that are defined from the first row on. From them
  it flags each row as a buy (`RSI < 30` and `MA_20 > MA_50`) or a sell (`RSI > 70`).
- **Backtest engine** (`core/backtest.py`). It walks the flagged rows once and holds at most one
  long position. It opens on a buy signal and closes on a later sell signal or on the final row.
  It logs each closed trade with its PnL and return, then summarizes the log.
- **Feature and label engineering** for the next-day direction classifier (`core/ml_model.py`).
  - RSI with a one-move warm-up, strict 5- and 20-row moving averages, MACD and its signal line.
  - The label: 1 when the next close is higher, else 0.
  - The `dropna` step that keeps only rows whose features are all present.

Prices are exact `real`s. A floating-point column is a sequence of `Series.Cell`: a number or
`NaN`. `NaN` also stands for the non-finite results of a float division by zero. Pandas
behaviour is modelled explicitly:

- rolling means skip NaN and honour `min_periods`;
- `ewm(adjust=False)` is seeded with the first value;
- `shift(-1)` puts NaN on the last row;
- a comparison with NaN is false.

Files:

- `series.dfy`: column operations (rolling mean, EWM, shift, comparisons) and their bounds and
  no-lookahead lemmas.
- `bars.dfy`: the fetched bars.
- `indicators.dfy`: the RSI and moving-average formulas, shared by both call sites and
  parameterised by window and `min_periods`.
- `strategy.dfy`, `backtest.dfy`, `ml_model.dfy`: one module per core file.

The form follows the source:

- `run_backtest` is a method with a loop. It is proved against a declarative description of the
  trade log (`Backtest.IsTradeLog`), which is shown to admit exactly one log.
- `calculate_moving_averages` writes two columns into the frame it is given. Like the Python
  function, `Strategy.CalculateMovingAverages` is a module-level method that takes a
  `Strategy.SignalFrame` and modifies those two fields of it.
- `generate_labels` writes `Target` into its frame, and `dropna(inplace=True)` filters the frame
  in place. `MlModel.GenerateLabels` and `MlModel.DropNa` are module-level methods that take an
  `MlModel.FeatureFrame` and modify it.
- The vectorised expressions are functions.

Inputs that the source copies before changing (`df.copy()`) are sequences, so they cannot be
changed.

Two behaviours of the code are easy to misread; the model follows the code:

- The `run_backtest` docstring says a position is sold "at the end". The exit branch, however,
  is an `elif` of the entry branch, so a position opened on the final row is never closed or
  logged. `Backtest.FinalRowEntryUnlogged` and `Backtest.OpenAtEnd` state this.
- The final row's label compares against the NaN that `shift(-1)` produces. It therefore gets
  `Target = 0`, not NaN, and `dropna` keeps it whenever its features are present.
  `MlModel.TrainingRowsBounds` states this.

## Model

| member | source | states |
|---|---|---|
| Backtest.RunBacktest | core/backtest.py:4-72 | The trade log satisfies `IsTradeLog`: each trade enters on the first buy row after the previous exit and exits on the first later sell row or the final row; no buy row lies between the last exit and the final row. The log is chronological and the stats are `Summarize` of the log. |
| Backtest.TradeLogUnique | core/backtest.py:21-42 | Two logs that both satisfy `IsTradeLog` for the same rows are equal, so the rules fix the log. |
| Backtest.LogIsChronological | core/backtest.py:21-42 | Every trade has `Buy_Index < Sell_Index`, and each trade's `Sell_Index` is below the next trade's `Buy_Index`. |
| Backtest.BuyWhileLongIgnored | core/backtest.py:24-32 | No trade's entry row lies between another trade's entry and exit rows, so a buy signal while a position is open (or on its exit row) opens nothing. |
| Backtest.EntryUnique | core/backtest.py:24-30 | Once flat from a given row, the entry row (the first buy signal) is unique. |
| Backtest.ExitUnique | core/backtest.py:32-36 | The exit row of a position (the first later sell row, or the final row) is unique. |
| Backtest.SameTrade | core/backtest.py:24-41 | Two valid logs that are flat again from the same row record the same next trade. |
| Backtest.LogsAgreeUpTo | core/backtest.py:21-42 | Two valid logs agree on every trade up to any index both contain. |
| Backtest.NextEntryBeforeLast | core/backtest.py:24-32 | Every logged trade enters, on a buy row, strictly before the final row. |
| Backtest.NoLongerLog | core/backtest.py:21-42 | No valid log is longer than another valid log for the same rows. |
| Backtest.OpenAtEnd | core/backtest.py:24-32 | A position still open after the loop was opened on the final row, and no buy row lies between the last exit and the final row. |
| Backtest.FinalRowEntryUnlogged | core/backtest.py:10-32 | A position opened on the final row never reaches the log: every logged trade opens before the final row (from `NextEntryBeforeLast`), and a log is valid for the rows iff it is valid for the same rows with the final row's buy signal cleared. |
| Backtest.Exit | core/backtest.py:34-40 | Closing a position completes its trade record. The trade wins iff the exit close is above the entry price. Its return is defined iff the entry price is nonzero, and with a positive entry price it is positive exactly when the PnL is positive and negative exactly when the PnL is negative. The row-level tie to the frame is `Records`, kept by `RunBacktest`. |
| Backtest.IsTradeLog | core/backtest.py:21-42 | Defines the valid log without the loop: each trade enters on the first buy row after the previous exit and exits on the first later sell row or the final row, with that row's data, and no buy row lies between the last exit and the final row. `RunBacktest` establishes it and `TradeLogUnique` shows it admits one log. |
| Backtest.TotalPnl | core/backtest.py:58 | The PnL sum is at most 0 when no trade has a positive PnL, and positive when every trade of a non-empty log does. `PnlIsPriceDifference` relates it to the entry and exit prices. |
| Backtest.Percent | core/backtest.py:38-40 | A percentage `part / whole × 100` (`Return_%`, and `Cumulative Return` on line 62) is defined exactly when `whole` is nonzero, and then `result × whole = part × 100`. |
| Backtest.Winners | core/backtest.py:59 | The number of winning trades is at most the log length. It is 0 iff no trade has a positive PnL, and equals the length iff every trade does. |
| Backtest.Summarize | core/backtest.py:44-70 | An empty log gives 0 trades, 0 winners, 0.0 ratio, 0.0 PnL and 0.0 return, without a division. Otherwise the trade count is the log length, the winners are the trades with positive PnL, the total PnL is the PnL sum, and the win ratio lies in [0, 100]. |
| Backtest.Tally | core/backtest.py:58-70 | For a non-empty log: the win ratio lies in [0, 100] and ratio × count = winners × 100. The cumulative return is defined iff the capital is nonzero, and then return × capital = PnL × 100. |
| Backtest.WinRatio | core/backtest.py:61 | With at least one trade, `win_trades / total_trades × 100` lies in [0, 100] and times the trade count equals winners × 100. |
| Backtest.PnlIsPriceDifference | core/backtest.py:37-58 | For a valid log, the total PnL equals the sum of the exit prices minus the sum of the entry prices. |
| Backtest.PnlSplit | core/backtest.py:37-58 | Same decomposition, for any log whose trades record their rows' closes. |
| Indicators.Move | core/strategy.py:8-10 | On row 0 gain and loss are NaN. From row 1 on both are ≥ 0, at least one is 0, and gain − loss = close[t] − close[t−1]. |
| Indicators.Gains | core/strategy.py:8-9 | The `gain` column has one cell per row and is NaN on row 0. Its per-row values are stated in `GainsAndLosses`. |
| Indicators.Losses | core/strategy.py:8-10 | The `loss` column has one cell per row and is NaN on row 0. Its per-row values are stated in `GainsAndLosses`. |
| Indicators.GainsAndLosses | core/strategy.py:8-10 | From row 1 on, gain and loss are ≥ 0. The gain is the rise into the row, or 0 if the close fell; the loss is the fall, or 0 if the close rose. |
| Indicators.RsiFromAverages | core/strategy.py:15-16 | RSI is defined iff both averages are defined and not both zero. It lies in [0, 100], equals the gain's share of the total movement × 100, and is exactly 100 when the average loss is 0. |
| Indicators.RatioForm | core/strategy.py:15-16 | `100 − 100/(1 + g/l)` equals `100·g/(g + l)` and lies in [0, 100]. |
| Indicators.MoveCounts | core/strategy.py:8-13 | A window holds as many non-NaN gains as losses: its row count, minus one if it contains row 0. |
| Indicators.MoveSums | core/strategy.py:8-13 | The gain and loss sums of a window are ≥ 0, and their total is positive iff the close changed at some row of the window. |
| Indicators.Rsi | core/strategy.py:8-16 | RSI at row t from the rolling gain and loss means, for a given window and `min_periods`. A defined value lies in [0, 100]. When it is defined is stated in `RsiDefined`. |
| Indicators.AveragesNonNegative | core/strategy.py:12-13 | The rolling gain and loss averages are ≥ 0 where defined. |
| Indicators.RsiDefined | core/strategy.py:8-16 | RSI with window w and `min_periods` m is defined iff the window holds at least m moves and the close moved in it. A defined value lies in [0, 100]. |
| Indicators.NoFallNoLoss | core/strategy.py:8-13 | The loss sum of a window in which the close never fell is 0. |
| Indicators.RsiHundred | core/strategy.py:8-16 | When the close fell at no row of the window, a defined RSI is exactly 100. |
| Indicators.RsiAgree | core/strategy.py:8-16 | RSI at row t is the same for any two close series that agree up to row t. |
| Indicators.MovingAverageMean | core/strategy.py:23-24 | A rolling mean of closes is defined iff its window has at least `min_periods` rows. It then equals the mean of rows max(0, i−w+1)..i. |
| Indicators.MovingAverageWithin | core/strategy.py:23-24 | A rolling mean of closes lies between any bounds of the closes in its window. |
| Indicators.MovingAverageAgree | core/strategy.py:23-24 | A rolling mean at row i is the same for two series that agree up to row i. |
| Indicators.ShortWindowsAgree | core/strategy.py:23-24 | While row i is inside both windows, the short and long rolling means are equal. |
| Series.CountIn | core/strategy.py:12-13 | A window's count of non-NaN cells is at most its size, and equals it iff every cell is a number. |
| Series.RollingMean | core/strategy.py:12-24 | `rolling(window, min_periods).mean()` at row i. A defined value needs at least `min_periods` rows up to i. With no NaN in the window, it is defined iff row i has at least `min_periods` rows up to it. Bounds and no lookahead are in `RollingMeanWithin` and `RollingMeanAgree`. |
| Series.SumInWithin | core/strategy.py:12-13 | The NaN-skipping sum of a window lies between count × lower bound and count × upper bound. |
| Series.MeanWithin | core/strategy.py:12-13 | A mean of values in [a, b] lies in [a, b]. |
| Series.RollingMeanWithin | core/strategy.py:12-24 | A rolling mean lies within any bounds of its window's non-NaN cells. |
| Series.SumInAgree | core/strategy.py:12-13 | Window counts and sums depend only on the window's cells. |
| Series.RollingMeanAgree | core/strategy.py:12-24 | A rolling mean at row i reads no row after i. |
| Series.ShiftUp | core/ml_model.py:41 | `shift(-1)`: every row but the last holds the next row's value, and the last row holds NaN. |
| Series.Alpha | core/ml_model.py:28-31 | The smoothing factor `2/(span+1)` lies in (0, 1]. |
| Series.Ewm | core/ml_model.py:28-31 | `ewm(span, adjust=False).mean()` at row t, seeded with the first value. Its properties are in `EwmWithin`, `EwmOfConstant` and `EwmAgree`. |
| Series.EwmColumn | core/ml_model.py:28-31 | The EMA column has one value per row, and its first value is the first input. |
| Series.EwmWithin | core/ml_model.py:28-31 | An `adjust=False` EMA stays within any bounds of the values seen so far. |
| Series.EwmOfConstant | core/ml_model.py:28-31 | The EMA of a constant series is that constant. |
| Series.EwmAgree | core/ml_model.py:28-31 | The EMA at row t reads no value after row t. |
| Strategy.StrictRsi | core/strategy.py:6-18 | With window = `min_periods` = period, RSI is NaN on rows 0..period−1. From row `period` on it is defined iff the close changed in the last `period` rows, and it lies in [0, 100]. |
| Strategy.CalculateRsi | core/strategy.py:6-18 | The column has one cell per row. It is NaN on rows 0..period−1, and from row `period` on defined iff the close changed at some row of the last `period`. Every defined value lies in [0, 100]. |
| Strategy.MovingAverageMeans | core/strategy.py:23-24 | With `min_periods=1`, every row's moving average is defined and is the mean of the closes of rows max(0, i−w+1)..i. |
| Strategy.LenientAverages | core/strategy.py:23-24 | The `MA_20`/`MA_50` column is defined on every row and equals the mean of the closes of rows max(0, i−w+1)..i. |
| Strategy.LenientAverageOfConstant | core/strategy.py:23-24 | The moving average of a run of equal closes c is c. |
| Strategy.LenientAverageWithin | core/strategy.py:23-24 | The moving average lies between the window's smallest and largest close. |
| Strategy.CalculateMovingAverages | core/strategy.py:21-25 | Writes the two moving-average columns of the frame it is given, as `LenientAverages` of its closes, and changes no other field. |
| Strategy.BuySignal | core/strategy.py:36 | `(RSI < 30) & (MA_20 > MA_50)` on one row, false when any operand is NaN. `SignalRows` states what it implies. |
| Strategy.SellSignal | core/strategy.py:37 | `RSI > 70` on one row, false on NaN. `SignalRows` states what it implies. |
| Strategy.BuyColumn | core/strategy.py:36 | The `Buy_Signal` column, row by row `BuySignal`. `SignalColumns` and `GenerateSignals` tie it to `SignalRows`. |
| Strategy.SellColumn | core/strategy.py:37 | The `Sell_Signal` column, row by row `SellSignal`. `SignalColumns` and `GenerateSignals` tie it to `SignalRows`. |
| Strategy.SignalColumns | core/strategy.py:32-37 | The `Buy_Signal` and `Sell_Signal` columns built from the RSI and moving-average columns have one entry per bar, and together with the dates and closes they are exactly `SignalRows`. |
| Strategy.SignalRows | core/strategy.py:28-39 | No row is both a buy and a sell. A signal implies a defined RSI, so the first 14 rows never signal. No row before row 20 buys, because both moving averages are then equal. Dates and closes are copied. |
| Strategy.SignalsNoLookahead | core/strategy.py:8-37 | The buy and sell flags of row i are the same for any two bar series whose closes agree up to row i. |
| Strategy.NoTradeBeforeRow20 | core/strategy.py:23-36 | Run on the signal rows by the backtest engine (core/backtest.py lines 24-32), every logged trade opens at row 20 or later and closes after row 20. |
| Strategy.SignalFrame.Copy | core/strategy.py:30 | `df.copy()`: the new frame holds the bars' dates and closes, and no derived column yet. |
| Strategy.GenerateSignals | core/strategy.py:28-39 | A fresh frame whose RSI and moving-average columns are `CalculateRsi` and `LenientAverages` of the closes, and whose rows are exactly `SignalRows(bars)`. |
| MlModel.LenientRsi | core/ml_model.py:14-21 | With `rolling(14, min_periods=1)`, RSI is defined iff t ≥ 1 and the close changed in the last 14 rows, and it lies in [0, 100]. |
| MlModel.FeatureRsi | core/ml_model.py:14-21 | The `RSI` feature is NaN on row 0. From row 1 on it is defined iff the close changed at some row of the last 14, and it lies in [0, 100]. |
| MlModel.StrictMeans | core/ml_model.py:24-25 | A strict rolling mean is defined iff at least `window` rows are available, and is then the mean of the last `window` closes. |
| MlModel.StrictAverages | core/ml_model.py:24-25 | `MA_5`/`MA_20` are NaN on the first window−1 rows (4 and 19), then the mean of the last 5 or 20 closes. |
| MlModel.MacdColumn | core/ml_model.py:28-30 | The `MACD` column has one value per row, and its first value is 0. |
| MlModel.MacdSignalColumn | core/ml_model.py:31 | The `MACD_Signal` column has one value per row, and its first value is 0. |
| MlModel.MacdOfConstant | core/ml_model.py:28-31 | For a constant close series, MACD and MACD_Signal are 0 on every row. |
| MlModel.MacdWithin | core/ml_model.py:28-31 | If the closes so far lie in [a, b], then MACD and MACD_Signal lie in [a − b, b − a]. |
| MlModel.FeaturesNoLookahead | core/ml_model.py:14-31 | Every feature of row t is the same for two close series that agree up to row t. |
| MlModel.Labels | core/ml_model.py:37-42 | Every label is 0 or 1. For t < n−1 the label is 1 iff close[t+1] > close[t]. The final row's label is 0. |
| MlModel.Label | core/ml_model.py:41 | One cell of `(next > close).astype(int)` is 0 or 1, and 1 iff the next cell is a number above the close. |
| MlModel.Complete | core/ml_model.py:49 | A row survives `dropna` iff its RSI and both moving averages are numbers. `FeatureMask` and `DropNa` state its consequences. |
| MlModel.FeatureMask | core/ml_model.py:14-49 | A row has every feature present iff it is row 19 or later and the close changed in its RSI window. |
| MlModel.Kept | core/ml_model.py:49 | Every kept index is in range and is a row the mask keeps. |
| MlModel.KeptOrdered | core/ml_model.py:49 | The kept indices are strictly increasing, so surviving rows keep their order. |
| MlModel.KeptAll | core/ml_model.py:49 | Every row the mask keeps is among the kept indices. |
| MlModel.PickComplete | core/ml_model.py:49 | Picking only complete rows yields a frame whose rows are all complete. |
| MlModel.CompleteRows | core/ml_model.py:49 | The completeness mask has one entry per row. For the columns `AddTechnicalIndicators` builds it equals `FeatureMask`, which carries its meaning. |
| MlModel.TrainingRowsExactly | core/ml_model.py:14-49 | A row reaches training iff it is row 19 or later and the close changed in its RSI window. |
| MlModel.TrainingRowsBounds | core/ml_model.py:24-49 | No row before row 19 reaches training. When the final row has its features, it is the last training row and has label 0. |
| MlModel.FeatureFrame.Copy | core/ml_model.py:12 | `df.copy()`: the new frame holds the bars' dates, closes and volumes, and no derived column yet. |
| MlModel.AddTechnicalIndicators | core/ml_model.py:11-33 | A fresh frame whose indicator columns are `FeatureRsi`, `StrictAverages` (5 and 20), `MacdColumn` and `MacdSignalColumn` of the closes, with no `Target`. Its rows' completeness is `FeatureMask` of the closes. |
| MlModel.GenerateLabels | core/ml_model.py:37-42 | Sets the frame's `Target` to `Labels` of its closes and changes no other field. |
| MlModel.DropNa | core/ml_model.py:49 | Every column keeps, in order, exactly the rows that had no NaN cell. Afterwards every row is complete. |
| MlModel.PrepareTrainingData | core/ml_model.py:46-49 | The frame after features, labels and `dropna` holds, for each training row of the bars in order, its features and its label. Every row of it is complete. |

## Left out

- The scikit-learn steps of `train_predict_model` are not modelled: the split, the fit, the prediction, accuracy, the report and the confusion matrix (core/ml_model.py:51-80). They are calls into a library outside this model.
- The `round(…, 2)` of the summary statistics is not modelled; the statistics are stated before rounding.
- Float64 behaviour is not modelled: rounding error in rolling sums and bit-exactness. Values are exact reals.
- Infinity is not distinguished from NaN. A float division by zero that numpy would turn into ±inf (a zero buy price, zero initial capital) is modelled as NaN.
- Windows below 1 are not modelled. `calculate_rsi` with period 0 returns an all-NaN column (pandas accepts `rolling(0, min_periods=0)`) and a negative period raises; `calculate_moving_averages` raises on a window below 1 because `min_periods=1` exceeds it. `CalculateRsi`, `LenientAverages` and `CalculateMovingAverages` require a window of at least 1, which every call site meets (14, 20, 50).
- The Streamlit and Plotly app, the Google Sheets logger, the Telegram bot, the yfinance fetch, configuration loading and the automation glue are not part of this model. They are I/O only.
- Columns that the core never reads are not modelled: the fetched open, high, low, symbol, `Dividends` and `Stock Splits`, and, because both callers (main/automation.py:24, backupapp.py:89) pass the output of `generate_signals` to `train_predict_model`, also `MA_50`, `Buy_Signal` and `Sell_Signal`. None of them can be NaN (`MA_50` has `min_periods=1`, the signals are booleans), so `dropna` is decided by the RSI and moving-average columns alone. `PrepareTrainingData` takes the bars rather than the signal frame because `add_technical_indicators` overwrites the only shared columns, `RSI` and `MA_20`.
- Dates are modelled as integers. The core only copies them from rows into trades.
- The classifier's input frame and the backtest's input rows are values. That the source leaves its input unchanged, by working on a copy, holds by construction rather than as a stated property.
