/** The rule-based signal generator: a 14-row RSI with a strict warm-up, two moving averages of
    the close that are defined from the first row on, and per-row buy and sell flags. */
module Strategy {
  import opened Series
  import opened Indicators
  import opened Bars
  import Backtest

  /** Default `period` of `calculate_rsi`. */
  const RsiPeriod: nat := 14
  /** Default `short` and `long` windows of `calculate_moving_averages`. */
  const ShortWindow: nat := 20
  const LongWindow: nat := 50
  /** RSI thresholds of the buy and sell conditions. */
  const Oversold: real := 30.0
  const Overbought: real := 70.0

  lemma StrictRsi(close: seq<real>, period: nat)
    requires period >= 1
    ensures forall t :: 0 <= t < |close| && t < period ==> Rsi(close, period, period, t) == NaN
    ensures forall t :: period <= t < |close| ==>
      (Rsi(close, period, period, t).Num? <==> exists k :: t - period < k <= t && Moved(close, k))
    ensures forall t :: 0 <= t < |close| ==>
      var r := Rsi(close, period, period, t); r.Num? ==> 0.0 <= r.val <= 100.0
  {
    forall t | 0 <= t < |close|
      ensures t < period ==> Rsi(close, period, period, t) == NaN
      ensures t >= period ==>
        (Rsi(close, period, period, t).Num? <==> exists k :: t - period < k <= t && Moved(close, k))
      ensures var r := Rsi(close, period, period, t); r.Num? ==> 0.0 <= r.val <= 100.0
    {
      RsiDefined(close, period, period, t);
      if t < period {
        assert RowsWithMove(period, t) < period;
      } else {
        assert WindowStart(period, t) == t + 1 - period > 0;
        assert RowsWithMove(period, t) == period;
      }
    }
  }

  /** `calculate_rsi(df, period)`: undefined on rows 0 through period - 1 (row 0 has no move and
      the window needs `period` moves), then defined exactly when the close changed at some row
      of the last `period` rows; a defined value lies in [0, 100]. */
  function CalculateRsi(close: seq<real>, period: nat): (rsi: seq<Cell>)
    requires period >= 1
    ensures |rsi| == |close|
    ensures forall t :: 0 <= t < |close| && t < period ==> rsi[t] == NaN
    ensures forall t :: period <= t < |close| ==>
      (rsi[t].Num? <==> exists k :: t - period < k <= t && Moved(close, k))
    ensures forall t :: 0 <= t < |close| && rsi[t].Num? ==> 0.0 <= rsi[t].val <= 100.0
  {
    StrictRsi(close, period);
    seq(|close|, t requires 0 <= t < |close| => Rsi(close, period, period, t))
  }

  lemma MovingAverageMeans(close: seq<real>, window: nat)
    requires window >= 1
    ensures forall i :: 0 <= i < |close| ==>
      var lo := WindowStart(window, i); var r := MovingAverage(close, window, 1, i);
      r.Num? && r.val == Total(close[lo..i + 1]) / (i + 1 - lo) as real
  {
    forall i | 0 <= i < |close|
      ensures var lo := WindowStart(window, i); var r := MovingAverage(close, window, 1, i);
        r.Num? && r.val == Total(close[lo..i + 1]) / (i + 1 - lo) as real
    {
      MovingAverageMean(close, window, 1, i);
    }
  }

  /** `Close.rolling(window, min_periods=1).mean()`: defined on every row, and the mean of the
      closes of rows max(0, i - window + 1) through i. */
  function LenientAverages(close: seq<real>, window: nat): (ma: seq<Cell>)
    requires window >= 1
    ensures |ma| == |close|
    ensures forall i :: 0 <= i < |close| ==>
      ma[i].Num? && ma[i].val == Total(close[WindowStart(window, i)..i + 1]) / (i + 1 - WindowStart(window, i)) as real
  {
    MovingAverageMeans(close, window);
    seq(|close|, i requires 0 <= i < |close| => MovingAverage(close, window, 1, i))
  }

  /** The moving average of a run of equal closes is that close. */
  lemma {:induction false} LenientAverageOfConstant(close: seq<real>, window: nat, i: nat, c: real)
    requires window >= 1 && i < |close|
    requires forall k :: WindowStart(window, i) <= k <= i ==> close[k] == c
    ensures LenientAverages(close, window)[i] == Num(c)
  {
    MovingAverageWithin(close, window, 1, i, c, c);
  }

  /** The moving average lies between the smallest and the largest close of its window. */
  lemma {:induction false} LenientAverageWithin(close: seq<real>, window: nat, i: nat, a: real, b: real)
    requires window >= 1 && i < |close|
    requires forall k :: WindowStart(window, i) <= k <= i ==> a <= close[k] <= b
    ensures var ma := LenientAverages(close, window)[i]; a <= ma.val <= b
  {
    MovingAverageWithin(close, window, 1, i, a, b);
  }

  /** `(RSI < 30) & (MA_20 > MA_50)`; comparisons with NaN are false. */
  predicate BuySignal(rsi: Cell, maShort: Cell, maLong: Cell)
  {
    Below(rsi, Oversold) && maShort.Num? && maLong.Num? && maShort.val > maLong.val
  }

  /** `RSI > 70`; false on NaN. */
  predicate SellSignal(rsi: Cell)
  {
    Above(rsi, Overbought)
  }

  /** The `Buy_Signal` column. */
  function BuyColumn(rsi: seq<Cell>, maShort: seq<Cell>, maLong: seq<Cell>): seq<bool>
    requires |rsi| == |maShort| == |maLong|
  {
    seq(|rsi|, i requires 0 <= i < |rsi| => BuySignal(rsi[i], maShort[i], maLong[i]))
  }

  /** The `Sell_Signal` column. */
  function SellColumn(rsi: seq<Cell>): seq<bool>
  {
    seq(|rsi|, i requires 0 <= i < |rsi| => SellSignal(rsi[i]))
  }

  /** The rows `generate_signals` hands to the backtest engine, with their buy and sell flags.
      No row carries both flags; no row signals while its RSI is undefined, so none of the first
      14 rows does; and no row before row 20 buys, because up to there both moving averages
      average the same prefix of closes. */
  function SignalRows(bars: seq<Bar>): (rows: seq<Backtest.Row>)
    ensures |rows| == |bars|
    ensures forall i :: 0 <= i < |bars| ==> rows[i].date == bars[i].date && rows[i].close == bars[i].close
    ensures forall i :: 0 <= i < |bars| ==> !(rows[i].buySignal && rows[i].sellSignal)
    ensures forall i :: 0 <= i < |bars| && (rows[i].buySignal || rows[i].sellSignal) ==>
      CalculateRsi(Closes(bars), RsiPeriod)[i].Num?
    ensures forall i :: 0 <= i < |bars| && i < RsiPeriod ==> !rows[i].buySignal && !rows[i].sellSignal
    ensures forall i :: 0 <= i < |bars| && i < ShortWindow ==> !rows[i].buySignal
  {
    var close := Closes(bars);
    var rsi := CalculateRsi(close, RsiPeriod);
    var maShort := LenientAverages(close, ShortWindow);
    var maLong := LenientAverages(close, LongWindow);
    forall i | 0 <= i < |bars| && i < ShortWindow
      ensures maShort[i] == maLong[i]
    {
      ShortWindowsAgree(close, ShortWindow, LongWindow, 1, i);
    }
    seq(|bars|, i requires 0 <= i < |bars| =>
      Backtest.Row(bars[i].date, bars[i].close, BuySignal(rsi[i], maShort[i], maLong[i]), SellSignal(rsi[i])))
  }

  /** The flags of row i depend only on the closes of rows 0 through i. */
  lemma SignalsNoLookahead(b1: seq<Bar>, b2: seq<Bar>, i: nat)
    requires i < |b1| && i < |b2|
    requires forall k :: 0 <= k <= i ==> b1[k].close == b2[k].close
    ensures SignalRows(b1)[i].buySignal == SignalRows(b2)[i].buySignal
    ensures SignalRows(b1)[i].sellSignal == SignalRows(b2)[i].sellSignal
  {
    var c1, c2 := Closes(b1), Closes(b2);
    assert forall k :: 0 <= k <= i ==> c1[k] == c2[k];
    RsiAgree(c1, c2, RsiPeriod, RsiPeriod, i);
    MovingAverageAgree(c1, c2, ShortWindow, 1, i);
    MovingAverageAgree(c1, c2, LongWindow, 1, i);
  }

  /** Fed the signal rows, the backtest engine opens no position before row 20, and so closes
      none before row 21. */
  lemma NoTradeBeforeRow20(bars: seq<Bar>, trades: seq<Backtest.Trade>)
    requires Backtest.IsTradeLog(SignalRows(bars), trades)
    ensures forall j :: 0 <= j < |trades| ==> trades[j].buyIndex >= ShortWindow
    ensures forall j :: 0 <= j < |trades| ==> trades[j].sellIndex > ShortWindow
  {
    var rows := SignalRows(bars);
    forall j | 0 <= j < |trades|
      ensures trades[j].buyIndex >= ShortWindow && trades[j].sellIndex > ShortWindow
    {
      assert Backtest.TradeOk(rows, trades, j);
      assert rows[trades[j].buyIndex].buySignal;
    }
  }

  /** A frame of fetched bars to which the generator adds its columns in place. A derived column
      is the empty sequence until it is added. */
  class SignalFrame {
    var date: seq<Date>
    var close: seq<real>
    var rsi: seq<Cell>
    var maShort: seq<Cell>
    var maLong: seq<Cell>
    var buySignal: seq<bool>
    var sellSignal: seq<bool>

    /** `df.copy()` of the fetched bars. */
    constructor Copy(bars: seq<Bar>)
      ensures date == Dates(bars) && close == Closes(bars)
      ensures rsi == [] && maShort == [] && maLong == [] && buySignal == [] && sellSignal == []
    {
      date := Dates(bars);
      close := Closes(bars);
      rsi, maShort, maLong := [], [], [];
      buySignal, sellSignal := [], [];
    }

    /** The frame as the rows the backtest engine reads. */
    function Rows(): seq<Backtest.Row>
      reads this
      requires |close| == |date| == |buySignal| == |sellSignal|
    {
      RowsOf(date, close, buySignal, sellSignal)
    }
  }

  /** The rows of a frame with these date, close and signal columns. */
  function RowsOf(date: seq<Date>, close: seq<real>, buy: seq<bool>, sell: seq<bool>): seq<Backtest.Row>
    requires |close| == |date| == |buy| == |sell|
  {
    seq(|date|, i requires 0 <= i < |date| => Backtest.Row(date[i], close[i], buy[i], sell[i]))
  }

  /** The columns `generate_signals` adds make up exactly `SignalRows`. */
  lemma SignalColumns(bars: seq<Bar>)
    ensures var close := Closes(bars); var rsi := CalculateRsi(close, RsiPeriod);
      var buy := BuyColumn(rsi, LenientAverages(close, ShortWindow), LenientAverages(close, LongWindow));
      |buy| == |SellColumn(rsi)| == |bars|
      && RowsOf(Dates(bars), close, buy, SellColumn(rsi)) == SignalRows(bars)
  {
  }

  /** `calculate_moving_averages(df, short, long)`: writes the `MA_20` and `MA_50` columns of
      the frame it is given and changes nothing else. */
  method CalculateMovingAverages(df: SignalFrame, short: nat, long: nat)
    requires short >= 1 && long >= 1
    modifies df`maShort, df`maLong
    ensures df.maShort == LenientAverages(df.close, short)
    ensures df.maLong == LenientAverages(df.close, long)
  {
    df.maShort := LenientAverages(df.close, short);
    df.maLong := LenientAverages(df.close, long);
  }

  /** `generate_signals(df)`: a new frame holding the bars and the RSI, moving-average and
      signal columns; its rows are exactly `SignalRows(bars)`. */
  method GenerateSignals(bars: seq<Bar>) returns (df: SignalFrame)
    ensures fresh(df)
    ensures df.date == Dates(bars) && df.close == Closes(bars)
    ensures df.rsi == CalculateRsi(Closes(bars), RsiPeriod)
    ensures df.maShort == LenientAverages(Closes(bars), ShortWindow)
    ensures df.maLong == LenientAverages(Closes(bars), LongWindow)
    ensures |df.buySignal| == |df.sellSignal| == |bars|
    ensures df.Rows() == SignalRows(bars)
  {
    df := new SignalFrame.Copy(bars);
    df.rsi := CalculateRsi(df.close, RsiPeriod);
    CalculateMovingAverages(df, ShortWindow, LongWindow);
    df.buySignal := BuyColumn(df.rsi, df.maShort, df.maLong);
    df.sellSignal := SellColumn(df.rsi);
    SignalColumns(bars);
  }
}
