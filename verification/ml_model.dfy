/** Feature and label engineering for the next-day direction classifier: RSI with a one-move
    warm-up, strict 5- and 20-row moving averages, MACD and its signal line, the next-row-up
    label, and the `dropna` filter that leaves only rows with every feature present. */
module MlModel {
  import opened Series
  import opened Indicators
  import opened Bars

  /** Window of the feature RSI (`rolling(14, min_periods=1)`). */
  const RsiWindow: nat := 14
  /** Windows of the strict moving averages `MA_5` and `MA_20`. */
  const ShortWindow: nat := 5
  const LongWindow: nat := 20
  /** Spans of the two MACD averages and of its signal line. */
  const FastSpan: nat := 12
  const SlowSpan: nat := 26
  const SignalSpan: nat := 9

  lemma LenientRsi(close: seq<real>)
    ensures forall t :: 0 <= t < |close| ==>
      (Rsi(close, RsiWindow, 1, t).Num? <==> t >= 1 && exists k :: t - RsiWindow < k <= t && Moved(close, k))
    ensures forall t :: 0 <= t < |close| ==>
      var r := Rsi(close, RsiWindow, 1, t); r.Num? ==> 0.0 <= r.val <= 100.0
  {
    forall t | 0 <= t < |close|
      ensures Rsi(close, RsiWindow, 1, t).Num? <==> t >= 1 && exists k :: t - RsiWindow < k <= t && Moved(close, k)
      ensures var r := Rsi(close, RsiWindow, 1, t); r.Num? ==> 0.0 <= r.val <= 100.0
    {
      RsiDefined(close, RsiWindow, 1, t);
      var lo := WindowStart(RsiWindow, t);
      assert RowsWithMove(RsiWindow, t) >= 1 <==> t >= 1;
      assert forall k :: Moved(close, k) ==> (lo <= k <= t <==> t - RsiWindow < k <= t);
    }
  }

  /** The `RSI` feature: undefined on row 0, which has no move; from row 1 on defined exactly
      when the close changed at some row of the last 14; a defined value lies in [0, 100]. */
  function FeatureRsi(close: seq<real>): (rsi: seq<Cell>)
    ensures |rsi| == |close|
    ensures |close| > 0 ==> rsi[0] == NaN
    ensures forall t :: 1 <= t < |close| ==>
      (rsi[t].Num? <==> exists k :: t - RsiWindow < k <= t && Moved(close, k))
    ensures forall t :: 0 <= t < |close| && rsi[t].Num? ==> 0.0 <= rsi[t].val <= 100.0
  {
    LenientRsi(close);
    seq(|close|, t requires 0 <= t < |close| => Rsi(close, RsiWindow, 1, t))
  }

  lemma StrictMeans(close: seq<real>, window: nat)
    requires window >= 1
    ensures forall i :: 0 <= i < |close| ==> (MovingAverage(close, window, window, i).Num? <==> i + 1 >= window)
    ensures forall i :: window <= i + 1 <= |close| ==>
      var r := MovingAverage(close, window, window, i);
      r.Num? && r.val == Total(close[i + 1 - window..i + 1]) / window as real
  {
    forall i | 0 <= i < |close|
      ensures MovingAverage(close, window, window, i).Num? <==> i + 1 >= window
      ensures i + 1 >= window ==>
        var r := MovingAverage(close, window, window, i);
        r.Num? && r.val == Total(close[i + 1 - window..i + 1]) / window as real
    {
      MovingAverageMean(close, window, window, i);
    }
  }

  /** `Close.rolling(window).mean()`: undefined on the first window - 1 rows, then the mean of
      the last `window` closes. */
  function StrictAverages(close: seq<real>, window: nat): (ma: seq<Cell>)
    requires window >= 1
    ensures |ma| == |close|
    ensures forall i :: 0 <= i < |close| ==> (ma[i].Num? <==> i + 1 >= window)
    ensures forall i :: window <= i + 1 <= |close| ==>
      ma[i].Num? && ma[i].val == Total(close[i + 1 - window..i + 1]) / window as real
  {
    StrictMeans(close, window);
    seq(|close|, i requires 0 <= i < |close| => MovingAverage(close, window, window, i))
  }

  /** The `MACD` column, the 12-span EMA of the close minus its 26-span EMA. Both averages are
      seeded with the first close, so the first value is 0. */
  function MacdColumn(close: seq<real>): (macd: seq<real>)
    ensures |macd| == |close|
    ensures |close| > 0 ==> macd[0] == 0.0
  {
    seq(|close|, t requires 0 <= t < |close| => Ewm(close, FastSpan, t) - Ewm(close, SlowSpan, t))
  }

  /** The `MACD_Signal` column, the 9-span EMA of MACD; its first value is 0 as well. */
  function MacdSignalColumn(close: seq<real>): (signal: seq<real>)
    ensures |signal| == |close|
    ensures |close| > 0 ==> signal[0] == 0.0
  {
    EwmColumn(MacdColumn(close), SignalSpan)
  }

  /** On a constant close series MACD and its signal line are 0 on every row. */
  lemma {:induction false} MacdOfConstant(close: seq<real>, c: real)
    requires forall k :: 0 <= k < |close| ==> close[k] == c
    ensures forall t :: 0 <= t < |close| ==> MacdColumn(close)[t] == 0.0
    ensures forall t :: 0 <= t < |close| ==> MacdSignalColumn(close)[t] == 0.0
  {
    var macd := MacdColumn(close);
    forall t | 0 <= t < |close|
      ensures macd[t] == 0.0
    {
      EwmOfConstant(close, FastSpan, t, c);
      EwmOfConstant(close, SlowSpan, t, c);
    }
    forall t | 0 <= t < |close|
      ensures MacdSignalColumn(close)[t] == 0.0
    {
      EwmOfConstant(macd, SignalSpan, t, 0.0);
    }
  }

  /** While the closes so far stay within [a, b], MACD and its signal line stay within
      [a - b, b - a]. */
  lemma {:induction false} MacdWithin(close: seq<real>, t: nat, a: real, b: real)
    requires t < |close|
    requires forall k :: 0 <= k <= t ==> a <= close[k] <= b
    ensures a - b <= MacdColumn(close)[t] <= b - a
    ensures a - b <= MacdSignalColumn(close)[t] <= b - a
  {
    var macd := MacdColumn(close);
    forall k | 0 <= k <= t
      ensures a - b <= macd[k] <= b - a
    {
      EwmWithin(close, FastSpan, k, a, b);
      EwmWithin(close, SlowSpan, k, a, b);
    }
    EwmWithin(macd, SignalSpan, t, a - b, b - a);
  }

  /** The features of row t read no close after row t. */
  lemma FeaturesNoLookahead(c1: seq<real>, c2: seq<real>, t: nat)
    requires t < |c1| && t < |c2|
    requires forall k :: 0 <= k <= t ==> c1[k] == c2[k]
    ensures FeatureRsi(c1)[t] == FeatureRsi(c2)[t]
    ensures StrictAverages(c1, ShortWindow)[t] == StrictAverages(c2, ShortWindow)[t]
    ensures StrictAverages(c1, LongWindow)[t] == StrictAverages(c2, LongWindow)[t]
    ensures MacdColumn(c1)[t] == MacdColumn(c2)[t]
    ensures MacdSignalColumn(c1)[t] == MacdSignalColumn(c2)[t]
  {
    RsiAgree(c1, c2, RsiWindow, 1, t);
    MovingAverageAgree(c1, c2, ShortWindow, ShortWindow, t);
    MovingAverageAgree(c1, c2, LongWindow, LongWindow, t);
    var m1, m2 := MacdColumn(c1), MacdColumn(c2);
    forall k | 0 <= k <= t
      ensures m1[k] == m2[k]
    {
      EwmAgree(c1, c2, FastSpan, k);
      EwmAgree(c1, c2, SlowSpan, k);
    }
    EwmAgree(m1, m2, SignalSpan, t);
  }

  /** `(Close.shift(-1) > Close).astype(int)`: 1 exactly when the next close is higher, else 0;
      the final row compares against NaN and so gets 0. */
  function Labels(close: seq<real>): (target: seq<int>)
    ensures |target| == |close|
    ensures forall t :: 0 <= t < |close| ==> target[t] == 0 || target[t] == 1
    ensures forall t :: 0 <= t < |close| - 1 ==> (target[t] == 1 <==> close[t + 1] > close[t])
    ensures |close| > 0 ==> target[|close| - 1] == 0
  {
    var next := ShiftUp(close);
    var target := seq(|close|, t requires 0 <= t < |close| => Label(next[t], close[t]));
    assert forall t :: 0 <= t < |close| - 1 ==> next[t] == Num(close[t + 1]);
    assert forall t :: 0 <= t < |close| - 1 ==> (target[t] == 1 <==> Above(next[t], close[t]));
    target
  }

  /** One cell of `(next > close).astype(int)`. */
  function Label(next: Cell, close: real): (y: int)
    ensures y == 0 || y == 1
    ensures y == 1 <==> Above(next, close)
  {
    if Above(next, close) then 1 else 0
  }

  /** The row has every feature present: the three columns that can hold NaN are defined. */
  predicate Complete(rsi: Cell, maShort: Cell, maLong: Cell)
  {
    rsi.Num? && maShort.Num? && maLong.Num?
  }

  /** Which rows of the feature frame built from `close` survive `dropna`: exactly the rows from
      row 19 on (where `MA_20` is first defined) whose RSI window saw the close change. */
  function FeatureMask(close: seq<real>): (mask: seq<bool>)
    ensures |mask| == |close|
    ensures forall i :: 0 <= i < |close| ==>
      (mask[i] <==> i + 1 >= LongWindow && exists k :: i - RsiWindow < k <= i && Moved(close, k))
  {
    var rsi := FeatureRsi(close);
    var maShort := StrictAverages(close, ShortWindow);
    var maLong := StrictAverages(close, LongWindow);
    seq(|close|, i requires 0 <= i < |close| => Complete(rsi[i], maShort[i], maLong[i]))
  }

  /** The indices of the rows a mask keeps, in their original order. */
  function Kept(mask: seq<bool>): (ks: seq<nat>)
    ensures IndicesBelow(ks, |mask|)
    ensures forall j :: 0 <= j < |ks| ==> mask[ks[j]]
  {
    if mask == [] then []
    else
      var n := |mask| - 1;
      Kept(mask[..n]) + (if mask[n] then [n] else [])
  }

  /** The kept indices are strictly increasing, so the rows keep their order. */
  lemma {:induction false} KeptOrdered(mask: seq<bool>)
    ensures forall j, j' :: 0 <= j < j' < |Kept(mask)| ==> Kept(mask)[j] < Kept(mask)[j']
  {
    if mask != [] {
      KeptOrdered(mask[..|mask| - 1]);
    }
  }

  /** Every row the mask keeps is among the kept indices. */
  lemma {:induction false} KeptAll(mask: seq<bool>)
    ensures forall i :: 0 <= i < |mask| && mask[i] ==> i in Kept(mask)
  {
    if mask != [] {
      var n := |mask| - 1;
      KeptAll(mask[..n]);
      assert forall i :: 0 <= i < n ==> mask[..n][i] == mask[i];
    }
  }

  /** Every index of ks is a row of a column of n rows. */
  predicate IndicesBelow(ks: seq<nat>, n: nat)
  {
    forall j :: 0 <= j < |ks| ==> ks[j] < n
  }

  /** The rows `ks` of a column, in that order. */
  function Pick<T>(xs: seq<T>, ks: seq<nat>): (r: seq<T>)
    requires IndicesBelow(ks, |xs|)
    ensures |r| == |ks|
  {
    seq(|ks|, j requires 0 <= j < |ks| => xs[ks[j]])
  }

  /** Which rows of a frame have every feature present: entry i is `Complete` of row i. Its
      meaning for the columns `add_technical_indicators` produces is `FeatureMask`, which
      `AddTechnicalIndicators` proves equal to it. */
  function CompleteRows(rsi: seq<Cell>, maShort: seq<Cell>, maLong: seq<Cell>): (mask: seq<bool>)
    requires |rsi| == |maShort| == |maLong|
    ensures |mask| == |rsi|
  {
    seq(|rsi|, i requires 0 <= i < |rsi| => Complete(rsi[i], maShort[i], maLong[i]))
  }

  /** Picking the rows a completeness mask keeps leaves only complete rows. */
  lemma PickComplete(rsi: seq<Cell>, maShort: seq<Cell>, maLong: seq<Cell>, ks: seq<nat>)
    requires |rsi| == |maShort| == |maLong|
    requires IndicesBelow(ks, |rsi|)
    requires forall j :: 0 <= j < |ks| ==> Complete(rsi[ks[j]], maShort[ks[j]], maLong[ks[j]])
    ensures forall j :: 0 <= j < |ks| ==>
      Complete(Pick(rsi, ks)[j], Pick(maShort, ks)[j], Pick(maLong, ks)[j])
  {
  }

  /** The rows of the training frame, as indices into the fetched bars. */
  function TrainingRows(close: seq<real>): seq<nat>
  {
    Kept(FeatureMask(close))
  }

  /** Row i reaches training exactly when it is at least row 19 and the close changed at some
      row of its RSI window. */
  lemma TrainingRowsExactly(close: seq<real>)
    ensures forall j :: 0 <= j < |TrainingRows(close)| ==> TrainingRows(close)[j] < |close|
    ensures forall i :: 0 <= i < |close| ==>
      (i in TrainingRows(close) <==> i + 1 >= LongWindow && exists k :: i - RsiWindow < k <= i && Moved(close, k))
  {
    KeptAll(FeatureMask(close));
  }

  /** No row before row 19 reaches training, and when the final row has its features it is the
      last training row, with label 0 although its next close is unknown. */
  lemma {:induction false} TrainingRowsBounds(close: seq<real>)
    ensures forall j :: 0 <= j < |TrainingRows(close)| ==> TrainingRows(close)[j] >= LongWindow - 1
    ensures |close| > 0 && FeatureMask(close)[|close| - 1] ==>
      var ks := TrainingRows(close);
      |ks| > 0 && ks[|ks| - 1] == |close| - 1 && Labels(close)[ks[|ks| - 1]] == 0
  {
    var ks := TrainingRows(close);
    var mask := FeatureMask(close);
    KeptAll(mask);
    KeptOrdered(mask);
    if |close| > 0 && mask[|close| - 1] {
      var n := |close| - 1;
      assert n in ks;
      var j :| 0 <= j < |ks| && ks[j] == n;
    }
  }

  /** The frame the classifier is trained on; a derived column is the empty sequence until it
      is added. */
  class FeatureFrame {
    var date: seq<Date>
    var close: seq<real>
    var volume: seq<int>
    var rsi: seq<Cell>
    var maShort: seq<Cell>
    var maLong: seq<Cell>
    var macd: seq<real>
    var macdSignal: seq<real>
    var target: seq<int>

    /** Every column has one cell per row; `Target` is either absent or complete. A frame fresh
        from `Copy` does not satisfy it (its indicator columns are still empty); it holds from
        `AddTechnicalIndicators` on. */
    predicate Valid()
      reads this
    {
      && |close| == |date| == |volume| == |rsi| == |maShort| == |maLong| == |macd| == |macdSignal|
      && (target == [] || |target| == |close|)
    }

    /** `df.copy()` of the fetched bars: dates, closes and volumes, with every derived column
        still empty. */
    constructor Copy(bars: seq<Bar>)
      ensures date == Dates(bars) && close == Closes(bars) && volume == Volumes(bars)
      ensures rsi == [] && maShort == [] && maLong == [] && macd == [] && macdSignal == [] && target == []
    {
      date, close, volume := Dates(bars), Closes(bars), Volumes(bars);
      rsi, maShort, maLong := [], [], [];
      macd, macdSignal, target := [], [], [];
    }
  }

  /** `add_technical_indicators(df)`: a new frame with the bars and the five indicator columns;
      the bars themselves are a value and stay as they were. */
  method AddTechnicalIndicators(bars: seq<Bar>) returns (df: FeatureFrame)
    ensures fresh(df) && df.Valid()
    ensures df.date == Dates(bars) && df.close == Closes(bars) && df.volume == Volumes(bars)
    ensures df.rsi == FeatureRsi(Closes(bars))
    ensures df.maShort == StrictAverages(Closes(bars), ShortWindow)
    ensures df.maLong == StrictAverages(Closes(bars), LongWindow)
    ensures df.macd == MacdColumn(Closes(bars)) && df.macdSignal == MacdSignalColumn(Closes(bars))
    ensures df.target == []
    ensures CompleteRows(df.rsi, df.maShort, df.maLong) == FeatureMask(Closes(bars))
  {
    df := new FeatureFrame.Copy(bars);
    df.rsi := FeatureRsi(df.close);
    df.maShort := StrictAverages(df.close, ShortWindow);
    df.maLong := StrictAverages(df.close, LongWindow);
    df.macd := MacdColumn(df.close);
    df.macdSignal := MacdSignalColumn(df.close);
    assert forall i :: 0 <= i < |bars| ==>
      CompleteRows(df.rsi, df.maShort, df.maLong)[i] == FeatureMask(Closes(bars))[i];
  }

  /** `generate_labels(df)`: adds `Target` to the frame it is given and changes nothing else. */
  method GenerateLabels(df: FeatureFrame)
    requires df.Valid()
    modifies df`target
    ensures df.Valid()
    ensures df.target == Labels(df.close)
  {
    df.target := Labels(df.close);
  }

  /** `df.dropna(inplace=True)`: keeps, in order, exactly the rows without a NaN cell. */
  method DropNa(df: FeatureFrame)
    requires df.Valid()
    modifies df
    ensures df.Valid()
    ensures var ks := Kept(CompleteRows(old(df.rsi), old(df.maShort), old(df.maLong)));
      && df.date == Pick(old(df.date), ks) && df.close == Pick(old(df.close), ks)
      && df.volume == Pick(old(df.volume), ks) && df.rsi == Pick(old(df.rsi), ks)
      && df.maShort == Pick(old(df.maShort), ks) && df.maLong == Pick(old(df.maLong), ks)
      && df.macd == Pick(old(df.macd), ks) && df.macdSignal == Pick(old(df.macdSignal), ks)
      && df.target == if old(df.target) == [] then [] else Pick(old(df.target), ks)
    ensures forall i :: 0 <= i < |df.close| ==> Complete(df.rsi[i], df.maShort[i], df.maLong[i])
  {
    var mask := CompleteRows(df.rsi, df.maShort, df.maLong);
    var ks := Kept(mask);
    var n := |df.close|;
    PickComplete(df.rsi, df.maShort, df.maLong, ks);
    var target := if df.target == [] then [] else Pick(df.target, ks);
    var date, close, volume := Pick(df.date, ks), Pick(df.close, ks), Pick(df.volume, ks);
    var rsi, maShort, maLong := Pick(df.rsi, ks), Pick(df.maShort, ks), Pick(df.maLong, ks);
    var macd, macdSignal := Pick(df.macd, ks), Pick(df.macdSignal, ks);
    df.date, df.close, df.volume, df.rsi, df.maShort, df.maLong, df.macd, df.macdSignal, df.target :=
      date, close, volume, rsi, maShort, maLong, macd, macdSignal, target;
  }

  /** The first three steps of `train_predict_model`: features, labels, then `dropna`. The
      result holds the training rows of the bars, each with all features and its label. */
  method PrepareTrainingData(bars: seq<Bar>) returns (df: FeatureFrame)
    ensures fresh(df) && df.Valid()
    ensures var close, ks := Closes(bars), TrainingRows(Closes(bars));
      && df.date == Pick(Dates(bars), ks) && df.close == Pick(close, ks)
      && df.volume == Pick(Volumes(bars), ks) && df.rsi == Pick(FeatureRsi(close), ks)
      && df.maShort == Pick(StrictAverages(close, ShortWindow), ks)
      && df.maLong == Pick(StrictAverages(close, LongWindow), ks)
      && df.macd == Pick(MacdColumn(close), ks) && df.macdSignal == Pick(MacdSignalColumn(close), ks)
      && df.target == Pick(Labels(close), ks)
    ensures forall i :: 0 <= i < |df.close| ==> Complete(df.rsi[i], df.maShort[i], df.maLong[i])
  {
    df := AddTechnicalIndicators(bars);
    GenerateLabels(df);
    DropNa(df);
  }
}
