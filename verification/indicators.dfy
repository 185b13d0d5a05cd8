/** The indicator formulas that both the signal generator and the classifier's feature step
    compute: RSI from rolling means of gains and losses, and rolling means of closes. Each takes
    its window and its minimum number of observations (`min_periods`) as parameters, because the
    two call sites use different warm-up rules. */
module Indicators {
  import opened Series

  /** Row k has a previous row and its close differs from that row's close. */
  predicate Moved(close: seq<real>, k: int)
  {
    1 <= k < |close| && close[k] != close[k - 1]
  }

  /** The move into row t, split into its gain (`delta.clip(lower=0)`) and its loss
      (`-delta.clip(upper=0)`) where `delta` is `diff()` of the closes; both are NaN on row 0,
      which has no previous close. */
  function Move(close: seq<real>, t: nat): (m: (Cell, Cell))
    requires t < |close|
    ensures t == 0 ==> m == (NaN, NaN)
    ensures t > 0 ==> m.0.Num? && m.1.Num? && m.0.val >= 0.0 && m.1.val >= 0.0
    ensures t > 0 ==> m.0.val == 0.0 || m.1.val == 0.0
    ensures t > 0 ==> m.0.val - m.1.val == close[t] - close[t - 1]
  {
    if t == 0 then (NaN, NaN)
    else
      var delta := close[t] - close[t - 1];
      (Num(if delta > 0.0 then delta else 0.0), Num(-(if delta < 0.0 then delta else 0.0)))
  }

  /** The gain column: NaN on row 0, then the rise into each row, or 0 when the close fell
      (`GainsAndLosses`). */
  function Gains(close: seq<real>): (g: seq<Cell>)
    ensures |g| == |close|
    ensures |close| > 0 ==> g[0] == NaN
  {
    seq(|close|, t requires 0 <= t < |close| => Move(close, t).0)
  }

  /** The loss column: NaN on row 0, then the fall into each row, or 0 when the close rose
      (`GainsAndLosses`). */
  function Losses(close: seq<real>): (l: seq<Cell>)
    ensures |l| == |close|
    ensures |close| > 0 ==> l[0] == NaN
  {
    seq(|close|, t requires 0 <= t < |close| => Move(close, t).1)
  }

  /** From row 1 on, the gain column holds the rise into each row and the loss column the fall,
      each 0 when the close moved the other way, so gain - loss is `diff()` of the closes. */
  lemma GainsAndLosses(close: seq<real>, t: nat)
    requires 1 <= t < |close|
    ensures var g, l := Gains(close)[t], Losses(close)[t];
      g.Num? && l.Num? && g.val >= 0.0 && l.val >= 0.0
      && g.val >= close[t] - close[t - 1] && (g.val == 0.0 || g.val == close[t] - close[t - 1])
      && l.val >= close[t - 1] - close[t] && (l.val == 0.0 || l.val == close[t - 1] - close[t])
  {
    var m := Move(close, t);
    assert Gains(close)[t] == m.0 && Losses(close)[t] == m.1;
  }

  /** RSI from the two rolling averages, as float arithmetic evaluates
      `100 - 100 / (1 + avg_gain / avg_loss)`: NaN in, NaN out; a zero average loss makes the
      ratio infinite, which gives exactly 100, unless the average gain is zero too (0 / 0 is NaN).
      A defined value is the gain's share of the total movement, in percent. */
  function RsiFromAverages(avgGain: Cell, avgLoss: Cell): (r: Cell)
    requires avgGain.Num? ==> avgGain.val >= 0.0
    requires avgLoss.Num? ==> avgLoss.val >= 0.0
    ensures r.Num? <==> avgGain.Num? && avgLoss.Num? && avgGain.val + avgLoss.val > 0.0
    ensures r.Num? ==> 0.0 <= r.val <= 100.0
    ensures r.Num? ==> r.val * (avgGain.val + avgLoss.val) == 100.0 * avgGain.val
    ensures r.Num? && avgLoss.val == 0.0 ==> r.val == 100.0
  {
    if avgGain.NaN? || avgLoss.NaN? then NaN
    else if avgLoss.val == 0.0 then
      if avgGain.val == 0.0 then NaN else Num(100.0)
    else
      RatioForm(avgGain.val, avgLoss.val);
      Num(100.0 - 100.0 / (1.0 + avgGain.val / avgLoss.val))
  }

  /** `100 - 100 / (1 + g / l)` equals `100 * g / (g + l)` and lies in [0, 100]. */
  lemma RatioForm(g: real, l: real)
    requires g >= 0.0 && l > 0.0
    ensures var r := 100.0 - 100.0 / (1.0 + g / l);
      0.0 <= r <= 100.0 && r * (g + l) == 100.0 * g
  {
    var rs := g / l;
    assert rs * l == g;
    assert rs >= 0.0;
    var q := 100.0 / (1.0 + rs);
    assert q * (1.0 + rs) == 100.0;
    assert 0.0 < q <= 100.0;
    assert g + l == l * (1.0 + rs);
    calc {
      (100.0 - q) * (g + l);
      (100.0 - q) * (l * (1.0 + rs));
      100.0 * l * (1.0 + rs) - q * (1.0 + rs) * l;
      100.0 * l * (1.0 + rs) - 100.0 * l;
      100.0 * (rs * l);
      100.0 * g;
    }
  }

  /** Rows of the window of `window` rows ending at row t that have a previous close, that is,
      the number of non-NaN gains (and losses) in that window. */
  function RowsWithMove(window: nat, t: nat): nat
  {
    var lo := WindowStart(window, t);
    if lo == 0 then t else t + 1 - lo
  }

  lemma {:induction false} MoveCounts(close: seq<real>, lo: nat, hi: nat)
    requires lo <= hi <= |close|
    ensures CountIn(Gains(close), lo, hi) == CountIn(Losses(close), lo, hi)
    ensures CountIn(Gains(close), lo, hi) == if lo == 0 && hi > 0 then hi - 1 else hi - lo
    decreases hi - lo
  {
    if lo < hi {
      MoveCounts(close, lo, hi - 1);
    }
  }

  /** What row k adds to the gain and loss sums: nothing negative, and something positive
      exactly when the close changed into row k. */
  lemma MoveAddends(close: seq<real>, k: nat)
    requires k < |close|
    ensures Addend(Gains(close)[k]) >= 0.0 && Addend(Losses(close)[k]) >= 0.0
    ensures Addend(Gains(close)[k]) + Addend(Losses(close)[k]) > 0.0 <==> Moved(close, k)
  {
    var m := Move(close, k);
    assert Gains(close)[k] == m.0 && Losses(close)[k] == m.1;
  }

  /** The close changed somewhere in rows lo..hi-1 iff it changed in lo..hi-2 or at hi-1. */
  lemma MovedSplit(close: seq<real>, lo: nat, hi: nat)
    requires lo < hi
    ensures (exists k :: lo <= k < hi && Moved(close, k))
        <==> (exists k :: lo <= k < hi - 1 && Moved(close, k)) || Moved(close, hi - 1)
  {
    if exists k :: lo <= k < hi && Moved(close, k) {
      var k :| lo <= k < hi && Moved(close, k);
      if k < hi - 1 {
        assert exists j :: lo <= j < hi - 1 && Moved(close, j);
      }
    }
  }

  /** Both window sums are non-negative, and together they are positive exactly when the
      close changes at some row of the window. */
  lemma {:induction false} MoveSums(close: seq<real>, lo: nat, hi: nat)
    requires lo <= hi <= |close|
    ensures SumIn(Gains(close), lo, hi) >= 0.0 && SumIn(Losses(close), lo, hi) >= 0.0
    ensures SumIn(Gains(close), lo, hi) + SumIn(Losses(close), lo, hi) > 0.0
        <==> exists k :: lo <= k < hi && Moved(close, k)
    decreases hi - lo
  {
    if lo < hi {
      MoveSums(close, lo, hi - 1);
      MoveAddends(close, hi - 1);
      MovedSplit(close, lo, hi);
    }
  }

  /** RSI at row t over a window of `window` rows, needing `minPeriods` gains in the window. */
  function Rsi(close: seq<real>, window: nat, minPeriods: nat, t: nat): (r: Cell)
    requires t < |close| && 1 <= minPeriods <= window
    ensures r.Num? ==> 0.0 <= r.val <= 100.0
  {
    AveragesNonNegative(close, window, minPeriods, t);
    RsiFromAverages(RollingMean(Gains(close), window, minPeriods, t),
                    RollingMean(Losses(close), window, minPeriods, t))
  }

  lemma AveragesNonNegative(close: seq<real>, window: nat, minPeriods: nat, t: nat)
    requires t < |close| && 1 <= minPeriods <= window
    ensures var g := RollingMean(Gains(close), window, minPeriods, t); g.Num? ==> g.val >= 0.0
    ensures var l := RollingMean(Losses(close), window, minPeriods, t); l.Num? ==> l.val >= 0.0
  {
    MoveSums(close, WindowStart(window, t), t + 1);
  }

  /** RSI is defined exactly when its window holds at least `minPeriods` gains and the close
      moved at some row of the window; a defined RSI lies in [0, 100]. (It is 100 when no row of
      the window fell: `RsiHundred`.) */
  lemma RsiDefined(close: seq<real>, window: nat, minPeriods: nat, t: nat)
    requires t < |close| && 1 <= minPeriods <= window
    ensures Rsi(close, window, minPeriods, t).Num? <==>
      RowsWithMove(window, t) >= minPeriods && exists k :: WindowStart(window, t) <= k <= t && Moved(close, k)
    ensures var r := Rsi(close, window, minPeriods, t); r.Num? ==> 0.0 <= r.val <= 100.0
  {
    var lo := WindowStart(window, t);
    MoveCounts(close, lo, t + 1);
    MoveSums(close, lo, t + 1);
    AveragesNonNegative(close, window, minPeriods, t);
    var n := CountIn(Gains(close), lo, t + 1);
    assert n == RowsWithMove(window, t);
    var g := RollingMean(Gains(close), window, minPeriods, t);
    var l := RollingMean(Losses(close), window, minPeriods, t);
    var moved := exists k :: lo <= k <= t && Moved(close, k);
    assert moved <==> exists k :: lo <= k < t + 1 && Moved(close, k);
    if n >= minPeriods {
      var sg := SumIn(Gains(close), lo, t + 1);
      var sl := SumIn(Losses(close), lo, t + 1);
      assert g == Num(sg / n as real) && l == Num(sl / n as real);
      PositiveMean(sg, sl, n as real);
      assert g.val + l.val > 0.0 <==> moved;
    } else {
      assert g == NaN;
    }
  }

  /** A window in which the close never fell sums to zero loss. */
  lemma {:induction false} NoFallNoLoss(close: seq<real>, lo: nat, hi: nat)
    requires lo <= hi <= |close|
    requires forall k :: lo <= k < hi && 1 <= k ==> close[k] >= close[k - 1]
    ensures SumIn(Losses(close), lo, hi) == 0.0
    decreases hi - lo
  {
    if lo < hi {
      NoFallNoLoss(close, lo, hi - 1);
      var m := Move(close, hi - 1);
      assert Losses(close)[hi - 1] == m.1;
    }
  }

  /** When the close fell at no row of the window, a defined RSI is exactly 100: the average
      loss is 0, so `avg_gain / avg_loss` is infinite. */
  lemma RsiHundred(close: seq<real>, window: nat, minPeriods: nat, t: nat)
    requires t < |close| && 1 <= minPeriods <= window
    requires forall k :: WindowStart(window, t) <= k <= t && 1 <= k ==> close[k] >= close[k - 1]
    ensures var r := Rsi(close, window, minPeriods, t); r.Num? ==> r.val == 100.0
  {
    NoFallNoLoss(close, WindowStart(window, t), t + 1);
    AveragesNonNegative(close, window, minPeriods, t);
  }

  lemma PositiveMean(sg: real, sl: real, n: real)
    requires n > 0.0
    ensures sg / n + sl / n > 0.0 <==> sg + sl > 0.0
  {
    assert sg / n + sl / n == (sg + sl) / n;
  }

  /** RSI at row t reads no close after row t. */
  lemma RsiAgree(c1: seq<real>, c2: seq<real>, window: nat, minPeriods: nat, t: nat)
    requires t < |c1| && t < |c2| && 1 <= minPeriods <= window
    requires forall k :: 0 <= k <= t ==> c1[k] == c2[k]
    ensures Rsi(c1, window, minPeriods, t) == Rsi(c2, window, minPeriods, t)
  {
    assert forall k :: 0 <= k <= t ==> Gains(c1)[k] == Gains(c2)[k] && Losses(c1)[k] == Losses(c2)[k];
    RollingMeanAgree(Gains(c1), Gains(c2), window, minPeriods, t);
    RollingMeanAgree(Losses(c1), Losses(c2), window, minPeriods, t);
  }

  /** Sum of a column of closes. */
  function Total(xs: seq<real>): real
  {
    if xs == [] then 0.0 else Total(xs[..|xs| - 1]) + xs[|xs| - 1]
  }

  /** Rolling mean of the closes at row i (`Close.rolling(window, min_periods).mean()`). */
  function MovingAverage(close: seq<real>, window: nat, minPeriods: nat, i: nat): Cell
    requires i < |close| && 1 <= minPeriods <= window
  {
    RollingMean(Nums(close), window, minPeriods, i)
  }

  lemma {:induction false} SumInNums(close: seq<real>, lo: nat, hi: nat)
    requires lo <= hi <= |close|
    ensures SumIn(Nums(close), lo, hi) == Total(close[lo..hi])
    decreases hi - lo
  {
    if lo < hi {
      SumInNums(close, lo, hi - 1);
      assert close[lo..hi][..hi - 1 - lo] == close[lo..hi - 1];
    }
  }

  /** A moving average of closes is defined once its window holds `minPeriods` rows, and is
      then the mean of the closes of rows max(0, i - window + 1) through i. */
  lemma MovingAverageMean(close: seq<real>, window: nat, minPeriods: nat, i: nat)
    requires i < |close| && 1 <= minPeriods <= window
    ensures var lo := WindowStart(window, i); var r := MovingAverage(close, window, minPeriods, i);
      (r.Num? <==> i + 1 - lo >= minPeriods)
      && (r.Num? ==> r.val == Total(close[lo..i + 1]) / (i + 1 - lo) as real)
  {
    var lo := WindowStart(window, i);
    assert CountIn(Nums(close), lo, i + 1) == i + 1 - lo;
    SumInNums(close, lo, i + 1);
  }

  /** A moving average of closes lies between any bounds of the closes in its window. */
  lemma MovingAverageWithin(close: seq<real>, window: nat, minPeriods: nat, i: nat, a: real, b: real)
    requires i < |close| && 1 <= minPeriods <= window
    requires forall k :: WindowStart(window, i) <= k <= i ==> a <= close[k] <= b
    ensures var r := MovingAverage(close, window, minPeriods, i); r.Num? ==> a <= r.val <= b
  {
    RollingMeanWithin(Nums(close), window, minPeriods, i, a, b);
  }

  /** A moving average of closes at row i reads no close after row i. */
  lemma MovingAverageAgree(c1: seq<real>, c2: seq<real>, window: nat, minPeriods: nat, i: nat)
    requires i < |c1| && i < |c2| && 1 <= minPeriods <= window
    requires forall k :: 0 <= k <= i ==> c1[k] == c2[k]
    ensures MovingAverage(c1, window, minPeriods, i) == MovingAverage(c2, window, minPeriods, i)
  {
    RollingMeanAgree(Nums(c1), Nums(c2), window, minPeriods, i);
  }

  /** While row i is inside both windows, a short and a long moving average average the same
      prefix of the closes and so agree. */
  lemma ShortWindowsAgree(close: seq<real>, short: nat, long: nat, minPeriods: nat, i: nat)
    requires i < |close| && 1 <= minPeriods <= short && minPeriods <= long
    requires i < short && i < long
    ensures MovingAverage(close, short, minPeriods, i) == MovingAverage(close, long, minPeriods, i)
  {
    assert WindowStart(short, i) == 0 == WindowStart(long, i);
  }
}
