/** Column operations of the data-frame library, as the pipeline uses them, over exact reals.
    A floating-point column is a sequence of cells; a cell is a number or NaN, the library's
    "no value" marker. Rolling means skip NaN cells; comparisons with NaN are false. */
module Series {

  /** One cell of a floating-point column. `NaN` also stands for the non-finite results of a
      float division by zero. */
  datatype Cell = NaN | Num(val: real)

  /** A column without missing values. */
  function Nums(xs: seq<real>): seq<Cell>
  {
    seq(|xs|, k requires 0 <= k < |xs| => Num(xs[k]))
  }

  /** What a cell adds to a NaN-skipping sum. */
  function Addend(c: Cell): real
  {
    if c.Num? then c.val else 0.0
  }

  /** Number of non-NaN cells among xs[lo..hi]. */
  function CountIn(xs: seq<Cell>, lo: nat, hi: nat): (n: nat)
    requires lo <= hi <= |xs|
    ensures n <= hi - lo
    ensures n == hi - lo <==> forall k :: lo <= k < hi ==> xs[k].Num?
    decreases hi - lo
  {
    if lo == hi then 0 else CountIn(xs, lo, hi - 1) + (if xs[hi - 1].Num? then 1 else 0)
  }

  /** NaN-skipping sum of xs[lo..hi]. */
  function SumIn(xs: seq<Cell>, lo: nat, hi: nat): real
    requires lo <= hi <= |xs|
    decreases hi - lo
  {
    if lo == hi then 0.0 else SumIn(xs, lo, hi - 1) + Addend(xs[hi - 1])
  }

  /** First row of the trailing window of `window` rows that ends at row i; near the top of
      the column the window is cut short at row 0. */
  function WindowStart(window: nat, i: nat): nat
  {
    if i + 1 >= window then i + 1 - window else 0
  }

  /** `rolling(window, min_periods).mean()` at row i: the mean of the non-NaN cells of the
      window that ends at row i, or NaN when fewer than `minPeriods` of them are present. */
  function RollingMean(xs: seq<Cell>, window: nat, minPeriods: nat, i: nat): (r: Cell)
    requires i < |xs| && 1 <= minPeriods <= window
    ensures r.Num? ==> i + 1 >= minPeriods
    ensures (forall k :: WindowStart(window, i) <= k <= i ==> xs[k].Num?) ==>
      (r.Num? <==> i + 1 >= minPeriods)
  {
    var lo := WindowStart(window, i);
    var n := CountIn(xs, lo, i + 1);
    if n >= minPeriods then Num(SumIn(xs, lo, i + 1) / n as real) else NaN
  }

  /** n copies of a, added up. */
  function Times(n: nat, a: real): real
  {
    if n == 0 then 0.0 else Times(n - 1, a) + a
  }

  lemma {:induction false} TimesIsProduct(n: nat, a: real)
    ensures Times(n, a) == n as real * a
  {
    if n > 0 {
      TimesIsProduct(n - 1, a);
      assert n as real * a == (n - 1) as real * a + a;
    }
  }

  /** A NaN-skipping sum of values in [a, b] lies between count copies of a and of b. */
  lemma {:induction false} SumInWithin(xs: seq<Cell>, lo: nat, hi: nat, a: real, b: real)
    requires lo <= hi <= |xs|
    requires forall k :: lo <= k < hi && xs[k].Num? ==> a <= xs[k].val <= b
    ensures Times(CountIn(xs, lo, hi), a) <= SumIn(xs, lo, hi) <= Times(CountIn(xs, lo, hi), b)
    decreases hi - lo
  {
    if lo < hi {
      SumInWithin(xs, lo, hi - 1, a, b);
    }
  }

  lemma ProductNonNegative(f: real, g: real)
    requires f >= 0.0 && g >= 0.0
    ensures f * g >= 0.0
  {
  }

  /** A mean of n values that all lie in [a, b] lies in [a, b]. */
  lemma MeanWithin(sum: real, n: real, a: real, b: real)
    requires n > 0.0 && n * a <= sum <= n * b
    ensures a <= sum / n <= b
  {
    assert (sum - n * a) / n >= 0.0;
    assert (n * b - sum) / n >= 0.0;
  }

  /** A sum of n values in [a, b], divided by n, lies in [a, b]. */
  lemma MeanOfSumWithin(n: nat, sum: real, a: real, b: real)
    requires n >= 1 && Times(n, a) <= sum <= Times(n, b)
    ensures a <= sum / n as real <= b
  {
    TimesIsProduct(n, a);
    TimesIsProduct(n, b);
    MeanWithin(sum, n as real, a, b);
  }

  /** A rolling mean stays within any bounds that hold for the non-NaN cells of its window. */
  lemma RollingMeanWithin(xs: seq<Cell>, window: nat, minPeriods: nat, i: nat, a: real, b: real)
    requires i < |xs| && 1 <= minPeriods <= window
    requires forall k :: WindowStart(window, i) <= k <= i && xs[k].Num? ==> a <= xs[k].val <= b
    ensures var r := RollingMean(xs, window, minPeriods, i); r.Num? ==> a <= r.val <= b
  {
    var lo := WindowStart(window, i);
    var n := CountIn(xs, lo, i + 1);
    if n >= minPeriods {
      var sum := SumIn(xs, lo, i + 1);
      SumInWithin(xs, lo, i + 1, a, b);
      MeanOfSumWithin(n, sum, a, b);
      assert RollingMean(xs, window, minPeriods, i) == Num(sum / n as real);
    }
  }

  lemma {:induction false} SumInAgree(xs: seq<Cell>, ys: seq<Cell>, lo: nat, hi: nat)
    requires lo <= hi <= |xs| && hi <= |ys|
    requires forall k :: lo <= k < hi ==> xs[k] == ys[k]
    ensures CountIn(xs, lo, hi) == CountIn(ys, lo, hi)
    ensures SumIn(xs, lo, hi) == SumIn(ys, lo, hi)
    decreases hi - lo
  {
    if lo < hi {
      SumInAgree(xs, ys, lo, hi - 1);
    }
  }

  /** A rolling mean at row i reads no row after i. */
  lemma RollingMeanAgree(xs: seq<Cell>, ys: seq<Cell>, window: nat, minPeriods: nat, i: nat)
    requires i < |xs| && i < |ys| && 1 <= minPeriods <= window
    requires forall k :: 0 <= k <= i ==> xs[k] == ys[k]
    ensures RollingMean(xs, window, minPeriods, i) == RollingMean(ys, window, minPeriods, i)
  {
    SumInAgree(xs, ys, WindowStart(window, i), i + 1);
  }

  /** Smoothing factor of `ewm(span=span)`. */
  function Alpha(span: nat): (a: real)
    requires span >= 1
    ensures 0.0 < a <= 1.0
  {
    2.0 / (span as real + 1.0)
  }

  /** `ewm(span=span, adjust=False).mean()` at row t: seeded with the first value, then
      y[t] = a * x[t] + (1 - a) * y[t - 1]. */
  function Ewm(xs: seq<real>, span: nat, t: nat): real
    requires span >= 1 && t < |xs|
    decreases t
  {
    if t == 0 then xs[0] else Alpha(span) * xs[t] + (1.0 - Alpha(span)) * Ewm(xs, span, t - 1)
  }

  /** The whole `ewm(span=span, adjust=False).mean()` column: one value per row, seeded with
      the first value. */
  function EwmColumn(xs: seq<real>, span: nat): (ys: seq<real>)
    requires span >= 1
    ensures |ys| == |xs|
    ensures |xs| > 0 ==> ys[0] == xs[0]
  {
    seq(|xs|, t requires 0 <= t < |xs| => Ewm(xs, span, t))
  }

  /** An exponential moving average is a convex combination of the values so far, so it stays
      within any bounds that hold for them. */
  lemma {:induction false} EwmWithin(xs: seq<real>, span: nat, t: nat, a: real, b: real)
    requires span >= 1 && t < |xs|
    requires forall k :: 0 <= k <= t ==> a <= xs[k] <= b
    ensures a <= Ewm(xs, span, t) <= b
    decreases t
  {
    if t > 0 {
      EwmWithin(xs, span, t - 1, a, b);
      var al := Alpha(span);
      var prev := Ewm(xs, span, t - 1);
      assert Ewm(xs, span, t) == al * xs[t] + (1.0 - al) * prev;
      ConvexWithin(al, xs[t], prev, a, b);
    }
  }

  /** A convex combination of two values in [a, b] lies in [a, b]. */
  lemma ConvexWithin(al: real, x: real, p: real, a: real, b: real)
    requires 0.0 < al <= 1.0 && a <= x <= b && a <= p <= b
    ensures a <= al * x + (1.0 - al) * p <= b
  {
    ProductNonNegative(al, x - a);
    ProductNonNegative(1.0 - al, p - a);
    ProductNonNegative(al, b - x);
    ProductNonNegative(1.0 - al, b - p);
    assert al * x + (1.0 - al) * p - a == al * (x - a) + (1.0 - al) * (p - a);
    assert b - (al * x + (1.0 - al) * p) == al * (b - x) + (1.0 - al) * (b - p);
  }

  /** The exponential moving average of a constant column is that constant. */
  lemma EwmOfConstant(xs: seq<real>, span: nat, t: nat, c: real)
    requires span >= 1 && t < |xs|
    requires forall k :: 0 <= k <= t ==> xs[k] == c
    ensures Ewm(xs, span, t) == c
  {
    EwmWithin(xs, span, t, c, c);
  }

  /** The exponential moving average at row t reads no row after t. */
  lemma {:induction false} EwmAgree(xs: seq<real>, ys: seq<real>, span: nat, t: nat)
    requires span >= 1 && t < |xs| && t < |ys|
    requires forall k :: 0 <= k <= t ==> xs[k] == ys[k]
    ensures Ewm(xs, span, t) == Ewm(ys, span, t)
    decreases t
  {
    if t > 0 {
      EwmAgree(xs, ys, span, t - 1);
    }
  }

  /** `shift(-1)`: every row takes the next row's value, and the last row gets NaN. */
  function ShiftUp(xs: seq<real>): (r: seq<Cell>)
    ensures |r| == |xs|
    ensures forall k :: 0 <= k < |xs| - 1 ==> r[k] == Num(xs[k + 1])
    ensures |xs| > 0 ==> r[|xs| - 1] == NaN
  {
    seq(|xs|, k requires 0 <= k < |xs| => if k + 1 < |xs| then Num(xs[k + 1]) else NaN)
  }

  /** Elementwise `c > x`; a comparison with NaN is false. */
  predicate Above(c: Cell, x: real)
  {
    c.Num? && c.val > x
  }

  /** Elementwise `c < x`; a comparison with NaN is false. */
  predicate Below(c: Cell, x: real)
  {
    c.Num? && c.val < x
  }
}
