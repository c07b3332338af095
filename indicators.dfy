/** The indicator engine of `CryptoDataProcessor`: trailing-window Bollinger bands, the
    RSI, and the filtering of rows whose indicators are still undefined.

    Every operation is a pure function on a copied frame: it returns a new sequence with
    the same rows in the same order and the new columns attached. */
module Indicators {
  import opened Frames

  /** The arguments `get_processed_data` uses (the defaults of the two indicator methods). */
  const Window: nat := 20
  const NumStdDev: real := 2.0
  const RsiPeriod: nat := 14

  /** The sample standard deviation (`ddof=1`) of a window of at least two values is left
      abstract (it needs a square root): any function that never returns a negative value. */
  type StdDev = f: seq<real> -> real | forall xs :: 0.0 <= f(xs) witness (xs: seq<real>) => 0.0

  // ---------------------------------------------------------------------------
  // Sums and means

  function Sum(xs: seq<real>): real
  {
    if xs == [] then 0.0 else Sum(xs[..|xs| - 1]) + xs[|xs| - 1]
  }

  function Mean(xs: seq<real>): (m: real)
    requires xs != []
    ensures m * (|xs| as real) == Sum(xs)
  {
    Sum(xs) / (|xs| as real)
  }

  lemma {:induction false} SumAtLeast(xs: seq<real>, lo: real)
    requires forall k :: 0 <= k < |xs| ==> lo <= xs[k]
    ensures lo * (|xs| as real) <= Sum(xs)
  {
    if xs != [] {
      var n := |xs| - 1;
      SumAtLeast(xs[..n], lo);
      assert lo * ((n + 1) as real) == lo * (n as real) + lo;
    }
  }

  lemma {:induction false} SumAtMost(xs: seq<real>, hi: real)
    requires forall k :: 0 <= k < |xs| ==> xs[k] <= hi
    ensures Sum(xs) <= hi * (|xs| as real)
  {
    if xs != [] {
      var n := |xs| - 1;
      SumAtMost(xs[..n], hi);
      assert hi * ((n + 1) as real) == hi * (n as real) + hi;
    }
  }

  lemma {:induction false} SumPositive(xs: seq<real>, k: nat)
    requires forall j :: 0 <= j < |xs| ==> 0.0 <= xs[j]
    requires k < |xs| && 0.0 < xs[k]
    ensures 0.0 < Sum(xs)
  {
    var n := |xs| - 1;
    SumAtLeast(xs[..n], 0.0);
    if k < n {
      SumPositive(xs[..n], k);
    }
  }

  /** A mean lies between any lower and upper bound of the values averaged. */
  lemma MeanBounds(xs: seq<real>, lo: real, hi: real)
    requires xs != []
    requires forall k :: 0 <= k < |xs| ==> lo <= xs[k] <= hi
    ensures lo <= Mean(xs) <= hi
  {
    var n := |xs| as real;
    var m := Mean(xs);
    SumAtLeast(xs, lo);
    SumAtMost(xs, hi);
    assert m * n == Sum(xs);
    ScaleDown(lo, m, n);
    ScaleDown(m, hi, n);
  }

  lemma ScaleDown(a: real, b: real, n: real)
    requires 0.0 < n && a * n <= b * n
    ensures a <= b
  {
    assert b - a == (b * n - a * n) / n;
  }

  // ---------------------------------------------------------------------------
  // Rolling windows (`Series.rolling(window=w)` with the default `min_periods=w`)

  /** The `w` values ending at position `i`. */
  function Trailing(xs: seq<real>, w: nat, i: nat): (win: seq<real>)
    requires w <= i + 1 <= |xs|
    ensures |win| == w
    ensures forall j :: 0 <= j < w ==> win[j] == xs[i + 1 - w + j]
  {
    xs[i + 1 - w .. i + 1]
  }

  /** `rolling(window=w).mean()` at position `i`: NaN until `w` values are available. */
  function RollingMean(xs: seq<real>, w: nat, i: nat): (m: Option<real>)
    requires i < |xs|
    ensures m.Some? <==> 0 < w <= i + 1
    ensures m.Some? ==> m.value * (w as real) == Sum(Trailing(xs, w, i))
  {
    if 0 < w <= i + 1 then Some(Mean(Trailing(xs, w, i))) else None
  }

  /** `rolling(window=w).std()` at position `i`: the sample standard deviation, NaN until
      `w` values are available and NaN for a one-value window (`ddof=1` divides by 0). */
  function RollingStdDev(stdDev: StdDev, xs: seq<real>, w: nat, i: nat): (s: Option<real>)
    requires i < |xs|
    ensures s.Some? <==> 2 <= w <= i + 1
    ensures s.Some? ==> s.value == stdDev(Trailing(xs, w, i)) && 0.0 <= s.value
  {
    if 2 <= w <= i + 1 then Some(stdDev(Trailing(xs, w, i))) else None
  }

  function Closes(bars: seq<Bar>): (c: seq<real>)
    ensures |c| == |bars|
    ensures forall i :: 0 <= i < |bars| ==> c[i] == bars[i].close
  {
    seq(|bars|, i requires 0 <= i < |bars| => bars[i].close)
  }

  function Bars(df: seq<BandRow>): (b: seq<Bar>)
    ensures |b| == |df|
    ensures forall i :: 0 <= i < |df| ==> b[i] == df[i].bar
  {
    seq(|df|, i requires 0 <= i < |df| => df[i].bar)
  }

  // ---------------------------------------------------------------------------
  // Bollinger bands

  /** `avg + std * k`, NaN if either operand is. */
  function Offset(avg: Option<real>, std: Option<real>, k: real): Option<real>
  {
    if avg.Some? && std.Some? then Some(avg.value + std.value * k) else None
  }

  /** The bands of a row are `avg ± numStdDev * std`, and are defined exactly where the
      moving average and the moving std dev both are. */
  predicate BandsAround(r: BandRow, numStdDev: real)
  {
    && (r.upperBand.Some? <==> r.movingAvg.Some? && r.movingStdDev.Some?)
    && (r.lowerBand.Some? <==> r.upperBand.Some?)
    && (r.upperBand.Some? ==>
          && r.upperBand.value == r.movingAvg.value + numStdDev * r.movingStdDev.value
          && r.lowerBand.value == r.movingAvg.value - numStdDev * r.movingStdDev.value)
  }

  /** Row `i` of the band frame: the bar, the rolling figures of the closes, and the
      bands `avg ± numStdDev * std`, defined exactly where both figures are. */
  function BandsAt(closes: seq<real>, stdDev: StdDev, window: nat, numStdDev: real, bar: Bar, i: nat): (r: BandRow)
    requires i < |closes|
    ensures r.bar == bar
    ensures r.movingAvg == RollingMean(closes, window, i)
    ensures r.movingStdDev == RollingStdDev(stdDev, closes, window, i)
    ensures BandsAround(r, numStdDev)
  {
    var avg := RollingMean(closes, window, i);
    var std := RollingStdDev(stdDev, closes, window, i);
    BandRow(bar, avg, std, Offset(avg, std, numStdDev), Offset(avg, std, -numStdDev))
  }

  /** `calculate_bollinger_bands`: a copy of the frame with `moving_avg`, `moving_std_dev`,
      `upper_band` and `lower_band` added; rows and their other columns are unchanged. */
  function CalculateBollingerBands(bars: seq<Bar>, stdDev: StdDev, window: nat, numStdDev: real): (df: seq<BandRow>)
    ensures |df| == |bars|
    ensures forall i :: 0 <= i < |bars| ==>
      && df[i].bar == bars[i]
      && df[i].movingAvg == RollingMean(Closes(bars), window, i)
      && df[i].movingStdDev == RollingStdDev(stdDev, Closes(bars), window, i)
    ensures forall i :: 0 <= i < |bars| ==> BandsAround(df[i], numStdDev)
  {
    var closes := Closes(bars);
    seq(|bars|, i requires 0 <= i < |bars| => BandsAt(closes, stdDev, window, numStdDev, bars[i], i))
  }

  /** Which rows have their band cells: the moving average from row `window - 1` on, and
      the std dev and both bands from that row on when the window holds at least two
      rows (a one-row window has no sample standard deviation, so no bands). */
  lemma BandsWindowRule(bars: seq<Bar>, stdDev: StdDev, window: nat, numStdDev: real, i: nat)
    requires i < |bars|
    ensures var r := CalculateBollingerBands(bars, stdDev, window, numStdDev)[i];
      && (r.movingAvg.Some? <==> 0 < window <= i + 1)
      && (r.movingStdDev.Some? <==> 2 <= window <= i + 1)
      && (r.upperBand.Some? <==> 2 <= window <= i + 1)
      && (r.lowerBand.Some? <==> 2 <= window <= i + 1)
  {
  }

  /** The moving average stays within the range of the closes it averages. */
  lemma MovingAvgWithinWindow(bars: seq<Bar>, stdDev: StdDev, window: nat, numStdDev: real, i: nat, lo: real, hi: real)
    requires 0 < window <= i + 1 <= |bars|
    requires forall j :: i + 1 - window <= j <= i ==> lo <= bars[j].close <= hi
    ensures var r := CalculateBollingerBands(bars, stdDev, window, numStdDev)[i];
      r.movingAvg.Some? && lo <= r.movingAvg.value <= hi
  {
    var closes := Closes(bars);
    var win := Trailing(closes, window, i);
    forall k | 0 <= k < |win| ensures lo <= win[k] <= hi {
      assert win[k] == bars[i + 1 - window + k].close;
    }
    MeanBounds(win, lo, hi);
    assert BandsAt(closes, stdDev, window, numStdDev, bars[i], i).movingAvg == Some(Mean(win));
    assert CalculateBollingerBands(bars, stdDev, window, numStdDev)[i] == BandsAt(closes, stdDev, window, numStdDev, bars[i], i);
  }

  /** With a non-negative multiplier the bands bracket the moving average, and the two
      bands meet exactly when the standard deviation is 0 (for a positive multiplier). */
  lemma BandOrdering(bars: seq<Bar>, stdDev: StdDev, window: nat, numStdDev: real, i: nat)
    requires i < |bars| && 0.0 <= numStdDev
    ensures BandsBracket(CalculateBollingerBands(bars, stdDev, window, numStdDev)[i], numStdDev)
  {
    var df := CalculateBollingerBands(bars, stdDev, window, numStdDev);
    RowOrdering(df[i], numStdDev);
  }

  /** Where a row has bands, they bracket the moving average symmetrically, and (for a
      positive multiplier) meet exactly when the std dev is 0. */
  predicate BandsBracket(r: BandRow, numStdDev: real)
  {
    r.upperBand.Some? ==>
      && r.lowerBand.Some? && r.movingAvg.Some? && r.movingStdDev.Some?
      && r.lowerBand.value <= r.movingAvg.value <= r.upperBand.value
      && r.upperBand.value - r.movingAvg.value == r.movingAvg.value - r.lowerBand.value
      && (0.0 < numStdDev ==> (r.lowerBand.value == r.upperBand.value <==> r.movingStdDev.value == 0.0))
  }

  /** The ordering, for one row whose bands are built around a non-negative std dev. */
  lemma RowOrdering(r: BandRow, numStdDev: real)
    requires BandsAround(r, numStdDev) && 0.0 <= numStdDev
    requires r.movingStdDev.Some? ==> 0.0 <= r.movingStdDev.value
    ensures BandsBracket(r, numStdDev)
  {
    if r.upperBand.Some? {
      BandArithmetic(r.movingAvg.value, r.movingStdDev.value, numStdDev, r.upperBand.value, r.lowerBand.value);
    }
  }

  /** `a - k·s <= a <= a + k·s` for non-negative `k` and `s`, symmetric, and (for `k > 0`)
      the two meet exactly when `s` is 0. */
  lemma BandArithmetic(a: real, s: real, k: real, upper: real, lower: real)
    requires 0.0 <= k && 0.0 <= s
    requires upper == a + k * s && lower == a - k * s
    ensures lower <= a <= upper
    ensures upper - a == a - lower
    ensures 0.0 < k ==> (lower == upper <==> s == 0.0)
  {
    var p := k * s;
    assert 0.0 <= p;
    if 0.0 < k && p == 0.0 {
      assert s == p / k;
    }
  }

  // ---------------------------------------------------------------------------
  // RSI

  /** `diff()` at position `i`: NaN on the first row. */
  function Delta(closes: seq<real>, i: nat): Option<real>
    requires i < |closes|
  {
    if i == 0 then None else Some(closes[i] - closes[i - 1])
  }

  /** `delta.where(delta > 0, 0)`: NaN fails the test, so it becomes 0 too. */
  function Up(d: Option<real>): (u: real)
    ensures 0.0 <= u
  {
    if d.Some? && d.value > 0.0 then d.value else 0.0
  }

  /** `-delta.where(delta < 0, 0)`: the size of a fall, 0 for a rise, no change or NaN. */
  function Down(d: Option<real>): (u: real)
    ensures 0.0 <= u
  {
    if d.Some? && d.value < 0.0 then -d.value else 0.0
  }

  function Gains(closes: seq<real>): (g: seq<real>)
    ensures |g| == |closes|
    ensures forall i :: 0 <= i < |closes| ==> g[i] == Up(Delta(closes, i))
  {
    seq(|closes|, i requires 0 <= i < |closes| => Up(Delta(closes, i)))
  }

  function Losses(closes: seq<real>): (l: seq<real>)
    ensures |l| == |closes|
    ensures forall i :: 0 <= i < |closes| ==> l[i] == Down(Delta(closes, i))
  {
    seq(|closes|, i requires 0 <= i < |closes| => Down(Delta(closes, i)))
  }

  /** A rise counts only as a gain and a fall only as a loss: their difference is the
      change of the close, and at most one of them is non-zero. */
  lemma GainsLossesSplit(closes: seq<real>, i: nat)
    requires i < |closes|
    ensures Gains(closes)[i] == 0.0 || Losses(closes)[i] == 0.0
    ensures i == 0 ==> Gains(closes)[i] == 0.0 && Losses(closes)[i] == 0.0
    ensures 0 < i ==> Gains(closes)[i] - Losses(closes)[i] == closes[i] - closes[i - 1]
  {
  }

  /** `100 - 100 / (1 + gain / loss)` in floating point, `None` standing for NaN.  A zero
      loss makes `gain / loss` infinite, so the RSI is 100, unless the gain is 0 as well,
      which makes it NaN.  The `1 + gain / loss == 0` branch needs a negative average, which
      the rolling means of gains and losses never are (`RsiColumn`), so it is never taken;
      floating point would give -inf there rather than NaN. */
  function Rsi(gain: Option<real>, loss: Option<real>): (r: Option<real>)
    ensures r.Some? ==> gain.Some? && loss.Some?
    ensures gain.Some? && loss.Some? && loss.value == 0.0 ==>
      (r.None? <==> gain.value == 0.0) && (r.Some? ==> r.value == 100.0)
  {
    if gain.None? || loss.None? then None
    else if loss.value != 0.0 then
      var rs := gain.value / loss.value;
      if 1.0 + rs == 0.0 then None else Some(100.0 - 100.0 / (1.0 + rs))
    else if gain.value == 0.0 then None
    else Some(100.0)
  }

  /** For non-negative averages the RSI is `100 * gain / (gain + loss)`: in [0, 100) when
      there are losses, exactly 100 when there are only gains, undefined when neither. */
  lemma RsiRange(g: real, l: real)
    requires 0.0 <= g && 0.0 <= l
    ensures var r := Rsi(Some(g), Some(l));
      && (r.Some? <==> 0.0 < g + l)
      && (r.Some? ==> r.value * (g + l) == 100.0 * g)
      && (0.0 < l ==> r.Some? && 0.0 <= r.value < 100.0)
      && (l == 0.0 < g ==> r == Some(100.0))
  {
    if 0.0 < l {
      var rs := g / l;
      assert rs * l == g;
      assert 0.0 <= rs;
      var v := 100.0 - 100.0 / (1.0 + rs);
      assert (1.0 + rs) * l == g + l;
      assert (100.0 / (1.0 + rs)) * (1.0 + rs) == 100.0;
      assert 0.0 < 100.0 / (1.0 + rs) <= 100.0;
      calc {
        v * (g + l);
        (100.0 - 100.0 / (1.0 + rs)) * ((1.0 + rs) * l);
        100.0 * (1.0 + rs) * l - (100.0 / (1.0 + rs)) * (1.0 + rs) * l;
        100.0 * (1.0 + rs) * l - 100.0 * l;
        100.0 * g;
      }
    }
  }

  function IndicatorRowAt(df: seq<BandRow>, gains: seq<real>, losses: seq<real>, period: nat,
                          overSold: real, overBought: real, i: nat): IndicatorRow
    requires |gains| == |losses| == |df| && i < |df|
  {
    IndicatorRow(df[i], Rsi(RollingMean(gains, period, i), RollingMean(losses, period, i)), overSold, overBought)
  }

  /** `calculate_rsi`: a copy of the frame with `rsi`, `over_sold` and `over_bought` added;
      every row gets the same two thresholds and keeps its other columns. */
  function CalculateRsi(df: seq<BandRow>, period: nat, overSold: real, overBought: real): (out: seq<IndicatorRow>)
    ensures |out| == |df|
    ensures forall i :: 0 <= i < |df| ==>
      out[i].bands == df[i] && out[i].overSold == overSold && out[i].overBought == overBought
  {
    var closes := Closes(Bars(df));
    var gains, losses := Gains(closes), Losses(closes);
    seq(|df|, i requires 0 <= i < |df| => IndicatorRowAt(df, gains, losses, period, overSold, overBought, i))
  }

  /** The gain and loss averages at row `i` are defined from row `period - 1` on (the
      missing first delta counts as 0), are never negative, and give the row its RSI. */
  lemma RsiColumn(df: seq<BandRow>, period: nat, overSold: real, overBought: real, i: nat)
    requires i < |df|
    ensures var closes := Closes(Bars(df));
      var g := RollingMean(Gains(closes), period, i);
      var l := RollingMean(Losses(closes), period, i);
      var r := CalculateRsi(df, period, overSold, overBought)[i].rsi;
      && (g.Some? <==> 0 < period <= i + 1) && (l.Some? <==> g.Some?)
      && (g.Some? ==> 0.0 <= g.value && 0.0 <= l.value)
      && r == Rsi(g, l)
      && (r.Some? <==> g.Some? && 0.0 < g.value + l.value)
      && (r.Some? ==> 0.0 <= r.value <= 100.0)
  {
    var closes := Closes(Bars(df));
    var g := RollingMean(Gains(closes), period, i);
    var l := RollingMean(Losses(closes), period, i);
    if g.Some? {
      var gw := Trailing(Gains(closes), period, i);
      var lw := Trailing(Losses(closes), period, i);
      assert forall k :: 0 <= k < |gw| ==> 0.0 <= gw[k];
      assert forall k :: 0 <= k < |lw| ==> 0.0 <= lw[k];
      NonNegativeMean(gw);
      NonNegativeMean(lw);
      RsiRange(g.value, l.value);
    }
  }

  lemma NonNegativeMean(xs: seq<real>)
    requires xs != []
    requires forall k :: 0 <= k < |xs| ==> 0.0 <= xs[k]
    ensures 0.0 <= Mean(xs)
  {
    SumAtLeast(xs, 0.0);
    ScaleDown(0.0, Mean(xs), |xs| as real);
  }

  lemma MeanZero(xs: seq<real>)
    requires xs != []
    requires forall k :: 0 <= k < |xs| ==> xs[k] == 0.0
    ensures Mean(xs) == 0.0
  {
    SumAtLeast(xs, 0.0);
    SumAtMost(xs, 0.0);
    ScaleDown(0.0, Mean(xs), |xs| as real);
    ScaleDown(Mean(xs), 0.0, |xs| as real);
  }

  lemma MeanPositive(xs: seq<real>, k: nat)
    requires forall j :: 0 <= j < |xs| ==> 0.0 <= xs[j]
    requires k < |xs| && 0.0 < xs[k]
    ensures 0.0 < Mean(xs)
  {
    SumPositive(xs, k);
    var m, n := Mean(xs), |xs| as real;
    assert m == (m * n) / n;
  }

  /** With no fall of the close inside the window, the loss average is 0. */
  lemma NoFallNoLoss(closes: seq<real>, period: nat, i: nat)
    requires 0 < period <= i + 1 <= |closes|
    requires forall j :: i + 1 - period <= j <= i && 0 < j ==> closes[j - 1] <= closes[j]
    ensures RollingMean(Losses(closes), period, i) == Some(0.0)
  {
    var lw := Trailing(Losses(closes), period, i);
    forall k | 0 <= k < |lw| ensures lw[k] == 0.0 {
      var j := i + 1 - period + k;
      assert lw[k] == Down(Delta(closes, j));
      if 0 < j {
        assert closes[j - 1] <= closes[j];
      }
    }
    MeanZero(lw);
  }

  /** One rise of the close inside the window makes the gain average positive. */
  lemma RiseGain(closes: seq<real>, period: nat, i: nat, j: nat)
    requires 0 < period <= i + 1 <= |closes|
    requires i + 1 - period <= j <= i && 0 < j && closes[j - 1] < closes[j]
    ensures RollingMean(Gains(closes), period, i).Some?
    ensures 0.0 < RollingMean(Gains(closes), period, i).value
  {
    var gw := Trailing(Gains(closes), period, i);
    var k := j - (i + 1 - period);
    assert gw[k] == Up(Delta(closes, j));
    assert forall q :: 0 <= q < |gw| ==> 0.0 <= gw[q];
    MeanPositive(gw, k);
  }

  /** With the close flat throughout the window, the gain average is 0. */
  lemma FlatNoGain(closes: seq<real>, period: nat, i: nat)
    requires 0 < period <= i + 1 <= |closes|
    requires forall j :: i + 1 - period <= j <= i && 0 < j ==> closes[j - 1] == closes[j]
    ensures RollingMean(Gains(closes), period, i) == Some(0.0)
  {
    var gw := Trailing(Gains(closes), period, i);
    forall k | 0 <= k < |gw| ensures gw[k] == 0.0 {
      var j := i + 1 - period + k;
      assert gw[k] == Up(Delta(closes, j));
      if 0 < j {
        assert closes[j - 1] == closes[j];
      }
    }
    MeanZero(gw);
  }

  /** A window in which the close never falls but rises at least once has RSI 100: with
      no losses the relative strength is infinite. */
  lemma RsiOnlyRises(df: seq<BandRow>, period: nat, overSold: real, overBought: real, i: nat, j: nat)
    requires 0 < period <= i + 1 <= |df|
    requires forall q :: i + 1 - period <= q <= i && 0 < q ==> df[q - 1].bar.close <= df[q].bar.close
    requires i + 1 - period <= j <= i && 0 < j && df[j - 1].bar.close < df[j].bar.close
    ensures CalculateRsi(df, period, overSold, overBought)[i].rsi == Some(100.0)
  {
    var closes := Closes(Bars(df));
    NoFallNoLoss(closes, period, i);
    RiseGain(closes, period, i, j);
    RsiColumn(df, period, overSold, overBought, i);
  }

  /** A window in which the close stays flat has an undefined RSI (0 / 0). */
  lemma RsiFlat(df: seq<BandRow>, period: nat, overSold: real, overBought: real, i: nat)
    requires 0 < period <= i + 1 <= |df|
    requires forall q :: i + 1 - period <= q <= i && 0 < q ==> df[q - 1].bar.close == df[q].bar.close
    ensures CalculateRsi(df, period, overSold, overBought)[i].rsi.None?
  {
    var closes := Closes(Bars(df));
    NoFallNoLoss(closes, period, i);
    FlatNoGain(closes, period, i);
    RsiColumn(df, period, overSold, overBought, i);
  }

  // ---------------------------------------------------------------------------
  // Dropping rows with undefined indicators

  /** No NaN in any of the columns `get_processed_data` filters on. */
  predicate Complete(r: IndicatorRow)
  {
    && r.bands.movingAvg.Some?
    && r.bands.movingStdDev.Some?
    && r.bands.upperBand.Some?
    && r.bands.lowerBand.Some?
    && r.rsi.Some?
  }

  /** `dropna(subset=[...])`: keeps exactly the complete rows, in their original order. */
  function DropIncomplete(rows: seq<IndicatorRow>): (kept: seq<IndicatorRow>)
    ensures |kept| <= |rows|
    ensures forall r :: r in kept <==> r in rows && Complete(r)
  {
    if rows == [] then []
    else
      var init := DropIncomplete(rows[..|rows| - 1]);
      var last := rows[|rows| - 1];
      assert rows == rows[..|rows| - 1] + [last];
      if Complete(last) then init + [last] else init
  }

  function Labels(rows: seq<IndicatorRow>): (labels: seq<int>)
    ensures |labels| == |rows|
    ensures forall i :: 0 <= i < |rows| ==> labels[i] == rows[i].bands.bar.index
  {
    seq(|rows|, i requires 0 <= i < |rows| => rows[i].bands.bar.index)
  }

  /** Filtering keeps row labels in ascending order. */
  lemma {:induction false} DropIncompleteKeepsOrder(rows: seq<IndicatorRow>)
    requires StrictlyAscending(Labels(rows))
    ensures StrictlyAscending(Labels(DropIncomplete(rows)))
  {
    if rows != [] {
      var n := |rows| - 1;
      var init := rows[..n];
      assert Labels(init) == Labels(rows)[..n];
      DropIncompleteKeepsOrder(init);
      var kept := DropIncomplete(init);
      forall k | 0 <= k < |kept| ensures kept[k].bands.bar.index < rows[n].bands.bar.index {
        assert kept[k] in init;
        var j :| 0 <= j < n && init[j] == kept[k];
        assert Labels(rows)[j] < Labels(rows)[n];
      }
    }
  }

  /** The frame after both indicator methods, before filtering. */
  function Augmented(bars: seq<Bar>, stdDev: StdDev, overSold: real, overBought: real): (df: seq<IndicatorRow>)
    ensures |df| == |bars|
    ensures forall i :: 0 <= i < |bars| ==>
      df[i].bands.bar == bars[i] && df[i].overSold == overSold && df[i].overBought == overBought
  {
    CalculateRsi(CalculateBollingerBands(bars, stdDev, Window, NumStdDev), RsiPeriod, overSold, overBought)
  }

  /** `get_processed_data` on the fetched bars, with the processor's two thresholds. */
  function GetProcessedData(bars: seq<Bar>, stdDev: StdDev, overSold: real, overBought: real): (df: seq<IndicatorRow>)
    ensures forall r :: r in df ==> Complete(r) && r.overSold == overSold && r.overBought == overBought
    ensures forall r :: r in df <==> r in Augmented(bars, stdDev, overSold, overBought) && Complete(r)
    ensures |df| <= |bars|
  {
    DropIncomplete(Augmented(bars, stdDev, overSold, overBought))
  }

  /** On a provider frame (row labels 0, 1, 2, ...): the first `Window - 1` rows are always
      dropped, a later row is kept exactly when its RSI is defined, and labels stay in order. */
  lemma ProcessedDataRows(bars: seq<Bar>, stdDev: StdDev, overSold: real, overBought: real)
    requires forall i :: 0 <= i < |bars| ==> bars[i].index == i
    ensures var aug := Augmented(bars, stdDev, overSold, overBought);
      var df := GetProcessedData(bars, stdDev, overSold, overBought);
      && (forall r :: r in df ==> Window - 1 <= r.bands.bar.index)
      && (forall i :: 0 <= i < |bars| ==> (aug[i] in df <==> Window - 1 <= i && aug[i].rsi.Some?))
      && StrictlyAscending(Labels(df))
  {
    var aug := Augmented(bars, stdDev, overSold, overBought);
    var bands := CalculateBollingerBands(bars, stdDev, Window, NumStdDev);
    forall i | 0 <= i < |bars| ensures Complete(aug[i]) <==> Window - 1 <= i && aug[i].rsi.Some? {
      BandsWindowRule(bars, stdDev, Window, NumStdDev, i);
      assert aug[i].bands == bands[i];
    }
    forall r | r in DropIncomplete(aug) ensures Window - 1 <= r.bands.bar.index {
      var j :| 0 <= j < |aug| && aug[j] == r;
    }
    assert StrictlyAscending(Labels(aug));
    DropIncompleteKeepsOrder(aug);
  }
}
