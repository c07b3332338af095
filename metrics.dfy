/** The performance figures `Backtester.calculate_metrics` derives from the trade log and
    the portfolio-value series: trade counts, total profit, annual return, maximum drawdown
    and the Sharpe ratio. */
module Metrics {
  import opened Frames

  /** One closed trade: `(entry_price, sell_price, profit, index)`. */
  datatype Trade = Trade(entryPrice: real, exitPrice: real, profit: real, index: int)

  /** One entry of the portfolio-value series: the row label and the capital stored there. */
  datatype Point = Point(index: int, value: real)

  function Values(points: seq<Point>): (vs: seq<real>)
    ensures |vs| == |points|
    ensures forall i :: 0 <= i < |points| ==> vs[i] == points[i].value
  {
    seq(|points|, i requires 0 <= i < |points| => points[i].value)
  }

  // ---------------------------------------------------------------------------
  // Trade log

  function SumProfits(trades: seq<Trade>): real
  {
    if trades == [] then 0.0 else SumProfits(trades[..|trades| - 1]) + trades[|trades| - 1].profit
  }

  /** `_count_winning_trades`: the trades whose profit is strictly positive. */
  function CountWinning(trades: seq<Trade>): (n: nat)
    ensures n <= |trades|
    ensures n == 0 <==> forall k :: 0 <= k < |trades| ==> trades[k].profit <= 0.0
    ensures n == |trades| <==> forall k :: 0 <= k < |trades| ==> trades[k].profit > 0.0
  {
    if trades == [] then 0
    else
      var init := trades[..|trades| - 1];
      var n := CountWinning(init) + (if trades[|trades| - 1].profit > 0.0 then 1 else 0);
      assert forall k :: 0 <= k < |init| ==> init[k] == trades[k];
      n
  }

  /** `_count_losing_trades`: the trades whose profit is strictly negative. */
  function CountLosing(trades: seq<Trade>): (n: nat)
    ensures n <= |trades|
    ensures n == 0 <==> forall k :: 0 <= k < |trades| ==> trades[k].profit >= 0.0
    ensures n == |trades| <==> forall k :: 0 <= k < |trades| ==> trades[k].profit < 0.0
  {
    if trades == [] then 0
    else
      var init := trades[..|trades| - 1];
      var n := CountLosing(init) + (if trades[|trades| - 1].profit < 0.0 then 1 else 0);
      assert forall k :: 0 <= k < |init| ==> init[k] == trades[k];
      n
  }

  /** A trade is counted at most once: break-even trades are neither winners nor losers. */
  lemma {:induction false} WinsAndLossesPartition(trades: seq<Trade>)
    ensures CountWinning(trades) + CountLosing(trades) <= |trades|
    ensures CountWinning(trades) + CountLosing(trades) == |trades|
      <==> forall k :: 0 <= k < |trades| ==> trades[k].profit != 0.0
  {
    if trades != [] {
      var init := trades[..|trades| - 1];
      WinsAndLossesPartition(init);
      assert forall k :: 0 <= k < |init| ==> init[k] == trades[k];
    }
  }

  /** Without a losing trade the total profit is not negative; without a winning trade it
      is not positive. */
  lemma {:induction false} ProfitSign(trades: seq<Trade>)
    ensures CountLosing(trades) == 0 ==> SumProfits(trades) >= 0.0
    ensures CountWinning(trades) == 0 ==> SumProfits(trades) <= 0.0
  {
    if trades != [] {
      ProfitSign(trades[..|trades| - 1]);
    }
  }

  // ---------------------------------------------------------------------------
  // Annual return

  /** `_calculate_annual_return`: the last portfolio value over the initial capital, minus
      one, in percent.  A zero initial capital gives a non-finite float (`None`). */
  function AnnualReturn(finalValue: real, initialCapital: real): (r: Option<real>)
    ensures r.None? <==> initialCapital == 0.0
    ensures r.Some? ==> initialCapital * (1.0 + r.value / 100.0) == finalValue
  {
    if initialCapital == 0.0 then None else Some((finalValue / initialCapital - 1.0) * 100.0)
  }

  /** On a positive stake the return is positive exactly when the portfolio grew, and zero
      exactly when it did not move. */
  lemma AnnualReturnSign(finalValue: real, initialCapital: real)
    ensures initialCapital > 0.0 ==>
      && AnnualReturn(finalValue, initialCapital).Some?
      && (AnnualReturn(finalValue, initialCapital).value > 0.0 <==> finalValue > initialCapital)
      && (AnnualReturn(finalValue, initialCapital).value == 0.0 <==> finalValue == initialCapital)
  {
    if initialCapital > 0.0 {
      var r := AnnualReturn(finalValue, initialCapital).value;
      assert initialCapital * (r / 100.0) == finalValue - initialCapital;
      ProductSign(initialCapital, r / 100.0);
    }
  }

  lemma ProductSign(a: real, b: real)
    requires a > 0.0
    ensures a * b > 0.0 <==> b > 0.0
    ensures a * b == 0.0 <==> b == 0.0
  {
    if b > 0.0 {
      assert a * b > 0.0;
    } else if b < 0.0 {
      assert a * b < 0.0;
    }
  }

  // ---------------------------------------------------------------------------
  // Drawdown

  /** `expanding().max()` at row `i`: the highest value up to and including row `i`. */
  function Peak(values: seq<real>, i: nat): (p: real)
    requires i < |values|
    ensures forall j :: 0 <= j <= i ==> values[j] <= p
  {
    if i == 0 then values[0]
    else
      var q := Peak(values, i - 1);
      if values[i] > q then values[i] else q
  }

  /** The running peak is one of the values seen so far. */
  lemma {:induction false} PeakAttained(values: seq<real>, i: nat) returns (j: nat)
    requires i < |values|
    ensures j <= i && values[j] == Peak(values, i)
  {
    if i == 0 {
      j := 0;
    } else if values[i] > Peak(values, i - 1) {
      j := i;
    } else {
      j := PeakAttained(values, i - 1);
    }
  }

  lemma {:induction false} PeakMonotone(values: seq<real>, i: nat, j: nat)
    requires i <= j < |values|
    ensures Peak(values, i) <= Peak(values, j)
  {
    if i < j {
      PeakMonotone(values, i, j - 1);
    }
  }

  /** The drop of row `i` below the running peak. */
  function Drawdown(values: seq<real>, i: nat): (d: real)
    requires i < |values|
    ensures d >= 0.0
  {
    Peak(values, i) - values[i]
  }

  /** `drawdown.max()` over the first `i + 1` rows. */
  function DeepestDrawdown(values: seq<real>, i: nat): (m: real)
    requires i < |values|
    ensures forall j :: 0 <= j <= i ==> Drawdown(values, j) <= m
    ensures exists j :: 0 <= j <= i && Drawdown(values, j) == m
  {
    if i == 0 then Drawdown(values, 0)
    else
      var m := DeepestDrawdown(values, i - 1);
      var d := Drawdown(values, i);
      if d > m then d else m
  }

  /** `_calculate_max_drawdown` as written: the deepest drawdown of the whole series
      divided by the running peak of the LAST row, in percent.  A zero last peak gives a
      non-finite float (`None`).  (An empty series raises before this point; see
      `CalculateMetrics`.) */
  function MaxDrawdown(values: seq<real>): (r: Option<real>)
    requires values != []
    ensures r.None? <==> Peak(values, |values| - 1) == 0.0
    ensures r.Some? ==> r.value == Percent(DeepestDrawdown(values, |values| - 1), Peak(values, |values| - 1))
  {
    var p := Peak(values, |values| - 1);
    if p == 0.0 then None else Some(Percent(DeepestDrawdown(values, |values| - 1), p))
  }

  /** `part / whole * 100` */
  function Percent(part: real, whole: real): real
    requires whole != 0.0
  {
    part / whole * 100.0
  }

  /** For a non-negative series with a positive peak the figure is a percentage. */
  lemma MaxDrawdownBounds(values: seq<real>)
    requires values != []
    requires forall i :: 0 <= i < |values| ==> values[i] >= 0.0
    requires Peak(values, |values| - 1) > 0.0
    ensures MaxDrawdown(values).Some?
    ensures 0.0 <= MaxDrawdown(values).value <= 100.0
  {
    var last := |values| - 1;
    var j :| 0 <= j <= last && Drawdown(values, j) == DeepestDrawdown(values, last);
    PeakMonotone(values, j, last);
    PercentBounds(DeepestDrawdown(values, last), Peak(values, last));
  }

  lemma PercentBounds(a: real, b: real)
    requires 0.0 <= a <= b && 0.0 < b
    ensures 0.0 <= Percent(a, b) <= 100.0
  {
    assert a / b <= 1.0;
  }

  /** The drop of row `i` below its own running peak, in percent of that peak. */
  function RelativeDrawdown(values: seq<real>, i: nat): real
    requires i < |values| && values[0] > 0.0
  {
    assert values[0] <= Peak(values, i);
    Percent(Drawdown(values, i), Peak(values, i))
  }

  /** The deepest relative drawdown over the first `i + 1` rows. */
  function DeepestRelativeDrawdown(values: seq<real>, i: nat): (m: real)
    requires i < |values| && values[0] > 0.0
    ensures forall j :: 0 <= j <= i ==> RelativeDrawdown(values, j) <= m
    ensures exists j :: 0 <= j <= i && RelativeDrawdown(values, j) == m
  {
    if i == 0 then RelativeDrawdown(values, 0)
    else
      var m := DeepestRelativeDrawdown(values, i - 1);
      var d := RelativeDrawdown(values, i);
      if d > m then d else m
  }

  /** Maximum drawdown measured row by row against the peak reached so far: the largest
      percentage a value ever fell below an earlier high. */
  function PeakRelativeDrawdown(values: seq<real>): (r: real)
    requires values != [] && values[0] > 0.0
    ensures forall j :: 0 <= j < |values| ==> RelativeDrawdown(values, j) <= r
    ensures exists j :: 0 <= j < |values| && RelativeDrawdown(values, j) == r
  {
    DeepestRelativeDrawdown(values, |values| - 1)
  }

  /** Every row's relative drawdown is a percentage when the series never goes negative,
      so the maximum is one too. */
  lemma PeakRelativeDrawdownBounds(values: seq<real>)
    requires values != [] && values[0] > 0.0
    requires forall i :: 0 <= i < |values| ==> values[i] >= 0.0
    ensures 0.0 <= PeakRelativeDrawdown(values) <= 100.0
  {
    var j :| 0 <= j < |values| && RelativeDrawdown(values, j) == PeakRelativeDrawdown(values);
    assert values[0] <= Peak(values, j);
    PercentBounds(Drawdown(values, j), Peak(values, j));
  }

  /** The figure as written never exceeds the peak-relative one: it divides the deepest
      drop by the last peak, which is at least the peak the drop was measured from. */
  lemma MaxDrawdownUnderstates(values: seq<real>)
    requires values != [] && values[0] > 0.0
    ensures MaxDrawdown(values).Some?
    ensures MaxDrawdown(values).value <= PeakRelativeDrawdown(values)
  {
    var last := |values| - 1;
    var pLast := Peak(values, last);
    assert values[0] <= pLast;
    var r := MaxDrawdown(values);
    assert r.Some?;
    var j :| 0 <= j <= last && Drawdown(values, j) == DeepestDrawdown(values, last);
    var d, pj := Drawdown(values, j), Peak(values, j);
    assert values[0] <= pj;
    PeakMonotone(values, j, last);
    DivideByLarger(d, pj, pLast, r.value, RelativeDrawdown(values, j));
  }

  lemma DivideByLarger(a: real, c: real, b: real, x: real, y: real)
    requires 0.0 <= a && 0.0 < c <= b
    requires x == Percent(a, b) && y == Percent(a, c)
    ensures x <= y
  {
    assert a / b <= a / c;
  }

  /** A rally to a new high after a fall hides the fall: on 100, 50, 200 the series lost
      half its value, the figure as written reports 25 %, the peak-relative one 50 %. */
  lemma DrawdownCounterexample()
    ensures MaxDrawdown([100.0, 50.0, 200.0]) == Some(25.0)
    ensures PeakRelativeDrawdown([100.0, 50.0, 200.0]) == 50.0
  {
    var vs := [100.0, 50.0, 200.0];
    assert Peak(vs, 0) == 100.0;
    assert Peak(vs, 1) == 100.0;
    assert Peak(vs, 2) == 200.0;
    assert Drawdown(vs, 0) == 0.0;
    assert Drawdown(vs, 1) == 50.0;
    assert Drawdown(vs, 2) == 0.0;
    assert DeepestDrawdown(vs, 1) == 50.0;
    assert DeepestDrawdown(vs, 2) == 50.0;
    assert Percent(50.0, 200.0) == 25.0;
    assert RelativeDrawdown(vs, 0) == 0.0;
    assert RelativeDrawdown(vs, 1) == 50.0;
    assert RelativeDrawdown(vs, 2) == 0.0;
    assert DeepestRelativeDrawdown(vs, 1) == 50.0;
  }

  // ---------------------------------------------------------------------------
  // Sharpe ratio

  /** `pct_change().dropna()`: one return per consecutive pair of values.  A pair of zeros
      is 0/0, NaN, and dropped; a zero followed by a non-zero value is an infinite return,
      which `dropna` keeps (`None`). */
  function PeriodReturns(values: seq<real>): (rs: seq<Option<real>>)
    ensures values == [] || |rs| <= |values| - 1
    ensures rs == [] <==> NoPeriodReturns(values)
  {
    if |values| < 2 then []
    else
      var n := |values| - 1;
      var init := values[..n];
      var prev, cur := values[n - 1], values[n];
      assert forall i :: 0 <= i < n ==> init[i] == values[i];
      PeriodReturns(init)
        + (if prev == 0.0 && cur == 0.0 then []
           else if prev == 0.0 then [None]
           else [Some((cur - prev) / prev)])
  }

  /** Every consecutive pair of values is a pair of zeros: there is no pair at all, or
      every value is zero. */
  predicate NoPeriodReturns(values: seq<real>)
  {
    |values| < 2 || forall i :: 0 <= i < |values| ==> values[i] == 0.0
  }

  /** Mean over standard deviation of the returns, annualised: the floating-point
      estimator itself is a parameter. */
  type SharpeEstimator = seq<Option<real>> -> Option<real>

  /** `_calculate_sharpe_ratio`: 0 when there is no return to average. */
  function SharpeRatio(values: seq<real>, sharpeOf: SharpeEstimator): (r: Option<real>)
    ensures NoPeriodReturns(values) ==> r == Some(0.0)
    ensures !NoPeriodReturns(values) ==> r == sharpeOf(PeriodReturns(values))
  {
    var rs := PeriodReturns(values);
    if rs == [] then Some(0.0) else sharpeOf(rs)
  }

  // ---------------------------------------------------------------------------
  // Report

  /** The series `calculate_metrics` returns; `None` stands for a non-finite float. */
  datatype Report = Report(
    initialCapital: real,
    finalCapital: real,
    totalTrades: nat,
    winningTrades: nat,
    losingTrades: nat,
    totalProfit: real,
    sharpeRatio: Option<real>,
    annualReturn: Option<real>,
    maxDrawdown: Option<real>)

  /** `iloc[-1]` on an empty portfolio series raises `IndexError`. */
  datatype MetricsError = EmptyPortfolio

  /** `calculate_metrics`: fails exactly when no portfolio value was recorded; otherwise
      the counts partition the trade log, the profit is the capital gained, and the
      annual return, the drawdown and the Sharpe ratio are read off the recorded series,
      the return from its last value. */
  function CalculateMetrics(initialCapital: real, currentCapital: real, trades: seq<Trade>,
                            portfolio: seq<Point>, sharpeOf: SharpeEstimator)
    : (r: Result<Report, MetricsError>)
    ensures r.Err? <==> portfolio == []
    ensures r.Ok? ==>
      var m := r.value;
      var values := Values(portfolio);
      && m.initialCapital == initialCapital
      && m.finalCapital == currentCapital
      && m.totalProfit + initialCapital == currentCapital
      && m.totalTrades == |trades|
      && m.winningTrades == CountWinning(trades)
      && m.losingTrades == CountLosing(trades)
      && m.winningTrades + m.losingTrades <= m.totalTrades
      && m.annualReturn == AnnualReturn(values[|values| - 1], initialCapital)
      && m.maxDrawdown == MaxDrawdown(values)
      && m.sharpeRatio == SharpeRatio(values, sharpeOf)
  {
    if portfolio == [] then Err(EmptyPortfolio)
    else
      var values := Values(portfolio);
      WinsAndLossesPartition(trades);
      Ok(Report(
        initialCapital,
        currentCapital,
        |trades|,
        CountWinning(trades),
        CountLosing(trades),
        currentCapital - initialCapital,
        SharpeRatio(values, sharpeOf),
        AnnualReturn(values[|values| - 1], initialCapital),
        MaxDrawdown(values)))
  }
}
