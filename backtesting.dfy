/** `Backtester`: replays a signal frame row by row with a 0/1 position flag, logging each
    entry and exit, booking the profit of each closed trade into the capital and recording
    the capital under every row label. */
module Backtesting {
  import opened Frames
  import opened Metrics
  import Signals

  /** One logged position: `('buy' | 'sell', price, index)`. */
  datatype PositionEntry = PositionEntry(side: Side, price: real, index: int)

  /** `_is_buy_signal`: the row carries a buy price and no position is open. */
  predicate IsBuySignal(r: SignalRow, p: Position): (b: bool)
    ensures b ==> r.buy.Some?
    ensures p == Long ==> !b
  {
    r.buy.Some? && p == Flat
  }

  /** `_is_sell_signal`: the row carries a sell price and a position is open. */
  predicate IsSellSignal(r: SignalRow, p: Position): (b: bool)
    ensures b ==> r.sell.Some?
    ensures p == Flat ==> !b
  {
    r.sell.Some? && p == Long
  }

  /** The position of the first entry labelled `index`, or `|points|` when there is none. */
  function Find(points: seq<Point>, index: int): (k: nat)
    ensures k <= |points|
    ensures k < |points| ==> points[k].index == index
    ensures forall j :: 0 <= j < k ==> points[j].index != index
  {
    if points == [] then 0
    else if points[0].index == index then 0
    else 1 + Find(points[1..], index)
  }

  lemma {:induction false} FindAbsent(points: seq<Point>, index: int)
    requires forall k :: 0 <= k < |points| ==> points[k].index != index
    ensures Find(points, index) == |points|
  {
    if points != [] {
      FindAbsent(points[1..], index);
    }
  }

  /** `series.at[index] = value`: overwrites the entry under `index`, or appends one when
      the label is new. */
  function SetAt(points: seq<Point>, index: int, value: real): (q: seq<Point>)
    ensures |points| <= |q| <= |points| + 1
    ensures Find(points, index) < |q| && q[Find(points, index)] == Point(index, value)
  {
    var k := Find(points, index);
    if k < |points| then points[k := Point(index, value)] else points + [Point(index, value)]
  }

  /** After `SetAt` the label's first entry holds the new value; the series grows by one
      entry exactly when the label was new, and every other entry stays in place. */
  lemma SetAtRecords(points: seq<Point>, index: int, value: real)
    ensures var q := SetAt(points, index, value);
      var k := Find(points, index);
      && |q| == (if k < |points| then |points| else |points| + 1)
      && Find(q, index) == k
      && q[k] == Point(index, value)
      && forall j :: 0 <= j < |points| && j != k ==> q[j] == points[j]
  {
    var q := SetAt(points, index, value);
    var k := Find(points, index);
    assert q[k] == Point(index, value);
    assert forall j :: 0 <= j < k ==> q[j] == points[j];
    FindIs(q, index, k);
  }

  /** `Find` is the first position whose entry carries the label. */
  lemma {:induction false} FindIs(points: seq<Point>, index: int, k: nat)
    requires k < |points| && points[k].index == index
    requires forall j :: 0 <= j < k ==> points[j].index != index
    ensures Find(points, index) == k
  {
    if 0 < k {
      FindIs(points[1..], index, k - 1);
    }
  }

  // ---------------------------------------------------------------------------
  // The walk `run_backtest` performs, as a function of the rows

  /** The backtester's state during a run: the local position flag and entry price, and
      the capital, position log, trade log and portfolio series it keeps. */
  datatype Walk = Walk(
    position: Position,
    entryPrice: real,
    capital: real,
    positions: seq<PositionEntry>,
    trades: seq<Trade>,
    portfolio: seq<Point>)

  /** A run's starting state on a new backtester. */
  function Fresh(initialCapital: real): Walk
  {
    Walk(Flat, 0.0, initialCapital, [], [], [])
  }

  /** The buy/sell branch of one iteration of the loop of `run_backtest`: enter on a buy,
      else exit on a sell (the entry price is kept). */
  function Act(w: Walk, r: SignalRow): (a: Walk)
    ensures a.portfolio == w.portfolio
    ensures a.capital == w.capital + (if IsSellSignal(r, w.position) then r.sell.value - w.entryPrice else 0.0)
    ensures |w.positions| <= |a.positions| <= |w.positions| + 1
    ensures |w.trades| <= |a.trades| <= |w.trades| + 1
  {
    if IsBuySignal(r, w.position) then
      w.(position := Long, entryPrice := r.buy.value,
         positions := w.positions + [PositionEntry(Buy, r.buy.value, r.Index())])
    else if IsSellSignal(r, w.position) then
      var profit := r.sell.value - w.entryPrice;
      w.(position := Flat, capital := w.capital + profit,
         trades := w.trades + [Trade(w.entryPrice, r.sell.value, profit, r.Index())],
         positions := w.positions + [PositionEntry(Sell, r.sell.value, r.Index())])
    else w
  }

  lemma ActEnters(w: Walk, r: SignalRow)
    requires IsBuySignal(r, w.position)
    ensures Act(w, r) == Walk(Long, r.buy.value, w.capital,
      w.positions + [PositionEntry(Buy, r.buy.value, r.Index())], w.trades, w.portfolio)
  {
  }

  lemma ActExits(w: Walk, r: SignalRow)
    requires IsSellSignal(r, w.position)
    ensures Act(w, r) == Walk(Flat, w.entryPrice, w.capital + (r.sell.value - w.entryPrice),
      w.positions + [PositionEntry(Sell, r.sell.value, r.Index())],
      w.trades + [Trade(w.entryPrice, r.sell.value, r.sell.value - w.entryPrice, r.Index())],
      w.portfolio)
  {
  }

  lemma ActHolds(w: Walk, r: SignalRow)
    requires !IsBuySignal(r, w.position) && !IsSellSignal(r, w.position)
    ensures Act(w, r) == w
  {
  }

  /** One iteration: act on the row, then record the capital under the row's label. */
  function Step(w: Walk, r: SignalRow): (s: Walk)
    ensures s.(portfolio := w.portfolio) == Act(w, r)
    ensures s.portfolio == SetAt(w.portfolio, r.Index(), s.capital)
  {
    var acted := Act(w, r);
    acted.(portfolio := SetAt(acted.portfolio, r.Index(), acted.capital))
  }

  lemma StepIs(w: Walk, r: SignalRow)
    ensures var a := Act(w, r); Step(w, r) == a.(portfolio := SetAt(a.portfolio, r.Index(), a.capital))
  {
  }

  /** The state after the given rows, in order. */
  function Replay(w: Walk, rows: seq<SignalRow>): (v: Walk)
    ensures |w.positions| <= |v.positions| <= |w.positions| + |rows|
    ensures |w.trades| <= |v.trades| <= |w.trades| + |rows|
    ensures |w.portfolio| <= |v.portfolio| <= |w.portfolio| + |rows|
  {
    if rows == [] then w else Step(Replay(w, rows[..|rows| - 1]), rows[|rows| - 1])
  }

  /** Replaying rows only adds to the logs: the earlier positions and trades stay as a
      prefix, and every earlier portfolio entry keeps its label (`.at` overwrites or
      appends, and nothing is ever removed). */
  lemma {:induction false} ReplayKeepsLogs(w: Walk, rows: seq<SignalRow>)
    ensures var v := Replay(w, rows);
      && w.positions <= v.positions
      && w.trades <= v.trades
      && |w.portfolio| <= |v.portfolio|
      && forall k :: 0 <= k < |w.portfolio| ==> v.portfolio[k].index == w.portfolio[k].index
  {
    if rows != [] {
      var u := Replay(w, rows[..|rows| - 1]);
      var r := rows[|rows| - 1];
      ReplayKeepsLogs(w, rows[..|rows| - 1]);
      SetAtRecords(Act(u, r).portfolio, r.Index(), Step(u, r).capital);
    }
  }

  /** A row whose label is new appends one entry, the capital after the row. */
  lemma StepAppends(w: Walk, r: SignalRow)
    requires forall k :: 0 <= k < |w.portfolio| ==> w.portfolio[k].index != r.Index()
    ensures Step(w, r).portfolio == w.portfolio + [Point(r.Index(), Step(w, r).capital)]
  {
    FindAbsent(w.portfolio, r.Index());
  }

  /** The state of a fresh run after its first `i` rows, one step per row. */
  function After(initialCapital: real, rows: seq<SignalRow>, i: nat): Walk
    requires i <= |rows|
  {
    if i == 0 then Fresh(initialCapital) else Step(After(initialCapital, rows, i - 1), rows[i - 1])
  }

  /** `After` is `Replay` of the first `i` rows from a fresh state. */
  lemma {:induction false} AfterIsReplay(initialCapital: real, rows: seq<SignalRow>, i: nat)
    requires i <= |rows|
    ensures After(initialCapital, rows, i) == Replay(Fresh(initialCapital), rows[..i])
  {
    if 0 < i {
      AfterIsReplay(initialCapital, rows, i - 1);
      ReplayStep(Fresh(initialCapital), rows, i - 1);
    } else {
      assert rows[..i] == [];
    }
  }

  /** One more row is one more step. */
  lemma ReplayStep(w: Walk, rows: seq<SignalRow>, i: nat)
    requires i < |rows|
    ensures Replay(w, rows[..i + 1]) == Step(Replay(w, rows[..i]), rows[i])
  {
    assert rows[..i + 1][..i] == rows[..i];
  }

  function RowLabels(rows: seq<SignalRow>): (labels: seq<int>)
    ensures |labels| == |rows|
    ensures forall i :: 0 <= i < |rows| ==> labels[i] == rows[i].Index()
  {
    seq(|rows|, i requires 0 <= i < |rows| => rows[i].Index())
  }

  // ---------------------------------------------------------------------------
  // Capital

  /** Capital and trade log agree: the capital is the starting capital plus every profit. */
  predicate Ledger(w: Walk, initialCapital: real)
  {
    w.capital == initialCapital + SumProfits(w.trades)
  }

  /** The capital moves only when a trade closes, and then by that trade's profit; the
      ledger is kept. */
  lemma StepBooksProfit(w: Walk, r: SignalRow, initialCapital: real)
    ensures Ledger(w, initialCapital) ==> Ledger(Step(w, r), initialCapital)
    ensures Step(w, r).capital
      == w.capital + (if IsSellSignal(r, w.position) then r.sell.value - w.entryPrice else 0.0)
  {
    var s := Step(w, r);
    if !IsBuySignal(r, w.position) && IsSellSignal(r, w.position) {
      assert s.trades[..|s.trades| - 1] == w.trades;
    }
  }

  /** Final capital = initial capital + the sum of all trade profits. */
  lemma {:induction false} CapitalIsInitialPlusProfits(initialCapital: real, rows: seq<SignalRow>)
    ensures Ledger(Replay(Fresh(initialCapital), rows), initialCapital)
  {
    if rows != [] {
      var init := rows[..|rows| - 1];
      CapitalIsInitialPlusProfits(initialCapital, init);
      StepBooksProfit(Replay(Fresh(initialCapital), init), rows[|rows| - 1], initialCapital);
    }
  }

  // ---------------------------------------------------------------------------
  // Position and trade logs

  /** The position log alternates buy, sell, buy, ... and pairs up with the trade log:
      trade `k` was entered by entry `2k` and closed by entry `2k + 1`, its profit is exit
      minus entry, and while a position is open the last entry is its buy. */
  predicate TradeLog(w: Walk)
  {
    && |w.positions| == 2 * |w.trades| + Signals.Flag(w.position)
    && (forall k :: 0 <= k < |w.positions| ==> w.positions[k].side == (if k % 2 == 0 then Buy else Sell))
    && (forall k :: 0 <= k < |w.trades| ==>
          && w.positions[2 * k].price == w.trades[k].entryPrice
          && w.positions[2 * k + 1] == PositionEntry(Sell, w.trades[k].exitPrice, w.trades[k].index)
          && w.trades[k].profit == w.trades[k].exitPrice - w.trades[k].entryPrice)
    && (w.position == Long ==> w.positions[|w.positions| - 1].price == w.entryPrice)
  }

  /** Acting on a row keeps the logs paired (recording the capital does not touch them). */
  lemma ActKeepsTradeLog(w: Walk, r: SignalRow)
    requires TradeLog(w)
    ensures TradeLog(Act(w, r))
  {
    var s := Act(w, r);
    if IsBuySignal(r, w.position) {
      assert s.positions == w.positions + [PositionEntry(Buy, r.buy.value, r.Index())];
      assert s.trades == w.trades;
    } else if IsSellSignal(r, w.position) {
      var t := Trade(w.entryPrice, r.sell.value, r.sell.value - w.entryPrice, r.Index());
      assert s.positions == w.positions + [PositionEntry(Sell, r.sell.value, r.Index())];
      assert s.trades == w.trades + [t];
      assert s.positions[2 * |w.trades|] == w.positions[|w.positions| - 1];
    }
  }

  /** Entries and exits are gated by the position: on a fresh run the logs always pair up. */
  lemma {:induction false} FreshRunTradeLog(initialCapital: real, rows: seq<SignalRow>)
    ensures TradeLog(Replay(Fresh(initialCapital), rows))
  {
    if rows != [] {
      var init := rows[..|rows| - 1];
      FreshRunTradeLog(initialCapital, init);
      var w := Replay(Fresh(initialCapital), init);
      var r := rows[|rows| - 1];
      ActKeepsTradeLog(w, r);
      StepKeepsTradeLog(w, r);
    }
  }

  lemma StepKeepsTradeLog(w: Walk, r: SignalRow)
    requires TradeLog(Act(w, r))
    ensures TradeLog(Step(w, r))
  {
    var a := Act(w, r);
    assert Step(w, r) == a.(portfolio := Step(w, r).portfolio);
  }

  // ---------------------------------------------------------------------------
  // Portfolio series

  /** With unique ascending row labels every row adds one entry to the portfolio series:
      entry `i` holds row `i`'s label and the capital after row `i`. */
  lemma {:induction false} PortfolioTracksCapital(initialCapital: real, rows: seq<SignalRow>)
    requires StrictlyAscending(RowLabels(rows))
    ensures var v := Replay(Fresh(initialCapital), rows).portfolio;
      && |v| == |rows|
      && forall i :: 0 <= i < |rows| ==> v[i] == Point(rows[i].Index(), After(initialCapital, rows, i + 1).capital)
  {
    SeriesAfter(initialCapital, rows, |rows|);
    AfterAll(initialCapital, rows);
    forall i | 0 <= i < |rows|
      ensures Replay(Fresh(initialCapital), rows).portfolio[i] == Point(rows[i].Index(), After(initialCapital, rows, i + 1).capital)
    {
      SeriesAt(initialCapital, rows, |rows|, i);
    }
  }

  /** The series a fresh run records over its first `k` rows when every label is new:
      one entry per row, its label and the capital after it. */
  function Series(initialCapital: real, rows: seq<SignalRow>, k: nat): (s: seq<Point>)
    requires k <= |rows|
    ensures |s| == k
    ensures forall j :: 0 <= j < k ==> s[j].index == rows[j].Index()
  {
    if k == 0 then []
    else Series(initialCapital, rows, k - 1) + [Point(rows[k - 1].Index(), After(initialCapital, rows, k).capital)]
  }

  /** With unique labels, the series after `k` rows is `Series` of those rows. */
  lemma {:induction false} SeriesAfter(initialCapital: real, rows: seq<SignalRow>, k: nat)
    requires StrictlyAscending(RowLabels(rows)) && k <= |rows|
    ensures After(initialCapital, rows, k).portfolio == Series(initialCapital, rows, k)
  {
    if 0 < k {
      SeriesAfter(initialCapital, rows, k - 1);
      var w := After(initialCapital, rows, k - 1);
      forall j | 0 <= j < |w.portfolio|
        ensures w.portfolio[j].index != rows[k - 1].Index()
      {
        assert w.portfolio[j].index == RowLabels(rows)[j];
      }
      StepAppends(w, rows[k - 1]);
    }
  }

  /** Entry `i` of the series holds row `i`'s label and the capital after row `i`. */
  lemma {:induction false} SeriesAt(initialCapital: real, rows: seq<SignalRow>, k: nat, i: nat)
    requires i < k <= |rows|
    ensures Series(initialCapital, rows, k)[i] == Point(rows[i].Index(), After(initialCapital, rows, i + 1).capital)
  {
    var s := Series(initialCapital, rows, k - 1);
    assert Series(initialCapital, rows, k) == s + [Point(rows[k - 1].Index(), After(initialCapital, rows, k).capital)];
    if i < k - 1 {
      SeriesAt(initialCapital, rows, k - 1, i);
      assert Series(initialCapital, rows, k)[i] == s[i];
    } else {
      assert i + 1 == k;
    }
  }

  lemma AfterAll(initialCapital: real, rows: seq<SignalRow>)
    ensures After(initialCapital, rows, |rows|) == Replay(Fresh(initialCapital), rows)
  {
    AfterIsReplay(initialCapital, rows, |rows|);
    assert rows[..|rows|] == rows;
  }

  /** Between consecutive rows the recorded value changes only by the profit of a trade
      closed on the later row; the first recorded value is the initial capital. */
  lemma PortfolioChangesOnlyOnExits(initialCapital: real, rows: seq<SignalRow>, i: nat)
    requires StrictlyAscending(RowLabels(rows))
    requires i < |rows|
    ensures var v := Replay(Fresh(initialCapital), rows).portfolio;
      var before := After(initialCapital, rows, i);
      && |v| == |rows|
      && v[i].value == (if i == 0 then initialCapital else v[i - 1].value)
           + (if IsSellSignal(rows[i], before.position) then rows[i].sell.value - before.entryPrice else 0.0)
  {
    PortfolioTracksCapital(initialCapital, rows);
    var before := After(initialCapital, rows, i);
    StepBooksProfit(before, rows[i], initialCapital);
    if 0 < i {
      assert i - 1 + 1 == i;
    }
  }

  // ---------------------------------------------------------------------------
  // Backtesting the generated signals

  /** One generated row moves the backtester's flag as it moves the generator's, and adds
      one log entry per non-empty signal cell. */
  lemma StepFollowsEmit(w: Walk, r: IndicatorRow)
    ensures var x := Signals.Emit(w.position, r);
      var s := Step(w, x);
      && s.position == Signals.Next(w.position, r)
      && |s.trades| == |w.trades| + (if x.sell.Some? then 1 else 0)
      && |s.positions| == |w.positions| + (if x.buy.Some? then 1 else 0) + (if x.sell.Some? then 1 else 0)
  {
  }

  /** Replaying the frame the signal generator produced, the backtester's position flag
      follows the generator's, it acts on every signal, and its position log is the
      generator's signal sequence. */
  lemma {:induction false} BacktestFollowsSignals(initialCapital: real, rows: seq<IndicatorRow>)
    ensures var sig := Signals.Signals(rows);
      var w := Replay(Fresh(initialCapital), sig);
      && w.position == Signals.PositionAfter(rows)
      && |w.trades| == Signals.CountSells(sig)
      && |w.positions| == Signals.CountBuys(sig) + Signals.CountSells(sig)
  {
    if rows != [] {
      var n := |rows| - 1;
      var init := rows[..n];
      BacktestFollowsSignals(initialCapital, init);
      var sig := Signals.Signals(rows);
      assert sig[..n] == Signals.Signals(init);
      var w := Replay(Fresh(initialCapital), Signals.Signals(init));
      StepFollowsEmit(w, rows[n]);
      assert Replay(Fresh(initialCapital), sig) == Step(w, sig[n]);
    }
  }

  /** The position log of a backtest over generated signals is exactly the generator's
      buy/sell event sequence. */
  lemma BacktestLogIsSignalEvents(initialCapital: real, rows: seq<IndicatorRow>)
    ensures var sig := Signals.Signals(rows);
      var w := Replay(Fresh(initialCapital), sig);
      var e := Signals.Events(sig);
      && |w.positions| == |e|
      && forall k :: 0 <= k < |e| ==> w.positions[k].side == e[k]
  {
    var sig := Signals.Signals(rows);
    BacktestFollowsSignals(initialCapital, rows);
    FreshRunTradeLog(initialCapital, sig);
    Signals.SignalsAlternate(rows);
    Signals.EventsCount(sig);
  }

  // ---------------------------------------------------------------------------
  // Metrics of a fresh run

  /** The report of any state whose capital agrees with its trade log and whose series
      starts at the initial capital and ends at the current capital. */
  lemma LedgerReport(initialCapital: real, w: Walk, sharpeOf: SharpeEstimator)
    requires Ledger(w, initialCapital)
    requires w.portfolio != [] ==> w.portfolio[0].value == initialCapital
    requires w.portfolio != [] ==> w.portfolio[|w.portfolio| - 1].value == w.capital
    ensures var r := CalculateMetrics(initialCapital, w.capital, w.trades, w.portfolio, sharpeOf);
      && (r.Err? <==> w.portfolio == [])
      && (r.Ok? ==>
            && r.value.totalProfit == SumProfits(w.trades)
            && r.value.annualReturn == AnnualReturn(w.capital, initialCapital)
            && r.value.winningTrades + r.value.losingTrades <= r.value.totalTrades
            && (initialCapital > 0.0 ==>
                  && r.value.maxDrawdown.Some?
                  && r.value.maxDrawdown.value <= PeakRelativeDrawdown(Values(w.portfolio))))
  {
    if w.portfolio != [] && initialCapital > 0.0 {
      MaxDrawdownUnderstates(Values(w.portfolio));
    }
  }

  /** On a new backtester over rows with ascending labels the series is empty exactly
      when the frame is, starts at the initial capital and ends at the final capital; so
      `LedgerReport` applies to every fresh run. */
  lemma FreshRunSeriesEnds(initialCapital: real, rows: seq<SignalRow>)
    requires StrictlyAscending(RowLabels(rows))
    ensures var w := Replay(Fresh(initialCapital), rows);
      && Ledger(w, initialCapital)
      && (w.portfolio == [] <==> rows == [])
      && (w.portfolio != [] ==> w.portfolio[0].value == initialCapital)
      && (w.portfolio != [] ==> w.portfolio[|w.portfolio| - 1].value == w.capital)
  {
    PortfolioTracksCapital(initialCapital, rows);
    CapitalIsInitialPlusProfits(initialCapital, rows);
    if rows != [] {
      var n := |rows| - 1;
      assert rows[..n + 1] == rows;
      FirstRowKeepsCapital(initialCapital, rows);
    }
  }

  /** No trade can close on the first row of a fresh run. */
  lemma FirstRowKeepsCapital(initialCapital: real, rows: seq<SignalRow>)
    requires rows != []
    ensures After(initialCapital, rows, 1).capital == initialCapital
  {
  }

  // ---------------------------------------------------------------------------
  // The backtester object

  class Backtester {
    const data: seq<SignalRow>
    const initialCapital: real
    var currentCapital: real
    var positions: seq<PositionEntry>
    var trades: seq<Trade>
    var portfolioValues: seq<Point>

    /** A backtester starts with its capital at the initial capital and empty logs. */
    constructor (data: seq<SignalRow>, initialCapital: real)
      ensures this.data == data && this.initialCapital == initialCapital
      ensures currentCapital == initialCapital
      ensures positions == [] && trades == [] && portfolioValues == []
    {
      this.data := data;
      this.initialCapital := initialCapital;
      currentCapital := initialCapital;
      positions := [];
      trades := [];
      portfolioValues := [];
    }

    /** The object's state together with a run's local position flag and entry price. */
    function State(position: Position, entryPrice: real): Walk
      reads this
    {
      Walk(position, entryPrice, currentCapital, positions, trades, portfolioValues)
    }

    /** `_enter_position`: logs the buy and returns the new flag and the entry price. */
    method EnterPosition(row: SignalRow) returns (position: Position, entryPrice: real)
      requires row.buy.Some?
      modifies this`positions
      ensures position == Long && entryPrice == row.buy.value
      ensures positions == old(positions) + [PositionEntry(Buy, row.buy.value, row.Index())]
    {
      entryPrice := row.buy.value;
      positions := positions + [PositionEntry(Buy, row.buy.value, row.Index())];
      position := Long;
    }

    /** `_exit_position`: books the profit into the capital and logs the trade and the sell. */
    method ExitPosition(entryPrice: real, row: SignalRow)
      requires row.sell.Some?
      modifies this`currentCapital, this`trades, this`positions
      ensures currentCapital == old(currentCapital) + (row.sell.value - entryPrice)
      ensures trades == old(trades) + [Trade(entryPrice, row.sell.value, row.sell.value - entryPrice, row.Index())]
      ensures positions == old(positions) + [PositionEntry(Sell, row.sell.value, row.Index())]
    {
      var sellPrice := row.sell.value;
      var profit := sellPrice - entryPrice;
      currentCapital := currentCapital + profit;
      trades := trades + [Trade(entryPrice, sellPrice, profit, row.Index())];
      positions := positions + [PositionEntry(Sell, sellPrice, row.Index())];
    }

    /** `_update_portfolio_value`: records the current capital under the row label. */
    method UpdatePortfolioValue(index: int)
      modifies this`portfolioValues
      ensures portfolioValues == SetAt(old(portfolioValues), index, currentCapital)
    {
      portfolioValues := SetAt(portfolioValues, index, currentCapital);
    }

    /** One iteration of the loop of `run_backtest`: enter on a buy signal, else exit on a
        sell signal, then record the capital under the row's label. */
    method ProcessRow(row: SignalRow, position: Position, entryPrice: real)
      returns (position': Position, entryPrice': real)
      modifies this`currentCapital, this`positions, this`trades, this`portfolioValues
      ensures State(position', entryPrice') == Step(old(State(position, entryPrice)), row)
    {
      ghost var before := State(position, entryPrice);
      position', entryPrice' := position, entryPrice;
      if IsBuySignal(row, position) {
        ActEnters(before, row);
        position', entryPrice' := EnterPosition(row);
      } else if IsSellSignal(row, position) {
        ActExits(before, row);
        position' := Flat;
        ExitPosition(entryPrice, row);
      } else {
        ActHolds(before, row);
      }
      assert State(position', entryPrice') == Act(before, row);
      UpdatePortfolioValue(row.Index());
      StepIs(before, row);
    }

    /** `run_backtest`: replays every row from a flat position, starting from the object's
        current capital and logs, and returns the metrics of the resulting state. */
    method RunBacktest(sharpeOf: SharpeEstimator) returns (report: Result<Report, MetricsError>)
      modifies this
      ensures var v := Replay(old(State(Flat, 0.0)), data);
        currentCapital == v.capital && positions == v.positions && trades == v.trades && portfolioValues == v.portfolio
      ensures report == CalculateMetrics(initialCapital, currentCapital, trades, portfolioValues, sharpeOf)
    {
      ghost var start := State(Flat, 0.0);
      var position := Flat;
      var entryPrice := 0.0;
      for i := 0 to |data|
        invariant State(position, entryPrice) == Replay(start, data[..i])
      {
        position, entryPrice := ProcessRow(data[i], position, entryPrice);
        ReplayStep(start, data, i);
      }
      assert data[..|data|] == data;
      report := CalculateMetrics(initialCapital, currentCapital, trades, portfolioValues, sharpeOf);
    }
  }
}
