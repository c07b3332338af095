/** The signal state machine of `SignalGenerator`: one pass over the indicator rows in
    order with a 0/1 position flag, writing a buy price on the rows where a long position
    opens and a sell price on the rows where it closes. */
module Signals {
  import opened Frames

  /** `a < b` on floats: false as soon as either side is NaN. */
  predicate Less(a: Option<real>, b: Option<real>)
  {
    a.Some? && b.Some? && a.value < b.value
  }

  /** `close < lower_band and rsi < over_sold` */
  predicate BuyCondition(r: IndicatorRow)
  {
    Less(Some(r.Close()), r.bands.lowerBand) && Less(r.rsi, Some(r.overSold))
  }

  /** `close > upper_band and rsi > over_bought` */
  predicate SellCondition(r: IndicatorRow)
  {
    Less(r.bands.upperBand, Some(r.Close())) && Less(Some(r.overBought), r.rsi)
  }

  /** The position after one row: it opens only on a buy condition while flat and closes
      only on a sell condition while long. */
  function Next(p: Position, r: IndicatorRow): (q: Position)
    ensures p == Flat ==> (q == Long <==> BuyCondition(r))
    ensures p == Long ==> (q == Flat <==> SellCondition(r))
  {
    if BuyCondition(r) && p == Flat then Long
    else if SellCondition(r) && p == Long then Flat
    else p
  }

  /** The row with its `buy` and `sell` cells, given the position before it: at most one
      cell is set, to the close, and exactly when the position changes. */
  function Emit(p: Position, r: IndicatorRow): (s: SignalRow)
    ensures s.ind == r
    ensures !(s.buy.Some? && s.sell.Some?)
    ensures s.buy.Some? ==> s.buy.value == r.Close()
    ensures s.sell.Some? ==> s.sell.value == r.Close()
    ensures s.buy.Some? || s.sell.Some? <==> Next(p, r) != p
  {
    if BuyCondition(r) && p == Flat then SignalRow(r, Some(r.Close()), None)
    else if SellCondition(r) && p == Long then SignalRow(r, None, Some(r.Close()))
    else SignalRow(r, None, None)
  }

  /** The position flag after the given rows, starting flat: a position can be open only
      if some row met the buy condition. */
  function PositionAfter(rows: seq<IndicatorRow>): (p: Position)
    ensures p == Long ==> exists i :: 0 <= i < |rows| && BuyCondition(rows[i])
  {
    if rows == [] then Flat
    else Next(PositionAfter(rows[..|rows| - 1]), rows[|rows| - 1])
  }

  /** The frame `generate_signals` returns: one buy cell and one sell cell per input row,
      attached to that row, in row order. */
  function Signals(rows: seq<IndicatorRow>): (sig: seq<SignalRow>)
    ensures |sig| == |rows|
    ensures forall i :: 0 <= i < |rows| ==> sig[i].ind == rows[i]
  {
    if rows == [] then []
    else
      var init := rows[..|rows| - 1];
      Signals(init) + [Emit(PositionAfter(init), rows[|rows| - 1])]
  }

  /** The indicator part of a signal frame (the frame without its buy/sell columns). */
  function Indicators(sig: seq<SignalRow>): (rows: seq<IndicatorRow>)
    ensures |rows| == |sig|
    ensures forall i :: 0 <= i < |sig| ==> rows[i] == sig[i].ind
  {
    seq(|sig|, i requires 0 <= i < |sig| => sig[i].ind)
  }

  /** A frame whose buy and sell cells are all empty. */
  function Unsignalled(rows: seq<IndicatorRow>): (sig: seq<SignalRow>)
    ensures Indicators(sig) == rows
    ensures forall i :: 0 <= i < |sig| ==> sig[i].buy.None? && sig[i].sell.None?
  {
    var sig := seq(|rows|, i requires 0 <= i < |rows| => SignalRow(rows[i], None, None));
    assert Indicators(sig) == rows;
    sig
  }

  /** Row `i` of the output is decided by the position the first `i` rows leave. */
  lemma {:induction false} SignalAt(rows: seq<IndicatorRow>, i: nat)
    requires i < |rows|
    ensures Signals(rows)[i] == Emit(PositionAfter(rows[..i]), rows[i])
  {
    var n := |rows| - 1;
    var init := rows[..n];
    if i < n {
      SignalAt(init, i);
      assert init[..i] == rows[..i];
    } else {
      assert rows[..i] == init;
    }
  }

  /** The position after one more row. */
  lemma PositionStep(rows: seq<IndicatorRow>, i: nat)
    requires i < |rows|
    ensures PositionAfter(rows[..i + 1]) == Next(PositionAfter(rows[..i]), rows[i])
  {
    assert rows[..i + 1][..i] == rows[..i];
  }

  /** One more row appends one more signal row. */
  lemma SignalsStep(rows: seq<IndicatorRow>, i: nat)
    requires i < |rows|
    ensures Signals(rows[..i + 1]) == Signals(rows[..i]) + [Emit(PositionAfter(rows[..i]), rows[i])]
    ensures PositionAfter(rows[..i + 1]) == Next(PositionAfter(rows[..i]), rows[i])
  {
    assert rows[..i + 1][..i] == rows[..i];
  }

  /** The cells of one row against the position before it and the position after it. */
  lemma EmitIff(p: Position, r: IndicatorRow)
    ensures var s := Emit(p, r);
      && (s.buy.Some? <==> p == Flat && BuyCondition(r))
      && (s.buy.Some? ==> s.buy.value == r.Close() && Next(p, r) == Long)
      && (s.sell.Some? <==> p == Long && SellCondition(r))
      && (s.sell.Some? ==> s.sell.value == r.Close() && Next(p, r) == Flat)
      && (s.buy.None? && s.sell.None? ==> Next(p, r) == p)
      && !(s.buy.Some? && s.sell.Some?)
  {
  }

  /** A row gets a buy price exactly when the position before it is flat and it meets the
      buy condition; the price is its close and the position becomes long.  Symmetrically
      for sells.  A buy condition while long or a sell condition while flat is ignored, and
      no row gets both. */
  lemma SignalIff(rows: seq<IndicatorRow>, i: nat)
    requires i < |rows|
    ensures var s := Signals(rows)[i];
      var before := PositionAfter(rows[..i]);
      var after := PositionAfter(rows[..i + 1]);
      && (s.buy.Some? <==> before == Flat && BuyCondition(rows[i]))
      && (s.buy.Some? ==> s.buy.value == rows[i].Close() && after == Long)
      && (s.sell.Some? <==> before == Long && SellCondition(rows[i]))
      && (s.sell.Some? ==> s.sell.value == rows[i].Close() && after == Flat)
      && (s.buy.None? && s.sell.None? ==> after == before)
      && !(s.buy.Some? && s.sell.Some?)
  {
    SignalAt(rows, i);
    PositionStep(rows, i);
    EmitIff(PositionAfter(rows[..i]), rows[i]);
  }

  // ---------------------------------------------------------------------------
  // Alternation

  /** The sides of the non-empty signal cells, in row order. */
  function Events(sig: seq<SignalRow>): seq<Side>
  {
    if sig == [] then []
    else
      var last := sig[|sig| - 1];
      Events(sig[..|sig| - 1])
        + (if last.buy.Some? then [Buy] else [])
        + (if last.sell.Some? then [Sell] else [])
  }

  /** buy, sell, buy, sell, ... starting with buy. */
  predicate Alternating(e: seq<Side>)
  {
    forall k :: 0 <= k < |e| ==> e[k] == (if k % 2 == 0 then Buy else Sell)
  }

  function CountBuys(sig: seq<SignalRow>): nat
  {
    if sig == [] then 0 else CountBuys(sig[..|sig| - 1]) + (if sig[|sig| - 1].buy.Some? then 1 else 0)
  }

  function CountSells(sig: seq<SignalRow>): nat
  {
    if sig == [] then 0 else CountSells(sig[..|sig| - 1]) + (if sig[|sig| - 1].sell.Some? then 1 else 0)
  }

  /** Every non-empty signal cell is one event. */
  lemma {:induction false} EventsCount(sig: seq<SignalRow>)
    ensures |Events(sig)| == CountBuys(sig) + CountSells(sig)
  {
    if sig != [] {
      EventsCount(sig[..|sig| - 1]);
    }
  }

  function Flag(p: Position): nat
  {
    if p == Long then 1 else 0
  }

  /** The signals strictly alternate, starting with a buy; the count of buys exceeds the
      count of sells by the final position flag (0 or 1). */
  lemma {:induction false} SignalsAlternate(rows: seq<IndicatorRow>)
    ensures Alternating(Events(Signals(rows)))
    ensures |Events(Signals(rows))| % 2 == Flag(PositionAfter(rows))
    ensures CountBuys(Signals(rows)) == CountSells(Signals(rows)) + Flag(PositionAfter(rows))
  {
    if rows != [] {
      var n := |rows| - 1;
      var init := rows[..n];
      SignalsAlternate(init);
      var p := PositionAfter(init);
      var x := Emit(p, rows[n]);
      assert Signals(rows) == Signals(init) + [x];
      EventsSnoc(Signals(init), x);
      EmitIff(p, rows[n]);
      AlternateStep(Signals(init), p, x, PositionAfter(rows));
    }
  }

  /** One row's cells, emitted from position `p` and leaving position `q`, keep the
      alternation and the buy/sell balance. */
  lemma AlternateStep(sig: seq<SignalRow>, p: Position, x: SignalRow, q: Position)
    requires Alternating(Events(sig))
    requires |Events(sig)| % 2 == Flag(p)
    requires CountBuys(sig) == CountSells(sig) + Flag(p)
    requires x.buy.Some? <==> p == Flat && q == Long
    requires x.sell.Some? <==> p == Long && q == Flat
    requires x.buy.None? && x.sell.None? ==> q == p
    requires Events(sig + [x]) == Events(sig) + (if x.buy.Some? then [Buy] else []) + (if x.sell.Some? then [Sell] else [])
    requires CountBuys(sig + [x]) == CountBuys(sig) + (if x.buy.Some? then 1 else 0)
    requires CountSells(sig + [x]) == CountSells(sig) + (if x.sell.Some? then 1 else 0)
    ensures Alternating(Events(sig + [x]))
    ensures |Events(sig + [x])| % 2 == Flag(q)
    ensures CountBuys(sig + [x]) == CountSells(sig + [x]) + Flag(q)
  {
    var e := Events(sig);
    if x.buy.Some? {
      assert Events(sig + [x]) == e + [Buy];
      AlternatingSnoc(e, Buy);
    } else if x.sell.Some? {
      assert Events(sig + [x]) == e + [Sell];
      AlternatingSnoc(e, Sell);
    }
  }

  /** Appending the side due next keeps a sequence alternating. */
  lemma AlternatingSnoc(e: seq<Side>, s: Side)
    requires Alternating(e)
    requires s == (if |e| % 2 == 0 then Buy else Sell)
    ensures Alternating(e + [s])
  {
  }

  lemma EventsSnoc(sig: seq<SignalRow>, x: SignalRow)
    ensures Events(sig + [x]) == Events(sig) + (if x.buy.Some? then [Buy] else []) + (if x.sell.Some? then [Sell] else [])
    ensures CountBuys(sig + [x]) == CountBuys(sig) + (if x.buy.Some? then 1 else 0)
    ensures CountSells(sig + [x]) == CountSells(sig) + (if x.sell.Some? then 1 else 0)
  {
    assert (sig + [x])[..|sig|] == sig;
  }

  /** Regenerating the signals of a signal frame gives the same frame. */
  lemma GenerateSignalsIdempotent(rows: seq<IndicatorRow>)
    ensures Signals(Indicators(Signals(rows))) == Signals(rows)
  {
    assert Indicators(Signals(rows)) == rows;
  }

  /** The `buy` column of a signal frame. */
  function BuyColumn(sig: seq<SignalRow>): (col: seq<Option<real>>)
    ensures |col| == |sig|
    ensures forall k :: 0 <= k < |sig| ==> col[k] == sig[k].buy
  {
    seq(|sig|, k requires 0 <= k < |sig| => sig[k].buy)
  }

  /** The `sell` column of a signal frame. */
  function SellColumn(sig: seq<SignalRow>): (col: seq<Option<real>>)
    ensures |col| == |sig|
    ensures forall k :: 0 <= k < |sig| ==> col[k] == sig[k].sell
  {
    seq(|sig|, k requires 0 <= k < |sig| => sig[k].sell)
  }

  lemma ColumnsSnoc(sig: seq<SignalRow>, x: SignalRow)
    ensures BuyColumn(sig + [x]) == BuyColumn(sig) + [x.buy]
    ensures SellColumn(sig + [x]) == SellColumn(sig) + [x.sell]
  {
    assert BuyColumn(sig + [x]) == BuyColumn(sig) + [x.buy];
    assert SellColumn(sig + [x]) == SellColumn(sig) + [x.sell];
  }

  /** `SignalGenerator`: holds the frame and stamps the signal columns onto it in place. */
  class SignalGenerator {
    /** The frame; its buy/sell cells are empty until `GenerateSignals` writes them. */
    var data: seq<SignalRow>

    constructor (df: seq<IndicatorRow>)
      ensures data == Unsignalled(df)
    {
      data := Unsignalled(df);
    }

    /** `generate_signals`: walks the rows with the position flag, collects one buy and
        one sell cell per row, writes both columns into the frame and returns it.  Cells a
        previous call wrote are overwritten. */
    method GenerateSignals() returns (df: seq<SignalRow>)
      modifies this
      ensures data == Signals(Indicators(old(data)))
      ensures df == data
    {
      var rows := Indicators(data);
      var position := Flat;
      var buyPrice: seq<Option<real>> := [];
      var sellPrice: seq<Option<real>> := [];
      for i := 0 to |rows|
        invariant position == PositionAfter(rows[..i])
        invariant buyPrice == BuyColumn(Signals(rows[..i]))
        invariant sellPrice == SellColumn(Signals(rows[..i]))
      {
        var row := rows[i];
        ghost var emitted := Emit(position, row);
        SignalsStep(rows, i);
        ColumnsSnoc(Signals(rows[..i]), emitted);
        if BuyCondition(row) && position == Flat {
          position := Long;
          buyPrice := buyPrice + [Some(row.Close())];
          sellPrice := sellPrice + [None];
        } else if SellCondition(row) && position == Long {
          position := Flat;
          sellPrice := sellPrice + [Some(row.Close())];
          buyPrice := buyPrice + [None];
        } else {
          buyPrice := buyPrice + [None];
          sellPrice := sellPrice + [None];
        }
      }
      assert rows[..|rows|] == rows;
      data := seq(|rows|, k requires 0 <= k < |rows| => SignalRow(rows[k], buyPrice[k], sellPrice[k]));
      df := data;
    }
  }
}
