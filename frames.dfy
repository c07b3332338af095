/** Record types of the price frame as it moves through the pipeline.

    A pandas frame is modelled as a sequence of rows.  Each stage adds columns, so each
    stage's row type wraps the previous stage's row unchanged; a float column that can
    hold NaN is an `Option<real>`, with `None` for NaN. */
module Frames {

  datatype Option<+T> = None | Some(value: T)

  datatype Result<+T, +E> = Ok(value: T) | Err(error: E)

  /** One OHLC candle as the market-data provider delivers it.  `index` is the frame's
      row label (the provider's frame uses the default integer index and keeps `time` as
      a column); the filtering stage keeps labels, so they need not be contiguous. */
  datatype Bar = Bar(
    index: int,
    time: int,
    open: real,
    high: real,
    low: real,
    close: real,
    vwap: real,
    volume: real,
    count: int)

  /** A bar with the four Bollinger columns added. */
  datatype BandRow = BandRow(
    bar: Bar,
    movingAvg: Option<real>,
    movingStdDev: Option<real>,
    upperBand: Option<real>,
    lowerBand: Option<real>)

  /** A Bollinger row with the RSI column and the two threshold columns added. */
  datatype IndicatorRow = IndicatorRow(
    bands: BandRow,
    rsi: Option<real>,
    overSold: real,
    overBought: real)
  {
    function Close(): real { bands.bar.close }
  }

  /** An indicator row with the `buy` and `sell` columns added. */
  datatype SignalRow = SignalRow(ind: IndicatorRow, buy: Option<real>, sell: Option<real>)
  {
    function Index(): int { ind.bands.bar.index }
  }

  /** The 0/1 `position` flag that both the signal generator and the backtester keep. */
  datatype Position = Flat | Long

  /** The 'buy' / 'sell' tag of a signal or of a logged position. */
  datatype Side = Buy | Sell

  /** Row labels are unique and strictly ascending. */
  predicate StrictlyAscending(labels: seq<int>)
  {
    forall i, j :: 0 <= i < j < |labels| ==> labels[i] < labels[j]
  }
}
