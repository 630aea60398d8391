/** Price bars as delivered by the market-data provider, and their columns. */
module Bars {
  import opened Numeric

  /** One OHLCV bar; `time` is the bar's timestamp as an integer. */
  datatype Bar = Bar(time: int, open: real, high: real, low: real, close: real, volume: real)

  /**
   * The outcome of one download: `None` when the provider call raised or returned
   * no frame, otherwise the bars in chronological order (possibly none).
   */
  type Fetch = Option<seq<Bar>>

  function Closes(bars: seq<Bar>): seq<real>
  {
    seq(|bars|, i requires 0 <= i < |bars| => bars[i].close)
  }

  function Highs(bars: seq<Bar>): seq<real>
  {
    seq(|bars|, i requires 0 <= i < |bars| => bars[i].high)
  }

  function Lows(bars: seq<Bar>): seq<real>
  {
    seq(|bars|, i requires 0 <= i < |bars| => bars[i].low)
  }

  function Volumes(bars: seq<Bar>): seq<real>
  {
    seq(|bars|, i requires 0 <= i < |bars| => bars[i].volume)
  }

  /** Every bar's low is at most its high. */
  predicate RangesValid(bars: seq<Bar>)
  {
    forall i :: 0 <= i < |bars| ==> bars[i].low <= bars[i].high
  }

  /** Every bar closes inside its own range. */
  predicate ClosesInRange(bars: seq<Bar>)
  {
    forall i :: 0 <= i < |bars| ==> bars[i].low <= bars[i].close <= bars[i].high
  }

  /** Timestamps strictly increase along the series. */
  predicate Chronological(bars: seq<Bar>)
  {
    forall i, j :: 0 <= i < j < |bars| ==> bars[i].time < bars[j].time
  }
}
