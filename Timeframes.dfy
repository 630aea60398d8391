/**
 * Checks that the DeepSeek, Alpha Vantage and S&P-list screeners share: the SPY
 * regime gate, the one-hour EMA trend, and the 15-minute EMA chain and volume test.
 */
module Timeframes {
  import opened Numeric
  import opened Bars
  import opened Indicators
  import opened Detectors

  /** The EMA of the closes over `span` at the last bar. */
  function LastEma(bars: seq<Bar>, span: nat): real
    requires |bars| > 0
  {
    Ema(Closes(bars), span)[|bars| - 1]
  }

  /**
   * `check_spy_above_ema200`: False when the download failed or holds fewer than 200
   * bars; otherwise whether the last close is above the 200-period EMA.
   */
  function SpyAboveEma200(spy: Fetch): (r: bool)
    ensures spy.None? || |spy.value| < 200 ==> !r
    ensures r ==> spy.value[|spy.value| - 1].close > LastEma(spy.value, 200)
    ensures spy.Some? && |spy.value| >= 200 ==> (r <==> spy.value[|spy.value| - 1].close > LastEma(spy.value, 200))
  {
    if spy.None? || |spy.value| < 200 then false
    else spy.value[|spy.value| - 1].close > LastEma(spy.value, 200)
  }

  /** A last close strictly above every earlier close opens the gate once 200 bars are in. */
  lemma GateOpensOnNewHigh(spy: seq<Bar>)
    requires |spy| >= 200
    requires forall j :: 0 <= j < |spy| - 1 ==> spy[j].close < spy[|spy| - 1].close
    ensures SpyAboveEma200(Some(spy))
  {
    var c := Closes(spy);
    EmaBelowNewHigh(c, 200);
  }

  /** A last close strictly below every earlier close keeps the gate shut. */
  lemma GateClosedOnNewLow(spy: seq<Bar>)
    requires |spy| >= 1
    requires forall j :: 0 <= j < |spy| - 1 ==> spy[|spy| - 1].close < spy[j].close
    ensures !SpyAboveEma200(Some(spy))
  {
    var c := Closes(spy);
    EmaAboveNewLow(c, 200);
  }

  /**
   * `check_1h_conditions`: False when the download failed or holds fewer than 100
   * bars; otherwise whether EMA50 is above EMA200 at the last bar.
   */
  function HourlyTrendUp(hourly: Fetch): (r: bool)
    ensures hourly.None? || |hourly.value| < 100 ==> !r
    ensures r ==> LastEma(hourly.value, 50) > LastEma(hourly.value, 200)
    ensures hourly.Some? && |hourly.value| >= 100 ==> (r <==> LastEma(hourly.value, 50) > LastEma(hourly.value, 200))
  {
    if hourly.None? || |hourly.value| < 100 then false
    else LastEma(hourly.value, 50) > LastEma(hourly.value, 200)
  }

  /** Flat prices never show an up-trend: both EMAs equal the constant close. */
  lemma FlatPricesNoHourlyTrend(hourly: seq<Bar>, c: real)
    requires forall j :: 0 <= j < |hourly| ==> hourly[j].close == c
    ensures !HourlyTrendUp(Some(hourly))
  {
    if |hourly| >= 100 {
      EmaOfConstant(Closes(hourly), 50, c, |hourly| - 1);
      EmaOfConstant(Closes(hourly), 200, c, |hourly| - 1);
    }
  }

  /** Close > EMA20 > EMA50 > EMA200 at the last bar (a chained Python comparison). */
  function EmaChain(bars: seq<Bar>): (r: bool)
    requires |bars| > 0
    ensures r ==> bars[|bars| - 1].close > LastEma(bars, 200)
  {
    var c := bars[|bars| - 1].close;
    c > LastEma(bars, 20) && LastEma(bars, 20) > LastEma(bars, 50) && LastEma(bars, 50) > LastEma(bars, 200)
  }

  /** Flat prices never pass the EMA chain. */
  lemma FlatPricesNoEmaChain(bars: seq<Bar>, c: real)
    requires |bars| > 0
    requires forall j :: 0 <= j < |bars| ==> bars[j].close == c
    ensures !EmaChain(bars)
  {
    EmaOfConstant(Closes(bars), 20, c, |bars| - 1);
  }

  /** The 20-bar rolling mean of the volume (pandas default: a full window is needed). */
  function VolumeMa20(bars: seq<Bar>): (r: Column)
    ensures |r| == |bars|
  {
    RollingMean(Lift(Volumes(bars)), 20)
  }

  /** The last volume is above its 20-bar average; False while that average is undefined. */
  function VolumeAboveAverage(bars: seq<Bar>): (r: bool)
    requires |bars| > 0
    ensures r ==> |bars| >= 20
  {
    Gt(Some(bars[|bars| - 1].volume), VolumeMa20(bars)[|bars| - 1])
  }

  /**
   * Once 20 bars are in, the average is defined and the test compares the last volume
   * with the mean of the last 20 volumes.
   */
  lemma VolumeTestMeaning(bars: seq<Bar>)
    requires |bars| >= 20
    ensures VolumeMa20(bars)[|bars| - 1] == Some(Mean(Window(Volumes(bars), 20, |bars| - 1)))
    ensures VolumeAboveAverage(bars) <==>
      bars[|bars| - 1].volume > Mean(Window(Volumes(bars), 20, |bars| - 1))
  {
    LiftWindow(Volumes(bars), 20, |bars| - 1);
  }

  /** The 14-period RSI of the closes (the `where` variant). */
  function Rsi14(bars: seq<Bar>): (r: Column)
    ensures |r| == |bars|
    ensures forall i :: 0 <= i < |bars| && i < 13 ==> r[i].None?
  {
    RsiWhere(Closes(bars), 14)
  }

  /** The 14-period ADX. */
  function Adx14(bars: seq<Bar>): (r: Column)
    ensures |r| == |bars|
    ensures forall i :: 0 <= i < |bars| && i < 26 ==> r[i].None?
  {
    AdxWarmupEverywhere(bars, 14);
    Adx(bars, 14)
  }

  /** The 14-period ATR as a percentage of the close. */
  function AtrPct14(bars: seq<Bar>): (r: Column)
    ensures |r| == |bars|
    ensures forall i :: 0 <= i < |bars| ==> (r[i].Some? <==> i >= 13 && bars[i].close != 0.0)
  {
    AtrPercent(bars, 14)
  }

  /** RSI above 55 and rising over the last three values. */
  function RsiCondition(bars: seq<Bar>): (r: bool)
    requires |bars| > 0
    ensures r ==> |bars| >= 16
  {
    RisingMeansDefinedAndIncreasing(Rsi14(bars), 3);
    Gt(Rsi14(bars)[|bars| - 1], Some(55.0)) && IsRising(Rsi14(bars), 3)
  }

  /**
   * A met RSI condition means the latest RSI lies in (55, 100] and the last three RSI
   * values are defined and strictly increasing.
   */
  lemma RsiConditionMeaning(bars: seq<Bar>)
    requires |bars| > 0 && RsiCondition(bars)
    ensures var n := |bars|; Rsi14(bars)[n - 1].Some? && 55.0 < Rsi14(bars)[n - 1].value <= 100.0
    ensures var n := |bars|;
      forall j, k :: n - 3 <= j < k < n ==>
        Rsi14(bars)[j].Some? && Rsi14(bars)[k].Some? && Rsi14(bars)[j].value < Rsi14(bars)[k].value
  {
    RsiBounded(Closes(bars), 14, |bars| - 1);
    RisingMeansDefinedAndIncreasing(Rsi14(bars), 3);
  }

  /** The 14-period stochastic %K. */
  function StochK14(bars: seq<Bar>): (r: Column)
    ensures |r| == |bars|
  {
    StochK(bars, 14)
  }

  /** The 3-row %D of the 14-period %K. */
  function StochD3(bars: seq<Bar>): (r: Column)
    ensures |r| == |bars|
  {
    StochD(bars, 14, 3)
  }

  /** %K (14) crossed above %D (3) on the last bar. */
  function StochCross(bars: seq<Bar>): (r: bool)
    ensures r ==> |bars| >= 17
  {
    CrossAbove(StochK14(bars), StochD3(bars))
  }
}
