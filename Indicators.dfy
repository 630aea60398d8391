/**
 * The indicator library shared by the screeners: exponential and simple moving
 * averages, RSI (two warm-up variants), true range and ATR, directional movement
 * and ADX, Bollinger bands, the stochastic oscillator and the cumulative
 * relative-strength ratio.  Every indicator column has the length of its input.
 */
module Indicators {
  import opened Numeric
  import opened Bars

  // ---------------------------------------------------------------------------
  // Exponential moving average: pandas `ewm(span, adjust=False).mean()`.
  // ---------------------------------------------------------------------------

  /** The smoothing factor 2 / (span + 1). */
  function Alpha(span: nat): real
  {
    2.0 / (span as real + 1.0)
  }

  lemma AlphaRange(span: nat)
    requires span >= 1
    ensures 0.0 < Alpha(span) <= 1.0
    ensures span >= 2 ==> Alpha(span) < 1.0
  {
    assert Alpha(span) * (span as real + 1.0) == 2.0;
  }

  /** Seeded with the first observation, then alpha * x[t] + (1 - alpha) * ema[t - 1]. */
  function EmaAt(xs: seq<real>, span: nat, t: nat): real
    requires t < |xs|
  {
    if t == 0 then xs[0]
    else Alpha(span) * xs[t] + (1.0 - Alpha(span)) * EmaAt(xs, span, t - 1)
  }

  function Ema(xs: seq<real>, span: nat): (r: seq<real>)
    ensures |r| == |xs|
    ensures |xs| > 0 ==> r[0] == xs[0]
    ensures forall t :: 0 < t < |xs| ==> r[t] == Alpha(span) * xs[t] + (1.0 - Alpha(span)) * r[t - 1]
  {
    seq(|xs|, t requires 0 <= t < |xs| => EmaAt(xs, span, t))
  }

  /** Every EMA value stays inside any range that holds the inputs seen so far. */
  lemma {:induction false} EmaWithinRange(xs: seq<real>, span: nat, t: nat, lo: real, hi: real)
    requires span >= 1 && t < |xs|
    requires forall j :: 0 <= j <= t ==> lo <= xs[j] <= hi
    ensures lo <= Ema(xs, span)[t] <= hi
  {
    if t > 0 {
      EmaWithinRange(xs, span, t - 1, lo, hi);
      var a := Alpha(span);
      var e := EmaAt(xs, span, t - 1);
      AlphaRange(span);
      ConvexWithin(a, xs[t], e, lo, hi);
    }
  }

  /** Every EMA value lies between the minimum and the maximum of the prefix it has seen. */
  lemma EmaBetweenPrefixExtremes(xs: seq<real>, span: nat, t: nat)
    requires span >= 1 && t < |xs|
    ensures MinOf(xs[..t + 1]) <= Ema(xs, span)[t] <= MaxOf(xs[..t + 1])
  {
    var p := xs[..t + 1];
    forall j | 0 <= j <= t ensures MinOf(p) <= xs[j] <= MaxOf(p) {
      assert p[j] == xs[j];
    }
    EmaWithinRange(xs, span, t, MinOf(p), MaxOf(p));
  }

  /** The EMA of a constant series is that constant, whatever the span. */
  lemma {:induction false} EmaOfConstant(xs: seq<real>, span: nat, c: real, t: nat)
    requires t < |xs|
    requires forall j :: 0 <= j < |xs| ==> xs[j] == c
    ensures Ema(xs, span)[t] == c
  {
    if t > 0 {
      EmaOfConstant(xs, span, c, t - 1);
    }
  }

  /** An EMA of values all strictly below `x` is strictly below `x`. */
  lemma {:induction false} EmaStrictlyBelow(xs: seq<real>, span: nat, t: nat, x: real)
    requires span >= 1 && t < |xs|
    requires forall j :: 0 <= j <= t ==> xs[j] < x
    ensures EmaAt(xs, span, t) < x
  {
    if t > 0 {
      EmaStrictlyBelow(xs, span, t - 1, x);
      AlphaRange(span);
      ConvexStrictlyBelow(Alpha(span), xs[t], EmaAt(xs, span, t - 1), x);
    }
  }

  /**
   * When the newest value is strictly above every earlier one and the span is at
   * least 2, the EMA ends strictly below that newest value.
   */
  lemma EmaBelowNewHigh(xs: seq<real>, span: nat)
    requires span >= 2 && |xs| >= 2
    requires forall j :: 0 <= j < |xs| - 1 ==> xs[j] < xs[|xs| - 1]
    ensures Ema(xs, span)[|xs| - 1] < xs[|xs| - 1]
  {
    var t := |xs| - 1;
    EmaStrictlyBelow(xs, span, t - 1, xs[t]);
    var a := Alpha(span);
    var e := EmaAt(xs, span, t - 1);
    AlphaRange(span);
    ConvexBelow(a, xs[t], e);
    assert Ema(xs, span)[t] == a * xs[t] + (1.0 - a) * e;
  }

  /**
   * When the newest value is strictly below every earlier one, the EMA ends at or
   * above it.
   */
  lemma EmaAboveNewLow(xs: seq<real>, span: nat)
    requires span >= 1 && |xs| >= 1
    requires forall j :: 0 <= j < |xs| - 1 ==> xs[|xs| - 1] < xs[j]
    ensures xs[|xs| - 1] <= Ema(xs, span)[|xs| - 1]
  {
    var t := |xs| - 1;
    EmaWithinRange(xs, span, t, xs[t], MaxOf(xs));
  }

  // ---------------------------------------------------------------------------
  // True range and average true range.
  // ---------------------------------------------------------------------------

  /**
   * max(high - low, |high - previous close|, |low - previous close|).  On the first
   * row the previous close is NaN and pandas' row-wise `max` skips it, leaving
   * high - low.
   */
  function TrueRangeAt(bars: seq<Bar>, t: nat): (r: real)
    requires t < |bars|
    ensures r >= bars[t].high - bars[t].low
    ensures t == 0 ==> r == bars[0].high - bars[0].low
    ensures t > 0 ==> r >= Abs(bars[t].high - bars[t - 1].close) && r >= Abs(bars[t].low - bars[t - 1].close)
    ensures t > 0 ==> r == bars[t].high - bars[t].low || r == Abs(bars[t].high - bars[t - 1].close) ||
                      r == Abs(bars[t].low - bars[t - 1].close)
    ensures bars[t].low <= bars[t].high ==> r >= 0.0
  {
    if t == 0 then bars[0].high - bars[0].low
    else Max(bars[t].high - bars[t].low,
             Max(Abs(bars[t].high - bars[t - 1].close), Abs(bars[t].low - bars[t - 1].close)))
  }

  function TrueRange(bars: seq<Bar>): (tr: seq<real>)
    ensures |tr| == |bars|
    ensures |bars| > 0 ==> tr[0] == bars[0].high - bars[0].low
    ensures forall t :: 0 <= t < |bars| ==> tr[t] >= bars[t].high - bars[t].low
    ensures forall t :: 0 < t < |bars| ==>
      tr[t] >= Abs(bars[t].high - bars[t - 1].close) && tr[t] >= Abs(bars[t].low - bars[t - 1].close)
    ensures RangesValid(bars) ==> forall t :: 0 <= t < |bars| ==> tr[t] >= 0.0
  {
    seq(|bars|, t requires 0 <= t < |bars| => TrueRangeAt(bars, t))
  }

  /** Rolling mean of the true range over `period` rows. */
  function Atr(bars: seq<Bar>, period: nat): (r: Column)
    requires period > 0
    ensures |r| == |bars|
    ensures forall t :: 0 <= t < |bars| ==> (r[t].None? <==> t + 1 < period)
  {
    RollingMean(Lift(TrueRange(bars)), period)
  }

  /** ATR is undefined before row period - 1 and is the mean of the last `period` true ranges after. */
  lemma AtrWarmup(bars: seq<Bar>, period: nat, t: nat)
    requires period > 0 && t < |bars|
    ensures t + 1 < period <==> Atr(bars, period)[t].None?
    ensures t + 1 >= period ==> Atr(bars, period)[t] == Some(Mean(Window(TrueRange(bars), period, t)))
  {
    if t + 1 >= period {
      LiftWindow(TrueRange(bars), period, t);
    }
  }

  /** With valid bar ranges a defined ATR is non-negative. */
  lemma AtrNonNegative(bars: seq<Bar>, period: nat, t: nat)
    requires period > 0 && t < |bars| && RangesValid(bars)
    requires Atr(bars, period)[t].Some?
    ensures Atr(bars, period)[t].value >= 0.0
  {
    var tr := Lift(TrueRange(bars));
    forall j | 0 <= j < |tr| && tr[j].Some? ensures tr[j].value >= 0.0 {
      assert tr[j].value == TrueRangeAt(bars, j);
    }
    RollingMeanAtLeast(tr, period, t, 0.0);
  }

  /** ATR as a percentage of the close: (ATR / close) * 100. */
  function AtrPercent(bars: seq<Bar>, period: nat): (r: Column)
    requires period > 0
    ensures |r| == |bars|
    ensures forall t :: 0 <= t < |bars| ==> (r[t].Some? <==> t + 1 >= period && bars[t].close != 0.0)
  {
    var atr := Atr(bars, period);
    seq(|bars|, t requires 0 <= t < |bars| => Scale(100.0, Div(atr[t], Some(bars[t].close))))
  }

  // ---------------------------------------------------------------------------
  // RSI.  Gains and losses are the positive and negative parts of the one-row
  // change; their rolling means give RS = gain / loss and RSI = 100 - 100 / (1 + RS).
  // ---------------------------------------------------------------------------

  /** The positive part of the change into row `i`. */
  function Gain(xs: seq<real>, i: nat): (r: real)
    requires 0 < i < |xs|
    ensures r >= 0.0 && (r > 0.0 <==> xs[i] > xs[i - 1])
    ensures r > 0.0 ==> r == xs[i] - xs[i - 1]
  {
    Max(xs[i] - xs[i - 1], 0.0)
  }

  /** The negative part of the change into row `i`, as a non-negative number. */
  function Loss(xs: seq<real>, i: nat): (r: real)
    requires 0 < i < |xs|
    ensures r >= 0.0 && (r > 0.0 <==> xs[i] < xs[i - 1])
    ensures Gain(xs, i) - r == xs[i] - xs[i - 1]
  {
    Max(xs[i - 1] - xs[i], 0.0)
  }

  /**
   * Gains as `delta.where(delta > 0, 0)`: the first row's change is NaN, fails the
   * test and is replaced by 0.
   */
  function GainsWhere(xs: seq<real>): (g: Column)
    ensures |g| == |xs|
    ensures forall i :: 0 <= i < |xs| ==> g[i].Some? && g[i].value >= 0.0
    ensures |xs| > 0 ==> g[0] == Some(0.0)
    ensures forall i :: 0 < i < |xs| ==> g[i] == Some(Gain(xs, i))
  {
    seq(|xs|, i requires 0 <= i < |xs| => if i == 0 then Some(0.0) else Some(Gain(xs, i)))
  }

  /** Losses as `-delta.where(delta < 0, 0)`, with 0 on the first row. */
  function LossesWhere(xs: seq<real>): (l: Column)
    ensures |l| == |xs|
    ensures forall i :: 0 <= i < |xs| ==> l[i].Some? && l[i].value >= 0.0
    ensures |xs| > 0 ==> l[0] == Some(0.0)
    ensures forall i :: 0 < i < |xs| ==> l[i] == Some(Loss(xs, i))
  {
    seq(|xs|, i requires 0 <= i < |xs| => if i == 0 then Some(0.0) else Some(Loss(xs, i)))
  }

  /** Gains as `delta.clip(lower=0)`: the NaN of the first row is kept. */
  function GainsClip(xs: seq<real>): (g: Column)
    ensures |g| == |xs|
    ensures forall i :: 0 <= i < |xs| && g[i].Some? ==> g[i].value >= 0.0
    ensures |xs| > 0 ==> g[0].None?
    ensures forall i :: 0 < i < |xs| ==> g[i] == Some(Gain(xs, i))
  {
    seq(|xs|, i requires 0 <= i < |xs| => if i == 0 then None else Some(Gain(xs, i)))
  }

  /** Losses as `-1 * delta.clip(upper=0)`, NaN on the first row. */
  function LossesClip(xs: seq<real>): (l: Column)
    ensures |l| == |xs|
    ensures forall i :: 0 <= i < |xs| && l[i].Some? ==> l[i].value >= 0.0
    ensures |xs| > 0 ==> l[0].None?
    ensures forall i :: 0 < i < |xs| ==> l[i] == Some(Loss(xs, i))
  {
    seq(|xs|, i requires 0 <= i < |xs| => if i == 0 then None else Some(Loss(xs, i)))
  }

  /**
   * RSI from the average gain and loss of one row.  A zero average loss makes RS
   * infinite and RSI exactly 100, unless the average gain is zero too (0 / 0 is NaN).
   */
  function RsiFrom(gain: Option<real>, loss: Option<real>): (r: Option<real>)
    ensures gain.None? || loss.None? ==> r.None?
    ensures gain.Some? && loss.Some? && loss.value == 0.0 && gain.value > 0.0 ==> r == Some(100.0)
    ensures gain.Some? && loss.Some? && loss.value == 0.0 && gain.value == 0.0 ==> r.None?
    ensures gain.Some? && loss.Some? && gain.value >= 0.0 && loss.value >= 0.0 && r.Some? ==>
      0.0 <= r.value <= 100.0
    ensures gain.Some? && loss.Some? && gain.value >= 0.0 && loss.value > 0.0 ==>
      r.Some? && r.value < 100.0 && r.value * (gain.value + loss.value) == 100.0 * gain.value
  {
    if gain.None? || loss.None? then None
    else if loss.value == 0.0 then (if gain.value == 0.0 then None else Some(100.0))
    else
      var rs := gain.value / loss.value;
      if 1.0 + rs == 0.0 then None
      else
        var r := 100.0 - 100.0 / (1.0 + rs);
        assert gain.value >= 0.0 && loss.value > 0.0 ==> r * (gain.value + loss.value) == 100.0 * gain.value by {
          if gain.value >= 0.0 && loss.value > 0.0 {
            assert rs * loss.value == gain.value;
            assert (1.0 + rs) * loss.value == gain.value + loss.value;
            assert (100.0 / (1.0 + rs)) * (1.0 + rs) == 100.0;
          }
        }
        Some(r)
  }

  /** RSI over precomputed gain and loss columns. */
  function RsiOf(gains: Column, losses: Column, period: nat): (r: Column)
    requires period > 0 && |gains| == |losses|
    ensures |r| == |gains|
    ensures forall i :: 0 <= i < |gains| && i + 1 < period ==> r[i].None?
    ensures forall i :: 0 <= i < |gains| ==> r[i] == RsiFrom(RollingMean(gains, period)[i], RollingMean(losses, period)[i])
  {
    var ag := RollingMean(gains, period);
    var al := RollingMean(losses, period);
    seq(|gains|, i requires 0 <= i < |gains| => RsiFrom(ag[i], al[i]))
  }

  /** The RSI whose first change is taken as 0 (the `where` variant). */
  function RsiWhere(xs: seq<real>, period: nat): (r: Column)
    requires period > 0
    ensures |r| == |xs|
    ensures forall i :: 0 <= i < |xs| && i + 1 < period ==> r[i].None?
  {
    RsiOf(GainsWhere(xs), LossesWhere(xs), period)
  }

  /** The RSI whose first change stays NaN (the `clip` variant, `min_periods = period`). */
  function RsiClip(xs: seq<real>, period: nat): (r: Column)
    requires period > 0
    ensures |r| == |xs|
    ensures forall i :: 0 <= i < |xs| && i < period ==> r[i].None?
  {
    RsiOf(GainsClip(xs), LossesClip(xs), period)
  }

  /** Averages of non-negative columns give an RSI in [0, 100] whenever it is defined. */
  lemma RsiOfBounded(gains: Column, losses: Column, period: nat, i: nat)
    requires period > 0 && |gains| == |losses| && i < |gains|
    requires forall j :: 0 <= j < |gains| && gains[j].Some? ==> gains[j].value >= 0.0
    requires forall j :: 0 <= j < |losses| && losses[j].Some? ==> losses[j].value >= 0.0
    requires RsiOf(gains, losses, period)[i].Some?
    ensures 0.0 <= RsiOf(gains, losses, period)[i].value <= 100.0
  {
    RollingMeanAtLeast(gains, period, i, 0.0);
    RollingMeanAtLeast(losses, period, i, 0.0);
  }

  /** Both RSI variants lie in [0, 100] wherever they are defined. */
  lemma RsiBounded(xs: seq<real>, period: nat, i: nat)
    requires period > 0 && i < |xs|
    ensures RsiWhere(xs, period)[i].Some? ==> 0.0 <= RsiWhere(xs, period)[i].value <= 100.0
    ensures RsiClip(xs, period)[i].Some? ==> 0.0 <= RsiClip(xs, period)[i].value <= 100.0
  {
    if RsiWhere(xs, period)[i].Some? {
      RsiOfBounded(GainsWhere(xs), LossesWhere(xs), period, i);
    }
    if RsiClip(xs, period)[i].Some? {
      RsiClipBounded(xs, period, i);
    }
  }

  /** The `clip` RSI lies in [0, 100] wherever it is defined. */
  lemma RsiClipBounded(xs: seq<real>, period: nat, i: nat)
    requires period > 0 && i < |xs| && RsiClip(xs, period)[i].Some?
    ensures 0.0 <= RsiClip(xs, period)[i].value <= 100.0
  {
    RsiOfBounded(GainsClip(xs), LossesClip(xs), period, i);
  }

  /**
   * The `where` RSI is undefined before row period - 1; from there on it is undefined
   * exactly when the average gain and the average loss are both zero.
   */
  lemma RsiWhereWarmup(xs: seq<real>, period: nat, i: nat)
    requires period > 0 && i < |xs|
    ensures i + 1 < period ==> RsiWhere(xs, period)[i].None?
    ensures i + 1 >= period ==>
      var ag := RollingMean(GainsWhere(xs), period)[i];
      var al := RollingMean(LossesWhere(xs), period)[i];
      ag.Some? && al.Some? &&
      (RsiWhere(xs, period)[i].None? <==> ag.value == 0.0 && al.value == 0.0)
  {
    if i + 1 >= period {
      assert RollingMean(GainsWhere(xs), period)[i].Some?;
      assert RollingMean(LossesWhere(xs), period)[i].Some?;
      RsiBounded(xs, period, i);
      RollingMeanAtLeast(GainsWhere(xs), period, i, 0.0);
      RollingMeanAtLeast(LossesWhere(xs), period, i, 0.0);
    }
  }

  /**
   * The `clip` RSI is undefined up to and including row period - 1 (its window still
   * holds the NaN of row 0); from row `period` on it is undefined exactly when both
   * averages are zero.
   */
  lemma RsiClipWarmup(xs: seq<real>, period: nat, i: nat)
    requires period > 0 && i < |xs|
    ensures i < period ==> RsiClip(xs, period)[i].None?
    ensures i >= period ==>
      var ag := RollingMean(GainsClip(xs), period)[i];
      var al := RollingMean(LossesClip(xs), period)[i];
      ag.Some? && al.Some? &&
      (RsiClip(xs, period)[i].None? <==> ag.value == 0.0 && al.value == 0.0)
  {
    var g, l := GainsClip(xs), LossesClip(xs);
    if i < period {
      assert g[0].None?;
      assert RollingMean(g, period)[i].None?;
    } else {
      forall j | i + 1 - period <= j <= i ensures g[j].Some? && l[j].Some? {
        assert j > 0;
      }
      assert RollingMean(g, period)[i].Some?;
      assert RollingMean(l, period)[i].Some?;
      RsiBounded(xs, period, i);
      RollingMeanAtLeast(GainsClip(xs), period, i, 0.0);
      RollingMeanAtLeast(LossesClip(xs), period, i, 0.0);
    }
  }

  /** With a window of gains all zero except at least one positive, and losses all zero, RSI is 100. */
  lemma RsiOfAllGains(gains: Column, losses: Column, period: nat, i: nat, k: nat)
    requires period > 0 && |gains| == |losses| && period <= i + 1 && i < |gains|
    requires i + 1 - period <= k <= i
    requires forall j :: i + 1 - period <= j <= i ==>
      gains[j].Some? && gains[j].value >= 0.0 && losses[j] == Some(0.0)
    requires gains[k].value > 0.0
    ensures RsiOf(gains, losses, period)[i] == Some(100.0)
  {
    var gw := Window(gains, period, i);
    var lw := Window(losses, period, i);
    forall m | 0 <= m < period ensures gw[m] == gains[i + 1 - period + m] && lw[m] == losses[i + 1 - period + m] {
    }
    var gv := Values(gw);
    var lv := Values(lw);
    SumPositive(gv, k - (i + 1 - period));
    SumAtMost(lv, 0.0);
    SumAtLeast(lv, 0.0);
  }

  /** For strictly rising prices both RSI variants are exactly 100 from row `period` on. */
  lemma RsiOfRisingPrices(xs: seq<real>, period: nat, i: nat)
    requires period > 0 && period <= i < |xs|
    requires forall j :: 0 < j < |xs| ==> xs[j - 1] < xs[j]
    ensures RsiWhere(xs, period)[i] == Some(100.0)
    ensures RsiClip(xs, period)[i] == Some(100.0)
  {
    var gw, lw, gc, lc := GainsWhere(xs), LossesWhere(xs), GainsClip(xs), LossesClip(xs);
    forall j | 0 < j < |xs|
      ensures gw[j] == gc[j] == Some(Gain(xs, j)) && Gain(xs, j) > 0.0
      ensures lw[j] == lc[j] == Some(0.0)
    {
      assert xs[j - 1] < xs[j];
    }
    RsiOfAllGains(gw, lw, period, i, i);
    RsiOfAllGains(gc, lc, period, i, i);
  }

  /** Gain and loss columns whose defined values are all zero never give a defined RSI. */
  lemma RsiOfFlat(gains: Column, losses: Column, period: nat, i: nat)
    requires period > 0 && |gains| == |losses| && i < |gains|
    requires forall j :: 0 <= j < |gains| && gains[j].Some? ==> gains[j].value == 0.0
    requires forall j :: 0 <= j < |losses| && losses[j].Some? ==> losses[j].value == 0.0
    ensures RsiOf(gains, losses, period)[i].None?
  {
    if RollingMean(gains, period)[i].Some? {
      RollingMeanBounds(gains, period, i, 0.0, 0.0);
    }
    if RollingMean(losses, period)[i].Some? {
      RollingMeanBounds(losses, period, i, 0.0, 0.0);
    }
  }

  lemma FlatGainsWhere(xs: seq<real>)
    requires forall j :: 0 <= j < |xs| ==> xs[j] == xs[0]
    ensures forall j :: 0 <= j < |xs| ==> GainsWhere(xs)[j] == Some(0.0) && LossesWhere(xs)[j] == Some(0.0)
  {
    var gw, lw := GainsWhere(xs), LossesWhere(xs);
    forall j | 0 < j < |xs| ensures gw[j] == Some(0.0) && lw[j] == Some(0.0) {
      assert xs[j] == xs[j - 1];
      assert gw[j] == Some(Gain(xs, j)) && lw[j] == Some(Loss(xs, j));
    }
  }

  lemma FlatGainsClip(xs: seq<real>)
    requires forall j :: 0 <= j < |xs| ==> xs[j] == xs[0]
    ensures forall j :: 0 <= j < |xs| && GainsClip(xs)[j].Some? ==> GainsClip(xs)[j].value == 0.0
    ensures forall j :: 0 <= j < |xs| && LossesClip(xs)[j].Some? ==> LossesClip(xs)[j].value == 0.0
  {
    FlatGainsWhere(xs);
    forall j | 0 <= j < |xs| && GainsClip(xs)[j].Some? ensures GainsClip(xs)[j].value == 0.0 {
      assert j > 0;
    }
    forall j | 0 <= j < |xs| && LossesClip(xs)[j].Some? ensures LossesClip(xs)[j].value == 0.0 {
      assert j > 0;
    }
  }

  /** For a constant price series neither RSI variant is ever defined (0 / 0). */
  lemma RsiOfConstantPrices(xs: seq<real>, period: nat, i: nat)
    requires period > 0 && i < |xs|
    requires forall j :: 0 <= j < |xs| ==> xs[j] == xs[0]
    ensures RsiWhere(xs, period)[i].None?
    ensures RsiClip(xs, period)[i].None?
  {
    FlatGainsWhere(xs);
    RsiOfFlat(GainsWhere(xs), LossesWhere(xs), period, i);
    FlatGainsClip(xs);
    RsiOfFlat(GainsClip(xs), LossesClip(xs), period, i);
  }

  // ---------------------------------------------------------------------------
  // Directional movement, DI, DX and ADX.
  // ---------------------------------------------------------------------------

  /**
   * (+DM, -DM) per row.  The up move is high - previous high and the down move is
   * previous low - low; each counts only when positive and strictly larger than the
   * other.  On the first row both moves are NaN, the tests fail and both are 0.
   */
  function DirectionalMovementAt(bars: seq<Bar>, t: nat): (dm: (real, real))
    requires t < |bars|
    ensures dm.0 >= 0.0 && dm.1 >= 0.0 && !(dm.0 > 0.0 && dm.1 > 0.0)
    ensures t == 0 ==> dm == (0.0, 0.0)
    ensures t > 0 ==>
      var up := bars[t].high - bars[t - 1].high;
      var down := bars[t - 1].low - bars[t].low;
      (dm.0 > 0.0 <==> up > down && up > 0.0) && (dm.0 > 0.0 ==> dm.0 == up) &&
      (dm.1 > 0.0 <==> down > up && down > 0.0) && (dm.1 > 0.0 ==> dm.1 == down)
  {
    if t == 0 then (0.0, 0.0)
    else
      var up := bars[t].high - bars[t - 1].high;
      var down := bars[t - 1].low - bars[t].low;
      (if up > down && up > 0.0 then up else 0.0, if down > up && down > 0.0 then down else 0.0)
  }

  function PlusDM(bars: seq<Bar>): (r: seq<real>)
    ensures |r| == |bars|
    ensures |bars| > 0 ==> r[0] == 0.0
    ensures forall t :: 0 <= t < |bars| ==> r[t] >= 0.0
    ensures forall t :: 0 < t < |bars| ==>
      (r[t] > 0.0 <==> bars[t].high - bars[t - 1].high > bars[t - 1].low - bars[t].low && bars[t].high - bars[t - 1].high > 0.0) &&
      (r[t] > 0.0 ==> r[t] == bars[t].high - bars[t - 1].high)
  {
    seq(|bars|, t requires 0 <= t < |bars| => DirectionalMovementAt(bars, t).0)
  }

  function MinusDM(bars: seq<Bar>): (r: seq<real>)
    ensures |r| == |bars|
    ensures |bars| > 0 ==> r[0] == 0.0
    ensures forall t :: 0 <= t < |bars| ==> r[t] >= 0.0 && !(r[t] > 0.0 && PlusDM(bars)[t] > 0.0)
    ensures forall t :: 0 < t < |bars| ==>
      (r[t] > 0.0 <==> bars[t - 1].low - bars[t].low > bars[t].high - bars[t - 1].high && bars[t - 1].low - bars[t].low > 0.0) &&
      (r[t] > 0.0 ==> r[t] == bars[t - 1].low - bars[t].low)
  {
    seq(|bars|, t requires 0 <= t < |bars| => DirectionalMovementAt(bars, t).1)
  }

  /** 100 * (rolling mean of a DM column / rolling mean of the true range). */
  function DirectionalIndex(dm: seq<real>, bars: seq<Bar>, period: nat): (r: Column)
    requires period > 0 && |dm| == |bars|
    ensures |r| == |bars|
    ensures forall t :: 0 <= t < |bars| ==> (r[t].Some? <==> t + 1 >= period && Atr(bars, period)[t].value != 0.0)
  {
    var dmS := RollingMean(Lift(dm), period);
    var trS := Atr(bars, period);
    seq(|bars|, t requires 0 <= t < |bars| => Scale(100.0, Div(dmS[t], trS[t])))
  }

  function PlusDI(bars: seq<Bar>, period: nat): (r: Column)
    requires period > 0
    ensures |r| == |bars|
    ensures forall t :: 0 <= t < |bars| ==> (r[t].Some? <==> t + 1 >= period && Atr(bars, period)[t].value != 0.0)
  {
    DirectionalIndex(PlusDM(bars), bars, period)
  }

  function MinusDI(bars: seq<Bar>, period: nat): (r: Column)
    requires period > 0
    ensures |r| == |bars|
    ensures forall t :: 0 <= t < |bars| ==> (r[t].Some? <==> t + 1 >= period && Atr(bars, period)[t].value != 0.0)
  {
    DirectionalIndex(MinusDM(bars), bars, period)
  }

  /** DX = 100 * |+DI - -DI| / (+DI + -DI); NaN when the sum is zero. */
  function DxFrom(plus: Option<real>, minus: Option<real>): (r: Option<real>)
    ensures r.Some? <==> plus.Some? && minus.Some? && plus.value + minus.value != 0.0
    ensures r.Some? && plus.value >= 0.0 && minus.value >= 0.0 ==> 0.0 <= r.value <= 100.0
  {
    if plus.Some? && minus.Some? && plus.value + minus.value != 0.0 then
      var s := plus.value + minus.value;
      var d := Abs(plus.value - minus.value) / s;
      assert plus.value >= 0.0 && minus.value >= 0.0 ==> 0.0 <= d <= 1.0 by {
        if plus.value >= 0.0 && minus.value >= 0.0 {
          RatioInUnit(Abs(plus.value - minus.value), s);
        }
      }
      Some(100.0 * d)
    else None
  }

  function Dx(bars: seq<Bar>, period: nat): (r: Column)
    requires period > 0
    ensures |r| == |bars|
    ensures forall t :: 0 <= t < |bars| ==>
      (r[t].Some? <==> PlusDI(bars, period)[t].Some? && MinusDI(bars, period)[t].Some? &&
                       PlusDI(bars, period)[t].value + MinusDI(bars, period)[t].value != 0.0)
  {
    var p := PlusDI(bars, period);
    var m := MinusDI(bars, period);
    seq(|bars|, t requires 0 <= t < |bars| => DxFrom(p[t], m[t]))
  }

  /** ADX: the rolling mean of DX over `period` rows. */
  function Adx(bars: seq<Bar>, period: nat): (r: Column)
    requires period > 0
    ensures |r| == |bars|
    ensures forall t :: 0 <= t < |bars| ==>
      (r[t].Some? <==> t + 1 >= period && forall j :: t + 1 - period <= j <= t ==> Dx(bars, period)[j].Some?)
  {
    RollingMean(Dx(bars, period), period)
  }

  /** With valid bar ranges a defined directional index is non-negative. */
  lemma DirectionalIndexNonNegative(dm: seq<real>, bars: seq<Bar>, period: nat, t: nat)
    requires period > 0 && |dm| == |bars| && t < |bars| && RangesValid(bars)
    requires forall j :: 0 <= j < |dm| ==> dm[j] >= 0.0
    requires DirectionalIndex(dm, bars, period)[t].Some?
    ensures DirectionalIndex(dm, bars, period)[t].value >= 0.0
  {
    var dmS := RollingMean(Lift(dm), period);
    var trS := Atr(bars, period);
    RollingMeanAtLeast(Lift(dm), period, t, 0.0);
    AtrNonNegative(bars, period, t);
    assert trS[t].value > 0.0;
    RatioNonNegative(dmS[t].value, trS[t].value);
  }

  /** With valid bar ranges a defined DX lies in [0, 100]. */
  lemma DxBounded(bars: seq<Bar>, period: nat, t: nat)
    requires period > 0 && t < |bars| && RangesValid(bars)
    requires Dx(bars, period)[t].Some?
    ensures 0.0 <= Dx(bars, period)[t].value <= 100.0
  {
    DirectionalIndexNonNegative(PlusDM(bars), bars, period, t);
    DirectionalIndexNonNegative(MinusDM(bars), bars, period, t);
  }

  /** With valid bar ranges a defined ADX lies in [0, 100]. */
  lemma AdxBounded(bars: seq<Bar>, period: nat, t: nat)
    requires period > 0 && t < |bars| && RangesValid(bars)
    requires Adx(bars, period)[t].Some?
    ensures 0.0 <= Adx(bars, period)[t].value <= 100.0
  {
    var dx := Dx(bars, period);
    forall j | 0 <= j < |dx| && dx[j].Some? ensures 0.0 <= dx[j].value <= 100.0 {
      DxBounded(bars, period, j);
    }
    RollingMeanBounds(dx, period, t, 0.0, 100.0);
  }

  /**
   * ADX needs a full window of DX values, each of which needs full DI windows: it is
   * undefined before row 2 * period - 2, and an undefined DX inside its window makes
   * it undefined.
   */
  lemma AdxWarmup(bars: seq<Bar>, period: nat, t: nat)
    requires period > 0 && t < |bars|
    ensures t + 2 < 2 * period ==> Adx(bars, period)[t].None?
    ensures t + 1 >= period && (exists j :: t + 1 - period <= j <= t && Dx(bars, period)[j].None?) ==>
      Adx(bars, period)[t].None?
  {
    var dx := Dx(bars, period);
    if t + 2 < 2 * period && t + 1 >= period {
      var j := t + 1 - period;
      assert Atr(bars, period)[j].None?;
      assert dx[j].None?;
      assert RollingMean(dx, period)[t].None?;
    }
    if t + 1 >= period && (exists j :: t + 1 - period <= j <= t && dx[j].None?) {
      assert RollingMean(dx, period)[t].None?;
    }
  }

  /** The first warm-up bound of `AdxWarmup`, on every row at once. */
  lemma AdxWarmupEverywhere(bars: seq<Bar>, period: nat)
    requires period > 0
    ensures forall t :: 0 <= t < |bars| && t + 2 < 2 * period ==> Adx(bars, period)[t].None?
  {
    forall t | 0 <= t < |bars| && t + 2 < 2 * period ensures Adx(bars, period)[t].None? {
      AdxWarmup(bars, period, t);
    }
  }

  // ---------------------------------------------------------------------------
  // Bollinger bands.  The rolling standard deviation needs a square root; it is a
  // parameter `stdDev` applied to each full window.
  // ---------------------------------------------------------------------------

  datatype Bands = Bands(upper: Option<real>, middle: Option<real>, lower: Option<real>,
                         width: Option<real>, percentB: Option<real>)

  /** The bands at one row from the close, the middle band and sigma. */
  function BandsAt(close: real, middle: Option<real>, sigma: Option<real>, k: real): (b: Bands)
    ensures b.middle == middle
    ensures b.upper.Some? <==> middle.Some? && sigma.Some?
    ensures b.lower.Some? <==> middle.Some? && sigma.Some?
    ensures middle.Some? && sigma.Some? ==>
      b.upper.value - middle.value == k * sigma.value && middle.value - b.lower.value == k * sigma.value
  {
    var upper := Add(middle, Scale(k, sigma));
    var lower := Sub(middle, Scale(k, sigma));
    Bands(upper, middle, lower, Div(Sub(upper, lower), middle), Div(Sub(Some(close), lower), Sub(upper, lower)))
  }

  /** pandas `rolling(window).std()` with the window statistic supplied as `stdDev`. */
  function RollingStd(xs: seq<real>, window: nat, stdDev: seq<real> -> real): (r: Column)
    requires window > 0
    ensures |r| == |xs|
    ensures forall i :: 0 <= i < |xs| ==> (r[i].Some? <==> i + 1 >= window)
    ensures forall i :: 0 <= i < |xs| && i + 1 >= window ==> r[i].value == stdDev(Window(xs, window, i))
  {
    seq(|xs|, i requires 0 <= i < |xs| => if i + 1 < window then None else Some(stdDev(Window(xs, window, i))))
  }

  function Bollinger(closes: seq<real>, period: nat, k: real, stdDev: seq<real> -> real): (r: seq<Bands>)
    requires period > 0
    ensures |r| == |closes|
    ensures forall i :: 0 <= i < |closes| ==>
      r[i].middle == RollingMean(Lift(closes), period)[i] &&
      (r[i].middle.Some? <==> i + 1 >= period) && (r[i].upper.Some? <==> i + 1 >= period) &&
      (r[i].lower.Some? <==> i + 1 >= period)
  {
    var mid := RollingMean(Lift(closes), period);
    var sd := RollingStd(closes, period, stdDev);
    seq(|closes|, i requires 0 <= i < |closes| => BandsAt(closes[i], mid[i], sd[i], k))
  }

  /**
   * With sigma >= 0 and k >= 0 the bands are ordered upper >= middle >= lower.  With
   * sigma > 0 and k > 0, %B exceeds 0.5 exactly when the close is above the middle
   * band.  %B is undefined whenever the bands coincide.
   */
  lemma BandsProperties(close: real, middle: Option<real>, sigma: Option<real>, k: real)
    ensures var b := BandsAt(close, middle, sigma, k);
      middle.Some? && sigma.Some? && sigma.value >= 0.0 && k >= 0.0 ==>
        b.upper.value >= middle.value >= b.lower.value
    ensures var b := BandsAt(close, middle, sigma, k);
      middle.Some? && sigma.Some? && sigma.value > 0.0 && k > 0.0 ==>
        b.percentB.Some? && (b.percentB.value > 0.5 <==> close > middle.value)
    ensures var b := BandsAt(close, middle, sigma, k);
      b.upper.Some? && b.lower.Some? && b.upper.value == b.lower.value ==> b.percentB.None?
  {
    var b := BandsAt(close, middle, sigma, k);
    if middle.Some? && sigma.Some? && sigma.value > 0.0 && k > 0.0 {
      var m, ks := middle.value, k * sigma.value;
      assert ks > 0.0;
      var pb := (close - (m - ks)) / ((m + ks) - (m - ks));
      assert b.percentB == Some(pb);
      assert pb * (2.0 * ks) == close - m + ks;
      assert pb > 0.5 <==> pb * (2.0 * ks) > ks;
    }
  }

  // ---------------------------------------------------------------------------
  // Stochastic oscillator.
  // ---------------------------------------------------------------------------

  /**
   * %K = 100 * (close - lowest low) / (highest high - lowest low) over the last
   * `kPeriod` rows; NaN until the window is full and when the range is zero.
   */
  function StochKAt(bars: seq<Bar>, kPeriod: nat, i: nat): (r: Option<real>)
    requires kPeriod > 0 && i < |bars|
    ensures i + 1 < kPeriod ==> r.None?
    ensures (i + 1 >= kPeriod &&
             MaxOf(Window(Highs(bars), kPeriod, i)) == MinOf(Window(Lows(bars), kPeriod, i))) ==> r.None?
  {
    if i + 1 < kPeriod then None
    else
      var lowest := MinOf(Window(Lows(bars), kPeriod, i));
      var highest := MaxOf(Window(Highs(bars), kPeriod, i));
      Scale(100.0, Div(Some(bars[i].close - lowest), Some(highest - lowest)))
  }

  function StochK(bars: seq<Bar>, kPeriod: nat): (r: Column)
    requires kPeriod > 0
    ensures |r| == |bars|
    ensures forall i :: 0 <= i < |bars| && i + 1 < kPeriod ==> r[i].None?
  {
    seq(|bars|, i requires 0 <= i < |bars| => StochKAt(bars, kPeriod, i))
  }

  /** %D: the rolling mean of %K over `dPeriod` rows. */
  function StochD(bars: seq<Bar>, kPeriod: nat, dPeriod: nat): (r: Column)
    requires kPeriod > 0 && dPeriod > 0
    ensures |r| == |bars|
    ensures forall i :: 0 <= i < |bars| && i + 2 < kPeriod + dPeriod ==> r[i].None?
  {
    StochDWarmup(bars, kPeriod, dPeriod);
    RollingMean(StochK(bars, kPeriod), dPeriod)
  }

  /** %D needs `dPeriod` defined %K values, the first of which needs `kPeriod` bars. */
  lemma StochDWarmup(bars: seq<Bar>, kPeriod: nat, dPeriod: nat)
    requires kPeriod > 0 && dPeriod > 0
    ensures forall i :: 0 <= i < |bars| && i + 2 < kPeriod + dPeriod ==> RollingMean(StochK(bars, kPeriod), dPeriod)[i].None?
  {
    var k := StochK(bars, kPeriod);
    forall i | 0 <= i < |bars| && i + 2 < kPeriod + dPeriod ensures RollingMean(k, dPeriod)[i].None? {
      if i + 1 >= dPeriod {
        assert k[i + 1 - dPeriod].None?;
      }
    }
  }

  /**
   * %D on row i is defined exactly when the last `dPeriod` values of %K are all defined,
   * and is then their mean.
   */
  lemma StochDMeaning(bars: seq<Bar>, kPeriod: nat, dPeriod: nat, i: nat)
    requires kPeriod > 0 && dPeriod > 0 && i < |bars|
    ensures var k := StochK(bars, kPeriod);
      StochD(bars, kPeriod, dPeriod)[i].Some? <==> i + 1 >= dPeriod && AllDefined(Window(k, dPeriod, i))
    ensures var k := StochK(bars, kPeriod);
      StochD(bars, kPeriod, dPeriod)[i].Some? ==>
        StochD(bars, kPeriod, dPeriod)[i] == Some(Mean(Values(Window(k, dPeriod, i))))
  {
    MeanAtDefined(StochK(bars, kPeriod), dPeriod, i);
  }

  /** When every bar closes inside its own range, a defined %K lies in [0, 100]. */
  lemma StochKBounded(bars: seq<Bar>, kPeriod: nat, i: nat)
    requires kPeriod > 0 && i < |bars| && bars[i].low <= bars[i].close <= bars[i].high
    requires StochKAt(bars, kPeriod, i).Some?
    ensures 0.0 <= StochKAt(bars, kPeriod, i).value <= 100.0
  {
    var lw := Window(Lows(bars), kPeriod, i);
    var hw := Window(Highs(bars), kPeriod, i);
    assert lw[kPeriod - 1] == bars[i].low;
    assert hw[kPeriod - 1] == bars[i].high;
    var lowest, highest := MinOf(lw), MaxOf(hw);
    RatioInUnit(bars[i].close - lowest, highest - lowest);
  }

  /** When every bar closes inside its own range, a defined %D lies in [0, 100]. */
  lemma StochDBounded(bars: seq<Bar>, kPeriod: nat, dPeriod: nat, i: nat)
    requires kPeriod > 0 && dPeriod > 0 && i < |bars| && ClosesInRange(bars)
    requires StochD(bars, kPeriod, dPeriod)[i].Some?
    ensures 0.0 <= StochD(bars, kPeriod, dPeriod)[i].value <= 100.0
  {
    var k := StochK(bars, kPeriod);
    forall j | 0 <= j < |k| && k[j].Some? ensures 0.0 <= k[j].value <= 100.0 {
      assert k[j] == StochKAt(bars, kPeriod, j);
      StochKBounded(bars, kPeriod, j);
    }
    RollingMeanBounds(k, dPeriod, i, 0.0, 100.0);
  }

  // ---------------------------------------------------------------------------
  // Relative strength: the cumulative product of (1 + stock return) / (1 + benchmark
  // return) over index-aligned close series.
  // ---------------------------------------------------------------------------

  /** One row's factor; the first row has no previous close (NaN). */
  function GrowthFactor(stock: seq<real>, bench: seq<real>, j: nat): Option<real>
    requires j < |stock| == |bench|
  {
    if j == 0 then None
    else Div(Div(Some(stock[j]), Some(stock[j - 1])), Div(Some(bench[j]), Some(bench[j - 1])))
  }

  /** The product of the defined values among the first `t` rows (pandas skips NaN). */
  function RunningProduct(fs: Column, t: nat): real
    requires t <= |fs|
  {
    if t == 0 then 1.0
    else RunningProduct(fs, t - 1) * (if fs[t - 1].Some? then fs[t - 1].value else 1.0)
  }

  /** pandas `cumprod()`: NaN rows stay NaN, other rows hold the running product. */
  function CumProd(fs: Column): (r: Column)
    ensures |r| == |fs|
    ensures forall t :: 0 <= t < |fs| ==> (r[t].Some? <==> fs[t].Some?)
  {
    seq(|fs|, t requires 0 <= t < |fs| => if fs[t].None? then None else Some(RunningProduct(fs, t + 1)))
  }

  /**
   * The relative-strength column.  The series are taken as aligned row by row;
   * series of different lengths are not aligned by timestamp here and give an
   * undefined column.
   */
  function RelativeStrength(stock: seq<real>, bench: seq<real>): (r: Column)
    ensures |r| == |stock|
    ensures |stock| > 0 ==> r[0].None?
    ensures |stock| != |bench| ==> forall t :: 0 <= t < |stock| ==> r[t].None?
  {
    if |stock| != |bench| then seq(|stock|, t => None)
    else CumProd(seq(|stock|, j requires 0 <= j < |stock| => GrowthFactor(stock, bench, j)))
  }

  predicate Positive(xs: seq<real>)
  {
    forall i :: 0 <= i < |xs| ==> xs[i] > 0.0
  }

  lemma Telescope(s0: real, s1: real, s2: real, b0: real, b1: real, b2: real)
    requires s0 > 0.0 && s1 > 0.0 && s2 > 0.0 && b0 > 0.0 && b1 > 0.0 && b2 > 0.0
    ensures ((s1 / s0) / (b1 / b0)) * ((s2 / s1) / (b2 / b1)) == (s2 / s0) / (b2 / b0)
  {
    assert (s1 / s0) * (s2 / s1) == s2 / s0;
    assert (b1 / b0) * (b2 / b1) == b2 / b0;
  }

  /**
   * For aligned positive closes the cumulative product telescopes: row 0 is undefined
   * and row t >= 1 equals (S[t] / S[0]) / (B[t] / B[0]).
   */
  lemma {:induction false} RelativeStrengthTelescopes(stock: seq<real>, bench: seq<real>, t: nat)
    requires |stock| == |bench| && t < |stock| && Positive(stock) && Positive(bench)
    ensures t == 0 ==> RelativeStrength(stock, bench)[t].None?
    ensures t > 0 ==> RelativeStrength(stock, bench)[t] == Some((stock[t] / stock[0]) / (bench[t] / bench[0]))
  {
    var fs := seq(|stock|, j requires 0 <= j < |stock| => GrowthFactor(stock, bench, j));
    assert RelativeStrength(stock, bench) == CumProd(fs);
    if t > 0 {
      ProductTelescopes(stock, bench, fs, t);
    }
  }

  lemma {:induction false} ProductTelescopes(stock: seq<real>, bench: seq<real>, fs: Column, t: nat)
    requires |stock| == |bench| == |fs| && 0 < t < |stock| && Positive(stock) && Positive(bench)
    requires forall j :: 0 <= j < |fs| ==> fs[j] == GrowthFactor(stock, bench, j)
    ensures fs[t].Some?
    ensures RunningProduct(fs, t + 1) == (stock[t] / stock[0]) / (bench[t] / bench[0])
  {
    var f := (stock[t] / stock[t - 1]) / (bench[t] / bench[t - 1]);
    assert bench[t] / bench[t - 1] != 0.0;
    assert fs[t] == Some(f);
    if t == 1 {
      assert RunningProduct(fs, 1) == 1.0;
    } else {
      ProductTelescopes(stock, bench, fs, t - 1);
      Telescope(stock[0], stock[t - 1], stock[t], bench[0], bench[t - 1], bench[t]);
    }
  }
}
