/**
 * The optimized top-100 screener: `passes_filters` rejects a ticker at the first
 * failing check of a fixed chain (SPY regime, daily trend, relative strength,
 * hourly trend, 15-minute EMA chain, volume, RSI, ADX, ATR%), and `main` keeps the
 * tickers that pass, in input order.
 */
module Optimized {
  import opened Numeric
  import opened Bars
  import opened Indicators
  import opened Detectors
  import opened Timeframes

  /** The inputs of `passes_filters`: SPY's daily closes, its latest close, and the ticker's frames. */
  datatype Frames = Frames(spyCloses: seq<real>, spyRecentClose: real,
                           daily: seq<Bar>, hourly: seq<Bar>, m15: seq<Bar>)

  /** The checks of the chain, in the order they run. */
  datatype Filter =
    | SpyRegime | DailyTrend | DailyHistory | RelativeStrength | HourlyHistory | HourlyTrend
    | IntradayHistory | PriceAboveEmas | VolumeSurge | RsiRising | AdxRising | AtrRising

  function Order(f: Filter): nat
  {
    match f
    case SpyRegime => 0
    case DailyTrend => 1
    case DailyHistory => 2
    case RelativeStrength => 3
    case HourlyHistory => 4
    case HourlyTrend => 5
    case IntradayHistory => 6
    case PriceAboveEmas => 7
    case VolumeSurge => 8
    case RsiRising => 9
    case AdxRising => 10
    case AtrRising => 11
  }

  /** The look-back of the relative-strength returns. */
  const Lookback: nat := 50

  // ---------------------------------------------------------------------------
  // Building blocks
  // ---------------------------------------------------------------------------

  /**
   * `x > x.shift(3)` at the last row: the last value against the one three rows
   * earlier (NaN, so False, when the column has fewer than four rows).
   */
  predicate ShiftRising(xs: Column)
  {
    |xs| >= 4 && Gt(xs[|xs| - 1], xs[|xs| - 4])
  }

  /** The strict rising check over the last four values implies the single comparison. */
  lemma RisingImpliesShiftRising(xs: Column)
    requires IsRising(xs, 4)
    ensures ShiftRising(xs)
  {
    RisingMeansDefinedAndIncreasing(xs, 4);
  }

  /** The single comparison is weaker: [1, 3, 2, 4] passes it but is not rising throughout. */
  lemma ShiftRisingIsWeaker()
    ensures ShiftRising([Some(1.0), Some(3.0), Some(2.0), Some(4.0)])
    ensures !IsRising([Some(1.0), Some(3.0), Some(2.0), Some(4.0)], 4)
  {
    var xs := [Some(1.0), Some(3.0), Some(2.0), Some(4.0)];
    assert !Gt(xs[2], xs[1]);
  }

  /**
   * `rolling(20, min_periods=10).mean()` of the raw volumes at the last row: the mean
   * of the last min(20, n) volumes, or NaN when fewer than 10 are available.
   */
  function VolumeAverage(bars: seq<Bar>): (r: Option<real>)
    ensures |bars| < 10 <==> r.None?
  {
    var n := |bars|;
    var w := if n < 20 then n else 20;
    if w < 10 then None else Some(Mean(Volumes(bars)[n - w..]))
  }

  /** From 20 bars on, the average is the full 20-bar rolling mean used by the other screeners. */
  lemma VolumeAverageFullWindow(bars: seq<Bar>)
    requires |bars| >= 20
    ensures Some(VolumeAverage(bars).value) == VolumeMa20(bars)[|bars| - 1]
  {
    var n := |bars|;
    LiftWindow(Volumes(bars), 20, n - 1);
    assert Volumes(bars)[n - 20..] == Window(Volumes(bars), 20, n - 1);
  }

  /** The stock's return over the look-back, `C[n-1] / C[n-1-50]`. */
  function StockReturn(closes: seq<real>): (r: Option<real>)
    requires |closes| > Lookback
    ensures r.Some? <==> closes[|closes| - 1 - Lookback] != 0.0
    ensures r.Some? ==> r.value * closes[|closes| - 1 - Lookback] == closes[|closes| - 1]
  {
    Div(Some(closes[|closes| - 1]), Some(closes[|closes| - 1 - Lookback]))
  }

  /** SPY's return over the look-back; NaN when SPY has too few closes for the shift. */
  function SpyReturn(spy: seq<real>): (r: Option<real>)
    ensures r.Some? <==> |spy| > Lookback && spy[|spy| - 1 - Lookback] != 0.0
    ensures r.Some? ==> r.value * spy[|spy| - 1 - Lookback] == spy[|spy| - 1]
  {
    if |spy| <= Lookback then None
    else Div(Some(spy[|spy| - 1]), Some(spy[|spy| - 1 - Lookback]))
  }

  /**
   * `rs = stock_ret / spy_ret if spy_ret != 0 else 0`; NaN differs from 0 in Python,
   * so an undefined SPY return divides and gives NaN.
   */
  function RelativeReturn(closes: seq<real>, spy: seq<real>): (r: Option<real>)
    requires |closes| > Lookback
    ensures SpyReturn(spy) == Some(0.0) ==> r == Some(0.0)
    ensures SpyReturn(spy).None? ==> r.None?
  {
    var spyRet := SpyReturn(spy);
    if spyRet == Some(0.0) then Some(0.0) else Div(StockReturn(closes), spyRet)
  }

  /**
   * With positive prices and enough SPY history, the relative-strength test holds
   * exactly when the stock's 50-bar return beats SPY's.
   */
  lemma RelativeStrengthMeaning(closes: seq<real>, spy: seq<real>)
    requires |closes| > Lookback && |spy| > Lookback
    requires Positive(closes) && Positive(spy)
    ensures Gt(RelativeReturn(closes, spy), Some(1.0)) <==>
      closes[|closes| - 1] / closes[|closes| - 1 - Lookback] > spy[|spy| - 1] / spy[|spy| - 1 - Lookback]
  {
    var s := closes[|closes| - 1] / closes[|closes| - 1 - Lookback];
    var b := spy[|spy| - 1] / spy[|spy| - 1 - Lookback];
    assert s * closes[|closes| - 1 - Lookback] == closes[|closes| - 1];
    assert b * spy[|spy| - 1 - Lookback] == spy[|spy| - 1];
    var q := s / b;
    assert q * b == s;
    if q > 1.0 {
      MulPositive(q - 1.0, b);
    } else {
      MulNonNegative(1.0 - q, b);
    }
  }

  // ---------------------------------------------------------------------------
  // The stages
  // ---------------------------------------------------------------------------

  /** SPY's latest close is above the 200-period EMA of its daily closes. */
  predicate SpyInUptrend(x: Frames)
  {
    |x.spyCloses| > 0 && x.spyRecentClose > Ema(x.spyCloses, 200)[|x.spyCloses| - 1]
  }

  /** EMA50 above EMA200 at the last bar of a non-empty frame. */
  predicate EmaTrendUp(bars: seq<Bar>)
  {
    |bars| > 0 && LastEma(bars, 50) > LastEma(bars, 200)
  }

  /** The stock's 50-bar return beats SPY's (the ratio of returns is above 1). */
  predicate Outperforms(x: Frames)
  {
    |x.daily| >= Lookback + 1 && Gt(RelativeReturn(Closes(x.daily), x.spyCloses), Some(1.0))
  }

  /** The last volume is above the `min_periods=10` rolling average. */
  predicate VolumeSurges(m: seq<Bar>)
  {
    |m| > 0 && Gt(Some(m[|m| - 1].volume), VolumeAverage(m))
  }

  /** RSI (clip variant) above 55 and above its value three bars earlier. */
  predicate RsiUp(m: seq<Bar>)
  {
    |m| > 0 && Gt(RsiClip(Closes(m), 14)[|m| - 1], Some(55.0)) && ShiftRising(RsiClip(Closes(m), 14))
  }

  /** ADX above 25 and above its value three bars earlier. */
  predicate AdxUp(m: seq<Bar>)
  {
    |m| > 0 && Gt(Adx14(m)[|m| - 1], Some(25.0)) && ShiftRising(Adx14(m))
  }

  /** ATR% below 2 and above its value three bars earlier. */
  predicate AtrUp(m: seq<Bar>)
  {
    |m| > 0 && Lt(AtrPct14(m)[|m| - 1], Some(2.0)) && ShiftRising(AtrPct14(m))
  }

  /** Whether the check `f` passes on `x`, with Python's result on too-short columns. */
  predicate Holds(f: Filter, x: Frames)
  {
    match f
    case SpyRegime => SpyInUptrend(x)
    case DailyTrend => EmaTrendUp(x.daily)
    case DailyHistory => |x.daily| >= Lookback + 1
    case RelativeStrength => Outperforms(x)
    case HourlyHistory => |x.hourly| >= 200
    case HourlyTrend => EmaTrendUp(x.hourly)
    case IntradayHistory => |x.m15| >= 200
    case PriceAboveEmas => |x.m15| > 0 && EmaChain(x.m15)
    case VolumeSurge => VolumeSurges(x.m15)
    case RsiRising => RsiUp(x.m15)
    case AdxRising => AdxUp(x.m15)
    case AtrRising => AtrUp(x.m15)
  }

  /** The first check, in chain order, that `ok` rejects; None when it rejects none. */
  function FirstFailing(ok: Filter -> bool): Option<Filter>
  {
    if !ok(SpyRegime) then Some(SpyRegime)
    else if !ok(DailyTrend) then Some(DailyTrend)
    else if !ok(DailyHistory) then Some(DailyHistory)
    else if !ok(RelativeStrength) then Some(RelativeStrength)
    else if !ok(HourlyHistory) then Some(HourlyHistory)
    else if !ok(HourlyTrend) then Some(HourlyTrend)
    else if !ok(IntradayHistory) then Some(IntradayHistory)
    else if !ok(PriceAboveEmas) then Some(PriceAboveEmas)
    else if !ok(VolumeSurge) then Some(VolumeSurge)
    else if !ok(RsiRising) then Some(RsiRising)
    else if !ok(AdxRising) then Some(AdxRising)
    else if !ok(AtrRising) then Some(AtrRising)
    else None
  }

  /**
   * The chain stops at `f` exactly when `f` fails and every earlier check passed; it
   * runs to the end exactly when every check passes.
   */
  lemma FirstFailingMeaning(ok: Filter -> bool, f: Filter)
    ensures FirstFailing(ok) == Some(f) <==> !ok(f) && forall g :: Order(g) < Order(f) ==> ok(g)
    ensures FirstFailing(ok).None? <==> forall g :: ok(g)
  {
    var r := FirstFailing(ok);
    if r.Some? {
      assert !ok(r.value);
      if r.value != f && !ok(f) {
        assert Order(r.value) != Order(f);
      }
    } else {
      forall g ensures ok(g) {
        match g
        case SpyRegime =>
        case DailyTrend =>
        case DailyHistory =>
        case RelativeStrength =>
        case HourlyHistory =>
        case HourlyTrend =>
        case IntradayHistory =>
        case PriceAboveEmas =>
        case VolumeSurge =>
        case RsiRising =>
        case AdxRising =>
        case AtrRising =>
      }
    }
  }

  /** `passes_filters` as the check it stops at: the first failing one, or None. */
  function RejectedAt(x: Frames): Option<Filter>
  {
    FirstFailing(g => Holds(g, x))
  }

  /** `passes_filters`: True only when no check rejects the ticker. */
  predicate PassesFilters(x: Frames)
  {
    RejectedAt(x).None?
  }

  /** The chain of `passes_filters` stops at the first failing check; a pass means all hold. */
  lemma FirstFailure(x: Frames, f: Filter)
    ensures RejectedAt(x) == Some(f) <==> !Holds(f, x) && forall g :: Order(g) < Order(f) ==> Holds(g, x)
    ensures PassesFilters(x) <==> forall g :: Holds(g, x)
  {
    var ok := g => Holds(g, x);
    assert RejectedAt(x) == FirstFailing(ok);
    FirstFailingMeaning(ok, f);
    if PassesFilters(x) {
      forall g ensures Holds(g, x) {
        assert ok(g);
      }
    } else {
      var h := RejectedAt(x).value;
      FirstFailingMeaning(ok, h);
      assert !Holds(h, x);
    }
  }

  /** With fewer than 200 15-minute bars a ticker never passes, whatever its other data. */
  lemma ShortIntradayRejected(x: Frames)
    requires |x.m15| < 200
    ensures !PassesFilters(x)
  {
    FirstFailure(x, IntradayHistory);
  }

  /** SPY with too little history, or a zero SPY return, makes the relative strength fail. */
  lemma DegenerateSpyRejected(x: Frames)
    requires |x.spyCloses| <= Lookback || SpyReturn(x.spyCloses) == Some(0.0)
    ensures !Holds(RelativeStrength, x)
    ensures !PassesFilters(x)
  {
    FirstFailure(x, RelativeStrength);
  }

  /** A passing RSI check: RSI in (55, 100], above its value three bars earlier. */
  lemma RsiUpMeaning(m: seq<Bar>)
    requires RsiUp(m)
    ensures var r, n := RsiClip(Closes(m), 14), |m|;
      n >= 4 && r[n - 1].Some? && 55.0 < r[n - 1].value <= 100.0 && Gt(r[n - 1], r[n - 4])
  {
    RsiClipBounded(Closes(m), 14, |m| - 1);
  }

  /** A passing ADX check on valid bars: ADX in (25, 100], above its value three bars earlier. */
  lemma AdxUpMeaning(m: seq<Bar>)
    requires RangesValid(m)
    requires AdxUp(m)
    ensures var a, n := Adx14(m), |m|;
      n >= 4 && a[n - 1].Some? && 25.0 < a[n - 1].value <= 100.0 && Gt(a[n - 1], a[n - 4])
  {
    AdxBounded(m, 14, |m| - 1);
  }

  /** A ticker that passes every check has at least 200 15-minute bars and passes the indicator checks. */
  lemma AllChecksMeaning(x: Frames)
    requires forall g :: Holds(g, x)
    ensures |x.m15| >= 200
    ensures RsiUp(x.m15) && AdxUp(x.m15) && AtrUp(x.m15)
  {
    assert Holds(IntradayHistory, x);
    assert Holds(RsiRising, x);
    assert Holds(AdxRising, x);
    assert Holds(AtrRising, x);
  }

  /**
   * A passing ticker has at least 200 15-minute bars and passes the three indicator
   * checks: RSI above 55, ADX above 25 and ATR% below 2, each above its value three
   * bars earlier (RsiUpMeaning and AdxUpMeaning give the RSI and ADX ranges).
   */
  lemma PassMeaning(x: Frames)
    requires PassesFilters(x)
    ensures |x.m15| >= 200
    ensures RsiUp(x.m15) && AdxUp(x.m15) && AtrUp(x.m15)
  {
    FirstFailure(x, RsiRising);
    AllChecksMeaning(x);
  }

  // ---------------------------------------------------------------------------
  // `main`: the pass list
  // ---------------------------------------------------------------------------

  /** One ticker's three downloads; None when a download raised. */
  datatype Download = Download(ticker: string, daily: Fetch, hourly: Fetch, m15: Fetch)

  /** The downloads all succeeded and none is empty. */
  predicate Complete(d: Download)
  {
    d.daily.Some? && d.hourly.Some? && d.m15.Some? &&
    |d.daily.value| > 0 && |d.hourly.value| > 0 && |d.m15.value| > 0
  }

  /** A complete download whose frames pass the filters. */
  predicate Accepted(d: Download, spyCloses: seq<real>)
    requires |spyCloses| > 0
  {
    Complete(d) &&
    PassesFilters(Frames(spyCloses, spyCloses[|spyCloses| - 1], d.daily.value, d.hourly.value, d.m15.value))
  }

  /** The accepted tickers, in input order. */
  function Passing(ds: seq<Download>, spyCloses: seq<real>): (ts: seq<string>)
    requires |spyCloses| > 0
    ensures |ts| <= |ds|
  {
    if ds == [] then []
    else
      var d := ds[|ds| - 1];
      Passing(ds[..|ds| - 1], spyCloses) + (if Accepted(d, spyCloses) then [d.ticker] else [])
  }

  /** Every accepted download's ticker is in the pass list. */
  lemma {:induction false} PassingComplete(ds: seq<Download>, spyCloses: seq<real>, i: nat)
    requires |spyCloses| > 0 && i < |ds| && Accepted(ds[i], spyCloses)
    ensures ds[i].ticker in Passing(ds, spyCloses)
  {
    if i < |ds| - 1 {
      var p := ds[..|ds| - 1];
      assert p[i] == ds[i];
      PassingComplete(p, spyCloses, i);
    }
  }

  /** Every ticker in the pass list comes from a complete download that passed the filters. */
  lemma {:induction false} PassingSound(ds: seq<Download>, spyCloses: seq<real>, t: string)
    requires |spyCloses| > 0 && t in Passing(ds, spyCloses)
    ensures exists i :: 0 <= i < |ds| && ds[i].ticker == t && Accepted(ds[i], spyCloses)
  {
    var p := ds[..|ds| - 1];
    if t in Passing(p, spyCloses) {
      PassingSound(p, spyCloses, t);
      var i :| 0 <= i < |p| && p[i].ticker == t && Accepted(p[i], spyCloses);
      assert ds[i] == p[i];
    }
  }

  /** One more download extends the pass list by its ticker exactly when it is accepted. */
  lemma PassingStep(ds: seq<Download>, spyCloses: seq<real>, i: nat)
    requires |spyCloses| > 0 && i < |ds|
    ensures Passing(ds[..i + 1], spyCloses) ==
      Passing(ds[..i], spyCloses) + (if Accepted(ds[i], spyCloses) then [ds[i].ticker] else [])
  {
    assert ds[..i + 1][..i] == ds[..i];
  }

  /**
   * The body of `main`'s loop for one ticker: skip it when a download failed or came
   * back empty, otherwise run `passes_filters` with SPY's closes and latest close.
   */
  method ScreenOne(spyCloses: seq<real>, spyRecentClose: real, d: Download) returns (ok: bool)
    requires |spyCloses| > 0 && spyRecentClose == spyCloses[|spyCloses| - 1]
    ensures ok == Accepted(d, spyCloses)
  {
    if !Complete(d) {
      return false;
    }
    ok := PassesFilters(Frames(spyCloses, spyRecentClose, d.daily.value, d.hourly.value, d.m15.value));
  }

  /**
   * `main`: SPY's latest close is read once; each ticker whose three downloads succeed
   * and are non-empty is screened, and the passing tickers are collected in order.
   * An empty SPY history makes the script fail before the loop, hence the precondition.
   */
  method Screen(spyDaily: seq<Bar>, ds: seq<Download>) returns (passing: seq<string>)
    requires |spyDaily| > 0
    ensures passing == Passing(ds, Closes(spyDaily))
  {
    var spyCloses := Closes(spyDaily);
    var spyRecentClose := spyCloses[|spyCloses| - 1];
    passing := [];
    var i := 0;
    while i < |ds|
      invariant 0 <= i <= |ds|
      invariant passing == Passing(ds[..i], spyCloses)
    {
      var ok := ScreenOne(spyCloses, spyRecentClose, ds[i]);
      PassingStep(ds, spyCloses, i);
      if ok {
        assert Passing(ds[..i + 1], spyCloses) == passing + [ds[i].ticker];
        passing := passing + [ds[i].ticker];
      } else {
        assert Passing(ds[..i + 1], spyCloses) == passing;
      }
      i := i + 1;
    }
    assert ds[..|ds|] == ds;
  }
}
