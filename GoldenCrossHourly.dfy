/**
 * The one-hour golden-cross scan: for each ticker, the 50- and 200-period EMAs of the
 * hourly close, the bars where EMA50 crosses above EMA200, and the latest such bar
 * after a cutoff together with its close.
 */
module GoldenCrossHourly {
  import opened Numeric
  import opened Bars
  import opened Indicators
  import opened Detectors

  /** `Close.ewm(span=span, adjust=False).mean()`, defined from the first bar on. */
  function EmaLine(bars: seq<Bar>, span: nat): (r: Column)
    ensures |r| == |bars|
    ensures forall t :: 0 <= t < |r| ==> r[t] == Some(Ema(Closes(bars), span)[t])
  {
    Lift(Ema(Closes(bars), span))
  }

  /** The `Signal` column: EMA50 crosses above EMA200 on that bar. */
  function Signal(bars: seq<Bar>): (s: seq<bool>)
    ensures |s| == |bars|
    ensures |bars| > 0 ==> !s[0]
    ensures forall t :: 0 < t < |bars| ==> !(s[t - 1] && s[t])
  {
    GoldenSignal(EmaLine(bars, 50), EmaLine(bars, 200))
  }

  /**
   * Both EMAs are defined everywhere, so a bar signals exactly when it is not the first,
   * EMA50 is above EMA200 on it and was at most EMA200 on the bar before; two
   * consecutive bars never both signal.
   */
  lemma SignalMeaning(bars: seq<Bar>, t: nat)
    requires t < |bars|
    ensures var e50, e200 := Ema(Closes(bars), 50), Ema(Closes(bars), 200);
      Signal(bars)[t] <==> t > 0 && e50[t] > e200[t] && e50[t - 1] <= e200[t - 1]
    ensures t + 1 < |bars| ==> !(Signal(bars)[t] && Signal(bars)[t + 1])
  {
    SignalProperties(EmaLine(bars, 50), EmaLine(bars, 200), t);
  }

  /** Flat prices never signal: both EMAs stay at the constant close. */
  lemma FlatPricesNoSignal(bars: seq<Bar>, c: real, t: nat)
    requires t < |bars|
    requires forall j :: 0 <= j < |bars| ==> bars[j].close == c
    ensures !Signal(bars)[t]
  {
    SignalMeaning(bars, t);
    EmaOfConstant(Closes(bars), 50, c, t);
    EmaOfConstant(Closes(bars), 200, c, t);
  }

  /** A signalling bar whose timestamp is strictly after the cutoff. */
  predicate ValidCross(bars: seq<Bar>, sig: seq<bool>, cutoff: int, t: nat)
    requires |sig| == |bars| && t < |bars|
  {
    sig[t] && bars[t].time > cutoff
  }

  /**
   * `max(valid_crosses)` over the first `n` bars, as the row that holds it: the valid
   * cross with the latest timestamp, the earliest such row on a tie; None when there
   * is no valid cross.
   */
  function Latest(bars: seq<Bar>, sig: seq<bool>, cutoff: int, n: nat): (r: Option<nat>)
    requires |sig| == |bars| && n <= |bars|
    ensures r.Some? ==> r.value < n && ValidCross(bars, sig, cutoff, r.value)
  {
    if n == 0 then None
    else
      var prev := Latest(bars, sig, cutoff, n - 1);
      if ValidCross(bars, sig, cutoff, n - 1) && (prev.None? || bars[n - 1].time > bars[prev.value].time)
      then Some(n - 1)
      else prev
  }

  /**
   * There is a latest cross exactly when some valid cross exists; it is itself a valid
   * cross and no valid cross has a later timestamp.
   */
  lemma {:induction false} LatestMeaning(bars: seq<Bar>, sig: seq<bool>, cutoff: int, n: nat)
    requires |sig| == |bars| && n <= |bars|
    ensures var r := Latest(bars, sig, cutoff, n);
      (r.None? <==> forall t :: 0 <= t < n ==> !ValidCross(bars, sig, cutoff, t)) &&
      (r.Some? ==>
         ValidCross(bars, sig, cutoff, r.value) &&
         forall t :: 0 <= t < n && ValidCross(bars, sig, cutoff, t) ==> bars[t].time <= bars[r.value].time)
  {
    if n > 0 {
      LatestMeaning(bars, sig, cutoff, n - 1);
    }
  }

  /** On chronological bars the latest cross is the last valid row. */
  lemma LatestIsLastRow(bars: seq<Bar>, sig: seq<bool>, cutoff: int, n: nat)
    requires |sig| == |bars| && n <= |bars| && Chronological(bars)
    requires Latest(bars, sig, cutoff, n).Some?
    ensures forall t :: Latest(bars, sig, cutoff, n).value < t < n ==> !ValidCross(bars, sig, cutoff, t)
  {
    LatestMeaning(bars, sig, cutoff, n);
  }

  /** The row of the latest EMA golden cross after the cutoff, if any. */
  function LatestCross(bars: seq<Bar>, cutoff: int): (r: Option<nat>)
    ensures r.Some? ==> r.value < |bars| && Signal(bars)[r.value] && bars[r.value].time > cutoff
  {
    Latest(bars, Signal(bars), cutoff, |bars|)
  }

  // ---------------------------------------------------------------------------
  // The scan
  // ---------------------------------------------------------------------------

  /** One ticker's hourly download: None when it raised. */
  datatype Download = Download(ticker: string, data: Fetch)

  /** One line of the results file: the ticker, the latest crossing time and the close then. */
  datatype Row = Row(ticker: string, time: int, close: real)

  /** A download is recorded when it succeeded, is not empty and has a cross after the cutoff. */
  predicate Recorded(d: Download, cutoff: int)
  {
    d.data.Some? && |d.data.value| > 0 && LatestCross(d.data.value, cutoff).Some?
  }

  /** The row of a recorded download: the latest crossing bar's time and close. */
  function RowOf(d: Download, cutoff: int): (r: Row)
    requires Recorded(d, cutoff)
    ensures exists t :: (0 <= t < |d.data.value| && Signal(d.data.value)[t] &&
                         r == Row(d.ticker, d.data.value[t].time, d.data.value[t].close))
    ensures r.time > cutoff
    ensures forall t :: 0 <= t < |d.data.value| && ValidCross(d.data.value, Signal(d.data.value), cutoff, t) ==>
      d.data.value[t].time <= r.time
  {
    var bars := d.data.value;
    var t := LatestCross(bars, cutoff).value;
    LatestMeaning(bars, Signal(bars), cutoff, |bars|);
    Row(d.ticker, bars[t].time, bars[t].close)
  }

  /** The rows of the scan, in ticker order. */
  function Results(ds: seq<Download>, cutoff: int): (rows: seq<Row>)
    ensures |rows| <= |ds|
    ensures forall k :: 0 <= k < |rows| ==> rows[k].time > cutoff
  {
    if ds == [] then []
    else
      var d := ds[|ds| - 1];
      Results(ds[..|ds| - 1], cutoff) + (if Recorded(d, cutoff) then [RowOf(d, cutoff)] else [])
  }

  /** One more download adds its row exactly when it is recorded. */
  lemma ResultsStep(ds: seq<Download>, cutoff: int, i: nat)
    requires i < |ds|
    ensures Results(ds[..i + 1], cutoff) ==
      Results(ds[..i], cutoff) + (if Recorded(ds[i], cutoff) then [RowOf(ds[i], cutoff)] else [])
  {
    assert ds[..i + 1][..i] == ds[..i];
  }

  /** Every recorded download has its row. */
  lemma {:induction false} ResultsComplete(ds: seq<Download>, cutoff: int, i: nat)
    requires i < |ds| && Recorded(ds[i], cutoff)
    ensures RowOf(ds[i], cutoff) in Results(ds, cutoff)
  {
    if i < |ds| - 1 {
      var p := ds[..|ds| - 1];
      assert p[i] == ds[i];
      ResultsComplete(p, cutoff, i);
    }
  }

  /** Every row comes from a recorded download. */
  lemma {:induction false} ResultsSound(ds: seq<Download>, cutoff: int, r: Row)
    requires r in Results(ds, cutoff)
    ensures exists i :: 0 <= i < |ds| && Recorded(ds[i], cutoff) && r == RowOf(ds[i], cutoff)
  {
    var p := ds[..|ds| - 1];
    if r in Results(p, cutoff) {
      ResultsSound(p, cutoff, r);
      var i :| 0 <= i < |p| && Recorded(p[i], cutoff) && r == RowOf(p[i], cutoff);
      assert ds[i] == p[i];
    }
  }

  /**
   * The scan loop: skip a download that raised or came back empty; otherwise compute
   * the EMAs and the signal, set the latest crossing time and its close when a cross
   * after the cutoff exists, and append a row only then.
   */
  method Scan(ds: seq<Download>, cutoff: int) returns (results: seq<Row>)
    ensures results == Results(ds, cutoff)
  {
    results := [];
    var i := 0;
    while i < |ds|
      invariant 0 <= i <= |ds|
      invariant results == Results(ds[..i], cutoff)
    {
      var d := ds[i];
      ResultsStep(ds, cutoff, i);
      if d.data.Some? && |d.data.value| > 0 {
        var bars := d.data.value;
        var latestCross: Option<int> := None;
        var closeAtCross: Option<real> := None;
        var latest := LatestCross(bars, cutoff);
        if latest.Some? {
          latestCross := Some(bars[latest.value].time);
          closeAtCross := Some(bars[latest.value].close);
        }
        if latestCross.Some? {
          results := results + [Row(d.ticker, latestCross.value, closeAtCross.value)];
        }
      }
      i := i + 1;
    }
    assert ds[..|ds|] == ds;
  }
}
