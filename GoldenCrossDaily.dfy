/**
 * The daily golden-cross scan: for each ticker, the 50- and 200-day simple moving
 * averages of the close, the day the SMA50 crosses above the SMA200, and the crossing
 * dates after a cutoff; tickers with at least one such date are recorded.
 */
module GoldenCrossDaily {
  import opened Numeric
  import opened Bars
  import opened Detectors

  /** `Close.rolling(window=w).mean()`. */
  function Sma(bars: seq<Bar>, w: nat): (r: Column)
    requires 0 < w
    ensures |r| == |bars|
    ensures forall t :: 0 <= t < |bars| ==> (r[t].Some? <==> t + 1 >= w)
  {
    RollingMean(Lift(Closes(bars)), w)
  }

  /** The SMA is undefined until its window fills, then the mean of the last `w` closes. */
  lemma SmaMeaning(bars: seq<Bar>, w: nat, t: nat)
    requires 0 < w && t < |bars|
    ensures t + 1 < w ==> Sma(bars, w)[t].None?
    ensures t + 1 >= w ==> Sma(bars, w)[t] == Some(Mean(Window(Closes(bars), w, t)))
  {
    if t + 1 >= w {
      LiftWindow(Closes(bars), w, t);
    }
  }

  /** The `Signal` column: SMA50 crosses above SMA200 on that day. */
  function Signal(bars: seq<Bar>): (s: seq<bool>)
    ensures |s| == |bars|
    ensures forall t :: 0 <= t < |bars| && s[t] ==> t >= 200
    ensures forall t :: 0 < t < |bars| ==> !(s[t - 1] && s[t])
  {
    GoldenSignal(Sma(bars, 50), Sma(bars, 200))
  }

  /**
   * A day signals exactly when, from day 200 on, the 50-day mean of the closes is above
   * the 200-day mean and was at most the 200-day mean the day before; two consecutive
   * days never both signal.
   */
  lemma SignalMeaning(bars: seq<Bar>, t: nat)
    requires t < |bars|
    ensures var c := Closes(bars);
      Signal(bars)[t] <==>
        t >= 200 &&
        Mean(Window(c, 50, t)) > Mean(Window(c, 200, t)) &&
        Mean(Window(c, 50, t - 1)) <= Mean(Window(c, 200, t - 1))
    ensures t + 1 < |bars| ==> !(Signal(bars)[t] && Signal(bars)[t + 1])
  {
    var fast, slow := Sma(bars, 50), Sma(bars, 200);
    SignalProperties(fast, slow, t);
    if Signal(bars)[t] {
      NoSignalBeforeSlowWindow(fast, Lift(Closes(bars)), 200, t);
    }
    if t >= 200 {
      SmaMeaning(bars, 50, t);
      SmaMeaning(bars, 200, t);
      SmaMeaning(bars, 50, t - 1);
      SmaMeaning(bars, 200, t - 1);
    }
  }

  /**
   * `recent_crosses` over the first `n` days: the timestamps of the signalling days
   * strictly after the cutoff, in row order.
   */
  function CrossTimes(bars: seq<Bar>, sig: seq<bool>, cutoff: int, n: nat): (ds: seq<int>)
    requires |sig| == |bars| && n <= |bars|
    ensures |ds| <= n
    ensures forall i :: 0 <= i < |ds| ==> ds[i] > cutoff
  {
    if n == 0 then []
    else
      CrossTimes(bars, sig, cutoff, n - 1) +
      (if sig[n - 1] && bars[n - 1].time > cutoff then [bars[n - 1].time] else [])
  }

  /** A timestamp is listed exactly when some signalling day after the cutoff carries it. */
  lemma {:induction false} CrossTimesMembers(bars: seq<Bar>, sig: seq<bool>, cutoff: int, n: nat, d: int)
    requires |sig| == |bars| && n <= |bars|
    ensures d in CrossTimes(bars, sig, cutoff, n) <==>
      exists t :: 0 <= t < n && sig[t] && bars[t].time > cutoff && bars[t].time == d
  {
    if n > 0 {
      CrossTimesMembers(bars, sig, cutoff, n - 1, d);
      if d in CrossTimes(bars, sig, cutoff, n - 1) {
        var t :| 0 <= t < n - 1 && sig[t] && bars[t].time > cutoff && bars[t].time == d;
        assert 0 <= t < n;
      }
    }
  }

  /** The timestamps are in strictly increasing order. */
  predicate Increasing(ds: seq<int>)
  {
    forall i, j :: 0 <= i < j < |ds| ==> ds[i] < ds[j]
  }

  /** On chronological bars the listed timestamps are strictly increasing. */
  lemma {:induction false} CrossTimesIncreasing(bars: seq<Bar>, sig: seq<bool>, cutoff: int, n: nat)
    requires |sig| == |bars| && n <= |bars| && Chronological(bars)
    ensures Increasing(CrossTimes(bars, sig, cutoff, n))
  {
    if n > 0 {
      CrossTimesIncreasing(bars, sig, cutoff, n - 1);
      var prev := CrossTimes(bars, sig, cutoff, n - 1);
      forall i | 0 <= i < |prev| ensures prev[i] < bars[n - 1].time {
        CrossTimesMembers(bars, sig, cutoff, n - 1, prev[i]);
        var t :| 0 <= t < n - 1 && sig[t] && bars[t].time > cutoff && bars[t].time == prev[i];
      }
      var ds := CrossTimes(bars, sig, cutoff, n);
      forall i, j | 0 <= i < j < |ds| ensures ds[i] < ds[j] {
        if j < |prev| {
          assert ds[i] == prev[i] && ds[j] == prev[j];
        } else {
          assert ds == prev + [bars[n - 1].time];
          assert ds[i] == prev[i] && ds[j] == bars[n - 1].time;
        }
      }
    }
  }

  /** `recent_crosses` for one ticker's daily bars. */
  function RecentCrosses(bars: seq<Bar>, cutoff: int): (ds: seq<int>)
    ensures |ds| <= |bars|
    ensures forall i :: 0 <= i < |ds| ==> ds[i] > cutoff
  {
    CrossTimes(bars, Signal(bars), cutoff, |bars|)
  }

  /**
   * The recent crosses are exactly the signalling days after the cutoff, each from
   * day 200 on, in increasing order on chronological bars.
   */
  lemma RecentCrossesMeaning(bars: seq<Bar>, cutoff: int, d: int)
    ensures d in RecentCrosses(bars, cutoff) <==>
      exists t :: 0 <= t < |bars| && Signal(bars)[t] && bars[t].time > cutoff && bars[t].time == d
    ensures d in RecentCrosses(bars, cutoff) ==> exists t :: 200 <= t < |bars| && bars[t].time == d
    ensures Chronological(bars) ==> Increasing(RecentCrosses(bars, cutoff))
  {
    CrossTimesMembers(bars, Signal(bars), cutoff, |bars|, d);
    if d in RecentCrosses(bars, cutoff) {
      var t :| 0 <= t < |bars| && Signal(bars)[t] && bars[t].time > cutoff && bars[t].time == d;
      SignalMeaning(bars, t);
    }
    if Chronological(bars) {
      CrossTimesIncreasing(bars, Signal(bars), cutoff, |bars|);
    }
  }

  /** Fewer than 201 days of history can never produce a crossing. */
  lemma ShortHistoryNoCross(bars: seq<Bar>, cutoff: int)
    requires |bars| <= 200
    ensures RecentCrosses(bars, cutoff) == []
  {
    if RecentCrosses(bars, cutoff) != [] {
      var d := RecentCrosses(bars, cutoff)[0];
      RecentCrossesMeaning(bars, cutoff, d);
    }
  }

  // ---------------------------------------------------------------------------
  // The scan
  // ---------------------------------------------------------------------------

  /** One ticker's download: None when it raised. */
  datatype Download = Download(ticker: string, data: Fetch)

  /** One line of `golden_cross_results.csv`: the ticker and its recent crossing dates. */
  datatype Row = Row(ticker: string, crosses: seq<int>)

  /** A download is recorded when it succeeded, is not empty and has a recent cross. */
  predicate Recorded(d: Download, cutoff: int)
  {
    d.data.Some? && |d.data.value| > 0 && RecentCrosses(d.data.value, cutoff) != []
  }

  /** The rows of the scan, in ticker order. */
  function Results(ds: seq<Download>, cutoff: int): (rows: seq<Row>)
    ensures |rows| <= |ds|
    ensures forall k :: 0 <= k < |rows| ==> rows[k].crosses != []
  {
    if ds == [] then []
    else
      var d := ds[|ds| - 1];
      Results(ds[..|ds| - 1], cutoff) +
      (if Recorded(d, cutoff) then [Row(d.ticker, RecentCrosses(d.data.value, cutoff))] else [])
  }

  /** One more download adds its row exactly when it is recorded. */
  lemma ResultsStep(ds: seq<Download>, cutoff: int, i: nat)
    requires i < |ds|
    ensures Results(ds[..i + 1], cutoff) == Results(ds[..i], cutoff) +
      (if Recorded(ds[i], cutoff) then [Row(ds[i].ticker, RecentCrosses(ds[i].data.value, cutoff))] else [])
  {
    assert ds[..i + 1][..i] == ds[..i];
  }

  /** Every recorded download has its row, with its recent crossings. */
  lemma {:induction false} ResultsComplete(ds: seq<Download>, cutoff: int, i: nat)
    requires i < |ds| && Recorded(ds[i], cutoff)
    ensures Row(ds[i].ticker, RecentCrosses(ds[i].data.value, cutoff)) in Results(ds, cutoff)
  {
    if i < |ds| - 1 {
      var p := ds[..|ds| - 1];
      assert p[i] == ds[i];
      ResultsComplete(p, cutoff, i);
    }
  }

  /** Every row comes from a recorded download, and its dates are that download's recent crosses. */
  lemma {:induction false} ResultsSound(ds: seq<Download>, cutoff: int, r: Row)
    requires r in Results(ds, cutoff)
    ensures exists i :: (0 <= i < |ds| && ds[i].ticker == r.ticker && Recorded(ds[i], cutoff) &&
                         r.crosses == RecentCrosses(ds[i].data.value, cutoff))
  {
    var p := ds[..|ds| - 1];
    if r in Results(p, cutoff) {
      ResultsSound(p, cutoff, r);
      var i :| 0 <= i < |p| && p[i].ticker == r.ticker && Recorded(p[i], cutoff) &&
        r.crosses == RecentCrosses(p[i].data.value, cutoff);
      assert ds[i] == p[i];
    }
  }

  /**
   * The scan loop: skip a download that raised or came back empty, otherwise compute
   * the SMAs and the signal and append a row when there is a crossing after the cutoff.
   */
  method Scan(ds: seq<Download>, cutoff: int) returns (results: seq<Row>)
    ensures results == Results(ds, cutoff)
  {
    results := [];
    var i := 0;
    while i < |ds|
      invariant 0 <= i <= |ds|
      invariant results == Results(ds[..i], cutoff)
    {
      var d := ds[i];
      ResultsStep(ds, cutoff, i);
      if d.data.Some? && |d.data.value| > 0 {
        var recent := RecentCrosses(d.data.value, cutoff);
        if recent != [] {
          results := results + [Row(d.ticker, recent)];
        }
      }
      i := i + 1;
    }
    assert ds[..|ds|] == ds;
  }
}
