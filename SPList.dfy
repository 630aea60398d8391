/**
 * The S&P-list screener: a stock qualifies when its 15-minute checks (EMA chain,
 * volume, RSI, ADX and stochastic cross) and its one-hour EMA trend hold, provided
 * SPY is above its 200-day EMA; qualifying stocks are ranked by 15-minute relative
 * strength against SPY.
 */
module SPList {
  import opened Numeric
  import opened Bars
  import opened Indicators
  import opened Detectors
  import opened Ranking
  import opened Timeframes

  /** The latest values reported for a 15-minute series. */
  datatype Snapshot = Snapshot(rs: Option<real>, adx: Option<real>, rsi: Option<real>,
                               stochK: Option<real>, stochD: Option<real>)

  datatype IntradayVerdict = IntradayVerdict(ok: bool, snapshot: Option<Snapshot>)

  /**
   * The five 15-minute conditions: the EMA chain, the volume test, RSI above 55 (no
   * rising requirement here), ADX above 25 and the stochastic cross.
   */
  predicate AllConditions(bars: seq<Bar>)
    requires |bars| > 0
  {
    EmaChain(bars) && VolumeAboveAverage(bars) && Gt(Rsi14(bars)[|bars| - 1], Some(55.0)) &&
    Gt(Adx14(bars)[|bars| - 1], Some(25.0)) && StochCross(bars)
  }

  function SnapshotOf(bars: seq<Bar>, spyCloses: seq<real>): Snapshot
    requires |bars| > 0
  {
    var n := |bars|;
    Snapshot(RelativeStrength(Closes(bars), spyCloses)[n - 1], Adx14(bars)[n - 1], Rsi14(bars)[n - 1],
             StochK14(bars)[n - 1], StochD3(bars)[n - 1])
  }

  /**
   * `check_15m_conditions`: (False, no values) for fewer than 100 bars (a failed
   * download yields no bars); otherwise the five conditions with the latest values.
   */
  function IntradayConditions(bars: seq<Bar>, spyCloses: seq<real>): (v: IntradayVerdict)
    ensures |bars| < 100 ==> v == IntradayVerdict(false, None)
    ensures |bars| >= 100 ==> v == IntradayVerdict(AllConditions(bars), Some(SnapshotOf(bars, spyCloses)))
  {
    if |bars| < 100 then IntradayVerdict(false, None)
    else IntradayVerdict(AllConditions(bars), Some(SnapshotOf(bars, spyCloses)))
  }

  /**
   * A passing 15-minute series reports RSI in (55, 100], ADX in (25, 100], and %K
   * above %D now after being at or below it one bar earlier, with %K in [0, 100]
   * when bars close inside their range.
   */
  lemma IntradayPassMeaning(bars: seq<Bar>, spyCloses: seq<real>)
    requires ClosesInRange(bars)
    requires IntradayConditions(bars, spyCloses).ok
    ensures var s := IntradayConditions(bars, spyCloses).snapshot.value;
      s.rsi.Some? && 55.0 < s.rsi.value <= 100.0 &&
      s.adx.Some? && 25.0 < s.adx.value <= 100.0 &&
      s.stochK.Some? && s.stochD.Some? && s.stochD.value < s.stochK.value <= 100.0
    ensures var n := |bars|;
      Le(StochK14(bars)[n - 2], StochD3(bars)[n - 2])
  {
    var n := |bars|;
    assert RangesValid(bars);
    RsiBounded(Closes(bars), 14, n - 1);
    AdxBounded(bars, 14, n - 1);
    assert StochK14(bars)[n - 1] == StochKAt(bars, 14, n - 1);
    StochKBounded(bars, 14, n - 1);
  }

  /**
   * With SPY's 15-minute closes aligned to the stock's and all prices positive, the
   * reported relative strength is the stock's total return divided by SPY's.
   */
  lemma RelativeStrengthMeaning(bars: seq<Bar>, spyCloses: seq<real>)
    requires |bars| >= 2 && |spyCloses| == |bars|
    requires Positive(Closes(bars)) && Positive(spyCloses)
    ensures var s, b, n := Closes(bars), spyCloses, |bars|;
      SnapshotOf(bars, spyCloses).rs == Some((s[n - 1] / s[0]) / (b[n - 1] / b[0]))
  {
    var rs := RelativeStrength(Closes(bars), spyCloses);
    RelativeStrengthTelescopes(Closes(bars), spyCloses, |bars| - 1);
    assert SnapshotOf(bars, spyCloses).rs == rs[|bars| - 1];
  }

  // ---------------------------------------------------------------------------
  // The screen
  // ---------------------------------------------------------------------------

  /** The downloads of one ticker; a failed 15-minute download yields no bars. */
  datatype TickerFeeds = TickerFeeds(ticker: string, m15: seq<Bar>, hourly: Fetch)

  /** One row of the result table. */
  datatype Detail = Detail(ticker: string, relativeStrength: Option<real>, adx: Option<real>,
                           rsi: Option<real>, stochK: Option<real>, stochD: Option<real>)

  /** Nothing when the SPY gate is shut. */
  datatype Outcome = GateClosed | Ranked(qualifying: seq<string>, details: seq<Detail>)

  function Qualifies(f: TickerFeeds, spyCloses: seq<real>): (r: bool)
    ensures r ==> |f.m15| >= 100 && f.hourly.Some? && |f.hourly.value| >= 100
  {
    IntradayConditions(f.m15, spyCloses).ok && HourlyTrendUp(f.hourly)
  }

  function DetailOf(ticker: string, s: Snapshot): Detail
  {
    Detail(ticker, s.rs, s.adx, s.rsi, s.stochK, s.stochD)
  }

  /** The row of a qualifying ticker: its 15-minute snapshot. */
  function RowOf(f: TickerFeeds, spyCloses: seq<real>): Detail
    requires Qualifies(f, spyCloses)
  {
    DetailOf(f.ticker, IntradayConditions(f.m15, spyCloses).snapshot.value)
  }

  /** What one ticker contributes to the table: its row when its 15-minute and one-hour checks hold. */
  function Check(f: TickerFeeds, spyCloses: seq<real>): Option<Detail>
  {
    if Qualifies(f, spyCloses) then Some(RowOf(f, spyCloses)) else None
  }

  /** The contribution of every ticker, in scan order. */
  function Checks(feeds: seq<TickerFeeds>, spyCloses: seq<real>): (cs: seq<Option<Detail>>)
    ensures |cs| == |feeds|
  {
    seq(|feeds|, i requires 0 <= i < |feeds| => Check(feeds[i], spyCloses))
  }

  /** What every reported row shows: RSI above 55, ADX above 25, %K above %D. */
  predicate Reportable(d: Detail)
  {
    Gt(d.rsi, Some(55.0)) && Gt(d.adx, Some(25.0)) && Gt(d.stochK, d.stochD)
  }

  /** A series meeting the five conditions yields a reportable row. */
  lemma ConditionsReportable(ticker: string, bars: seq<Bar>, spyCloses: seq<real>)
    requires |bars| > 0 && AllConditions(bars)
    ensures Reportable(DetailOf(ticker, SnapshotOf(bars, spyCloses)))
  {
    assert StochCross(bars);
  }

  /** The row of a qualifying ticker is reportable. */
  lemma QualifyingRowReportable(f: TickerFeeds, spyCloses: seq<real>)
    requires Qualifies(f, spyCloses)
    ensures Reportable(RowOf(f, spyCloses))
  {
    assert IntradayConditions(f.m15, spyCloses).snapshot == Some(SnapshotOf(f.m15, spyCloses));
    ConditionsReportable(f.ticker, f.m15, spyCloses);
  }

  /** Every row kept from the checks is reportable. */
  lemma ChecksReportable(feeds: seq<TickerFeeds>, spyCloses: seq<real>)
    ensures forall k :: 0 <= k < |Rows(Checks(feeds, spyCloses))| ==> Reportable(Rows(Checks(feeds, spyCloses))[k])
  {
    var cs := Checks(feeds, spyCloses);
    forall k | 0 <= k < |Rows(cs)| ensures Reportable(Rows(cs)[k]) {
      var i := RowsSource(cs, Rows(cs)[k]);
      QualifyingRowReportable(feeds[i], spyCloses);
    }
  }

  /** The rows of the qualifying tickers, in scan order; every one of them is reportable. */
  function Qualifiers(feeds: seq<TickerFeeds>, spyCloses: seq<real>): (ds: seq<Detail>)
    ensures |ds| <= |feeds|
    ensures forall k :: 0 <= k < |ds| ==> Reportable(ds[k])
  {
    ChecksReportable(feeds, spyCloses);
    Rows(Checks(feeds, spyCloses))
  }

  /** One more ticker extends the qualifiers by its row exactly when it qualifies. */
  lemma QualifiersStep(feeds: seq<TickerFeeds>, i: nat, spyCloses: seq<real>)
    requires i < |feeds|
    ensures Qualifiers(feeds[..i + 1], spyCloses) == Qualifiers(feeds[..i], spyCloses) +
      (if Qualifies(feeds[i], spyCloses) then [RowOf(feeds[i], spyCloses)] else [])
  {
    var cs := Checks(feeds, spyCloses);
    assert Checks(feeds[..i + 1], spyCloses) == cs[..i + 1];
    assert Checks(feeds[..i], spyCloses) == cs[..i];
    RowsStep(cs, i);
  }

  /** Every qualifying ticker has its row among the qualifiers. */
  lemma QualifiersComplete(feeds: seq<TickerFeeds>, spyCloses: seq<real>, i: nat)
    requires i < |feeds| && Qualifies(feeds[i], spyCloses)
    ensures RowOf(feeds[i], spyCloses) in Qualifiers(feeds, spyCloses)
  {
    RowsComplete(Checks(feeds, spyCloses), i);
  }

  /** Where a row comes from: the index of a qualifying ticker whose row it is. */
  lemma QualifierSource(feeds: seq<TickerFeeds>, spyCloses: seq<real>, d: Detail) returns (i: nat)
    requires d in Qualifiers(feeds, spyCloses)
    ensures i < |feeds| && Qualifies(feeds[i], spyCloses) && d == RowOf(feeds[i], spyCloses)
  {
    i := RowsSource(Checks(feeds, spyCloses), d);
  }

  /** Every row belongs to a qualifying ticker and is reportable. */
  lemma QualifiersSound(feeds: seq<TickerFeeds>, spyCloses: seq<real>, d: Detail)
    requires d in Qualifiers(feeds, spyCloses)
    ensures Reportable(d)
    ensures exists i :: 0 <= i < |feeds| && Qualifies(feeds[i], spyCloses) && d.ticker == feeds[i].ticker
  {
    var i := QualifierSource(feeds, spyCloses, d);
    QualifyingRowReportable(feeds[i], spyCloses);
  }

  /** The sort key; an undefined relative strength is ranked as 0. */
  function RsKey(d: Detail): real
  {
    if d.relativeStrength.Some? then d.relativeStrength.value else 0.0
  }

  function TickerOf(d: Detail): string { d.ticker }

  /** The result once the gate is open: the rows by descending relative strength. */
  function Rank(details: seq<Detail>): Outcome
  {
    var sorted := SortDesc(details, RsKey);
    Ranked(Names(sorted, TickerOf), sorted)
  }

  /**
   * The ranking lists the same rows, by non-increasing relative strength, rows of
   * equal strength in scan order, and names the tickers in the order of the rows.
   */
  lemma RankProperties(details: seq<Detail>, k: real)
    ensures Rank(details).Ranked?
    ensures multiset(Rank(details).details) == multiset(details)
    ensures SortedDesc(Rank(details).details, RsKey)
    ensures WithKey(Rank(details).details, RsKey, k) == WithKey(details, RsKey, k)
    ensures |Rank(details).qualifying| == |details|
    ensures forall i :: 0 <= i < |details| ==> Rank(details).qualifying[i] == Rank(details).details[i].ticker
  {
    RankedTable(details, RsKey, TickerOf, k);
  }

  /** One step of the scan loop, in the loop's terms: the row is appended exactly when both checks pass. */
  lemma ScanStep(feeds: seq<TickerFeeds>, i: nat, spyCloses: seq<real>)
    requires i < |feeds|
    ensures var m15 := IntradayConditions(feeds[i].m15, spyCloses);
      Qualifiers(feeds[..i + 1], spyCloses) == Qualifiers(feeds[..i], spyCloses) +
        (if m15.ok && HourlyTrendUp(feeds[i].hourly) then [DetailOf(feeds[i].ticker, m15.snapshot.value)] else [])
  {
    QualifiersStep(feeds, i, spyCloses);
  }

  /**
   * The scan loop of `analyze_stocks`: every ticker's checks run, and the ticker and
   * its row are appended when they all hold.
   */
  method ScanFeeds(feeds: seq<TickerFeeds>, spyCloses: seq<real>) returns (qualifying: seq<string>, details: seq<Detail>)
    ensures details == Qualifiers(feeds, spyCloses)
    ensures qualifying == Names(details, TickerOf)
  {
    qualifying, details := [], [];
    var i := 0;
    while i < |feeds|
      invariant 0 <= i <= |feeds|
      invariant details == Qualifiers(feeds[..i], spyCloses)
      invariant qualifying == Names(details, TickerOf)
    {
      var f := feeds[i];
      var m15 := IntradayConditions(f.m15, spyCloses);
      var hourly := HourlyTrendUp(f.hourly);
      ScanStep(feeds, i, spyCloses);
      if m15.ok && hourly {
        var row := DetailOf(f.ticker, m15.snapshot.value);
        NamesAppend(details, row, TickerOf);
        qualifying := qualifying + [f.ticker];
        details := details + [row];
      }
      i := i + 1;
    }
    assert feeds[..|feeds|] == feeds;
  }

  /**
   * `analyze_stocks`: nothing unless SPY is above its 200-day EMA; otherwise each
   * ticker's 15-minute and one-hour checks run against SPY's 15-minute bars and the
   * qualifying rows are ranked by relative strength.
   */
  method AnalyzeStocks(spyGate: Fetch, spy15: seq<Bar>, feeds: seq<TickerFeeds>) returns (out: Outcome)
    ensures !SpyAboveEma200(spyGate) ==> out == GateClosed
    ensures SpyAboveEma200(spyGate) ==> out == Rank(Qualifiers(feeds, Closes(spy15)))
  {
    if !SpyAboveEma200(spyGate) {
      return GateClosed;
    }
    var spyCloses := Closes(spy15);
    var qualifying, details := ScanFeeds(feeds, spyCloses);
    if details != [] {
      details := SortDesc(details, RsKey);
      qualifying := Names(details, TickerOf);
    }
    out := Ranked(qualifying, details);
  }
}
