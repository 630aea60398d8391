/**
 * The Alpha Vantage screener: a stock qualifies when its 15-minute checks (EMA chain,
 * volume, RSI, ADX, stochastic cross, volatility and Bollinger position) and its
 * one-hour EMA trend hold, provided SPY is above its 200-day EMA; qualifying stocks
 * are ranked by 15-minute relative strength against SPY.
 */
module AlphaVantage {
  import opened Numeric
  import opened Bars
  import opened Indicators
  import opened Detectors
  import opened Ranking
  import opened Timeframes

  /** Bollinger bands over 20 closes at two standard deviations. */
  function Bands20(bars: seq<Bar>, stdDev: seq<real> -> real): (r: seq<Bands>)
    ensures |r| == |bars|
  {
    Bollinger(Closes(bars), 20, 2.0, stdDev)
  }

  /** %B is defined, the close is above the middle band and %B is above 0.5. */
  predicate BollingerCondition(bars: seq<Bar>, stdDev: seq<real> -> real)
    requires |bars| > 0
  {
    var b := Bands20(bars, stdDev)[|bars| - 1];
    b.percentB.Some? && Gt(Some(bars[|bars| - 1].close), b.middle) && b.percentB.value > 0.5
  }

  /**
   * With a positive deviation on the last full window, the Bollinger condition is
   * just "the close is above its 20-bar mean": %B > 0.5 adds nothing.
   */
  lemma BollingerConditionMeaning(bars: seq<Bar>, stdDev: seq<real> -> real)
    requires |bars| >= 20
    requires stdDev(Window(Closes(bars), 20, |bars| - 1)) > 0.0
    ensures BollingerCondition(bars, stdDev) <==>
      bars[|bars| - 1].close > Mean(Window(Closes(bars), 20, |bars| - 1))
  {
    var n := |bars|;
    var c := Closes(bars);
    LiftWindow(c, 20, n - 1);
    var mid := RollingMean(Lift(c), 20)[n - 1];
    var sd := RollingStd(c, 20, stdDev)[n - 1];
    assert Bands20(bars, stdDev)[n - 1] == BandsAt(c[n - 1], mid, sd, 2.0);
    BandsProperties(c[n - 1], mid, sd, 2.0);
  }

  /** The latest values reported for a 15-minute series. */
  datatype Snapshot = Snapshot(rs: Option<real>, adx: Option<real>, rsi: Option<real>,
                               stochK: Option<real>, stochD: Option<real>, rsiTrend: Trend,
                               atrPct: Option<real>, percentB: Option<real>, width: Option<real>)

  datatype IntradayVerdict = IntradayVerdict(ok: bool, snapshot: Option<Snapshot>)

  /** The seven 15-minute conditions together. */
  predicate AllConditions(bars: seq<Bar>, stdDev: seq<real> -> real)
    requires |bars| > 0
  {
    EmaChain(bars) && VolumeAboveAverage(bars) && RsiCondition(bars) &&
    Gt(Adx14(bars)[|bars| - 1], Some(25.0)) && StochCross(bars) &&
    Lt(AtrPct14(bars)[|bars| - 1], Some(2.0)) && BollingerCondition(bars, stdDev)
  }

  /** The latest values of a series of at least two bars. */
  function SnapshotOf(bars: seq<Bar>, spyCloses: seq<real>, stdDev: seq<real> -> real): Snapshot
    requires |bars| >= 2
  {
    var n := |bars|;
    var bands := Bands20(bars, stdDev)[n - 1];
    Snapshot(RelativeStrength(Closes(bars), spyCloses)[n - 1], Adx14(bars)[n - 1], Rsi14(bars)[n - 1],
             StochK14(bars)[n - 1], StochD3(bars)[n - 1], ColumnTrend(Rsi14(bars), 3),
             AtrPct14(bars)[n - 1], bands.percentB, bands.width)
  }

  /**
   * `check_15m_conditions`: (False, no values) for a failed download or fewer than 100
   * bars; otherwise the seven conditions together, with the relative strength against
   * the SPY 15-minute closes and the latest indicator values.
   */
  function IntradayConditions(m15: Fetch, spyCloses: seq<real>, stdDev: seq<real> -> real): (v: IntradayVerdict)
    ensures m15.None? || |m15.value| < 100 ==> v == IntradayVerdict(false, None)
    ensures m15.Some? && |m15.value| >= 100 ==>
      v == IntradayVerdict(AllConditions(m15.value, stdDev), Some(SnapshotOf(m15.value, spyCloses, stdDev)))
  {
    if m15.None? || |m15.value| < 100 then IntradayVerdict(false, None)
    else IntradayVerdict(AllConditions(m15.value, stdDev), Some(SnapshotOf(m15.value, spyCloses, stdDev)))
  }

  /**
   * A passing 15-minute series reports RSI in (55, 100] with the up arrow, ADX in
   * (25, 100], ATR% below 2, %B above 0.5, and %K above %D now after being at or
   * below it one bar earlier, with %K in [0, 100] when bars close inside their range.
   */
  lemma IntradayPassMeaning(bars: seq<Bar>, spyCloses: seq<real>, stdDev: seq<real> -> real)
    requires ClosesInRange(bars)
    requires IntradayConditions(Some(bars), spyCloses, stdDev).ok
    ensures var s := IntradayConditions(Some(bars), spyCloses, stdDev).snapshot.value;
      s.rsi.Some? && 55.0 < s.rsi.value <= 100.0 && s.rsiTrend == Rising &&
      s.adx.Some? && 25.0 < s.adx.value <= 100.0 &&
      s.atrPct.Some? && s.atrPct.value < 2.0 &&
      s.percentB.Some? && s.percentB.value > 0.5 &&
      s.stochK.Some? && s.stochD.Some? && s.stochD.value < s.stochK.value <= 100.0
    ensures var n := |bars|;
      Le(StochK14(bars)[n - 2], StochD3(bars)[n - 2])
  {
    var n := |bars|;
    assert RangesValid(bars);
    RsiBounded(Closes(bars), 14, n - 1);
    AdxBounded(bars, 14, n - 1);
    assert StochK14(bars)[n - 1] == StochKAt(bars, 14, n - 1);
    StochKBounded(bars, 14, n - 1);
  }

  /**
   * With SPY's 15-minute closes aligned to the stock's and all prices positive, the
   * reported relative strength is the stock's total return over the window divided
   * by SPY's.
   */
  lemma RelativeStrengthMeaning(bars: seq<Bar>, spyCloses: seq<real>, stdDev: seq<real> -> real)
    requires |bars| >= 100 && |spyCloses| == |bars|
    requires Positive(Closes(bars)) && Positive(spyCloses)
    ensures var s, b, n := Closes(bars), spyCloses, |bars|;
      SnapshotOf(bars, spyCloses, stdDev).rs == Some((s[n - 1] / s[0]) / (b[n - 1] / b[0]))
  {
    SnapshotRs(bars, spyCloses, stdDev);
    RelativeStrengthTelescopes(Closes(bars), spyCloses, |bars| - 1);
  }

  /** The reported relative strength is the last entry of the RS column. */
  lemma SnapshotRs(bars: seq<Bar>, spyCloses: seq<real>, stdDev: seq<real> -> real)
    requires |bars| >= 2
    ensures SnapshotOf(bars, spyCloses, stdDev).rs == RelativeStrength(Closes(bars), spyCloses)[|bars| - 1]
  {
  }

  // ---------------------------------------------------------------------------
  // The screen
  // ---------------------------------------------------------------------------

  /** The downloads of one ticker. */
  datatype TickerFeeds = TickerFeeds(ticker: string, m15: Fetch, hourly: Fetch)

  /** One row of the result table. */
  datatype Detail = Detail(ticker: string, relativeStrength: Option<real>, adx: Option<real>,
                           rsi: Option<real>, stochK: Option<real>, stochD: Option<real>,
                           rsiTrend: Trend, atrPct: Option<real>, percentB: Option<real>,
                           width: Option<real>)

  /** Nothing when the SPY gate is shut or the SPY 15-minute download failed. */
  datatype Outcome = Aborted | Ranked(qualifying: seq<string>, details: seq<Detail>)

  function Qualifies(f: TickerFeeds, spyCloses: seq<real>, stdDev: seq<real> -> real): (r: bool)
    ensures r ==> f.m15.Some? && |f.m15.value| >= 100 && f.hourly.Some? && |f.hourly.value| >= 100
  {
    IntradayConditions(f.m15, spyCloses, stdDev).ok && HourlyTrendUp(f.hourly)
  }

  function DetailOf(ticker: string, s: Snapshot): Detail
  {
    Detail(ticker, s.rs, s.adx, s.rsi, s.stochK, s.stochD, s.rsiTrend, s.atrPct, s.percentB, s.width)
  }

  /** The row of a qualifying ticker: its 15-minute snapshot. */
  function RowOf(f: TickerFeeds, spyCloses: seq<real>, stdDev: seq<real> -> real): Detail
    requires Qualifies(f, spyCloses, stdDev)
  {
    DetailOf(f.ticker, IntradayConditions(f.m15, spyCloses, stdDev).snapshot.value)
  }

  /** What one ticker contributes to the table: its row when its 15-minute and one-hour checks hold. */
  function Check(f: TickerFeeds, spyCloses: seq<real>, stdDev: seq<real> -> real): Option<Detail>
  {
    if Qualifies(f, spyCloses, stdDev) then Some(RowOf(f, spyCloses, stdDev)) else None
  }

  /** The contribution of every ticker, in scan order. */
  function Checks(feeds: seq<TickerFeeds>, spyCloses: seq<real>, stdDev: seq<real> -> real): (cs: seq<Option<Detail>>)
    ensures |cs| == |feeds|
  {
    seq(|feeds|, i requires 0 <= i < |feeds| => Check(feeds[i], spyCloses, stdDev))
  }

  /** What every reported row shows: RSI above 55 and rising, ADX above 25, ATR% below 2, %B above 0.5. */
  predicate Reportable(d: Detail)
  {
    Gt(d.rsi, Some(55.0)) && d.rsiTrend == Rising && Gt(d.adx, Some(25.0)) &&
    Lt(d.atrPct, Some(2.0)) && Gt(d.percentB, Some(0.5)) && Gt(d.stochK, d.stochD)
  }

  /** A series meeting the seven conditions yields a reportable row. */
  lemma ConditionsReportable(ticker: string, bars: seq<Bar>, spyCloses: seq<real>, stdDev: seq<real> -> real)
    requires |bars| >= 2 && AllConditions(bars, stdDev)
    ensures Reportable(DetailOf(ticker, SnapshotOf(bars, spyCloses, stdDev)))
  {
    assert RsiCondition(bars) && StochCross(bars);
  }

  /** The row of a qualifying ticker is reportable. */
  lemma QualifyingRowReportable(f: TickerFeeds, spyCloses: seq<real>, stdDev: seq<real> -> real)
    requires Qualifies(f, spyCloses, stdDev)
    ensures Reportable(RowOf(f, spyCloses, stdDev))
  {
    var bars := f.m15.value;
    assert IntradayConditions(f.m15, spyCloses, stdDev).snapshot == Some(SnapshotOf(bars, spyCloses, stdDev));
    ConditionsReportable(f.ticker, bars, spyCloses, stdDev);
  }

  /** Every row kept from the checks is reportable. */
  lemma ChecksReportable(feeds: seq<TickerFeeds>, spyCloses: seq<real>, stdDev: seq<real> -> real)
    ensures forall k :: 0 <= k < |Rows(Checks(feeds, spyCloses, stdDev))| ==> Reportable(Rows(Checks(feeds, spyCloses, stdDev))[k])
  {
    var cs := Checks(feeds, spyCloses, stdDev);
    forall k | 0 <= k < |Rows(cs)| ensures Reportable(Rows(cs)[k]) {
      var i := RowsSource(cs, Rows(cs)[k]);
      QualifyingRowReportable(feeds[i], spyCloses, stdDev);
    }
  }

  /** The rows of the qualifying tickers, in scan order; every one of them is reportable. */
  function Qualifiers(feeds: seq<TickerFeeds>, spyCloses: seq<real>, stdDev: seq<real> -> real): (ds: seq<Detail>)
    ensures |ds| <= |feeds|
    ensures forall k :: 0 <= k < |ds| ==> Reportable(ds[k])
  {
    ChecksReportable(feeds, spyCloses, stdDev);
    Rows(Checks(feeds, spyCloses, stdDev))
  }

  /** One more ticker extends the qualifiers by its row exactly when it qualifies. */
  lemma QualifiersStep(feeds: seq<TickerFeeds>, i: nat, spyCloses: seq<real>, stdDev: seq<real> -> real)
    requires i < |feeds|
    ensures Qualifiers(feeds[..i + 1], spyCloses, stdDev) == Qualifiers(feeds[..i], spyCloses, stdDev) +
      (if Qualifies(feeds[i], spyCloses, stdDev) then [RowOf(feeds[i], spyCloses, stdDev)] else [])
  {
    var cs := Checks(feeds, spyCloses, stdDev);
    assert Checks(feeds[..i + 1], spyCloses, stdDev) == cs[..i + 1];
    assert Checks(feeds[..i], spyCloses, stdDev) == cs[..i];
    RowsStep(cs, i);
  }

  /** Every qualifying ticker has its row among the qualifiers. */
  lemma QualifiersComplete(feeds: seq<TickerFeeds>, spyCloses: seq<real>, stdDev: seq<real> -> real, i: nat)
    requires i < |feeds| && Qualifies(feeds[i], spyCloses, stdDev)
    ensures RowOf(feeds[i], spyCloses, stdDev) in Qualifiers(feeds, spyCloses, stdDev)
  {
    RowsComplete(Checks(feeds, spyCloses, stdDev), i);
  }

  /** Where a row comes from: the index of a qualifying ticker whose row it is. */
  lemma QualifierSource(feeds: seq<TickerFeeds>, spyCloses: seq<real>, stdDev: seq<real> -> real, d: Detail) returns (i: nat)
    requires d in Qualifiers(feeds, spyCloses, stdDev)
    ensures i < |feeds| && Qualifies(feeds[i], spyCloses, stdDev) && d == RowOf(feeds[i], spyCloses, stdDev)
  {
    i := RowsSource(Checks(feeds, spyCloses, stdDev), d);
  }

  /** Every row belongs to a qualifying ticker and is reportable. */
  lemma QualifiersSound(feeds: seq<TickerFeeds>, spyCloses: seq<real>, stdDev: seq<real> -> real, d: Detail)
    requires d in Qualifiers(feeds, spyCloses, stdDev)
    ensures Reportable(d)
    ensures exists i :: 0 <= i < |feeds| && Qualifies(feeds[i], spyCloses, stdDev) && d.ticker == feeds[i].ticker
  {
    var i := QualifierSource(feeds, spyCloses, stdDev, d);
    QualifyingRowReportable(feeds[i], spyCloses, stdDev);
  }

  /** The sort key; an undefined relative strength is ranked as 0. */
  function RsKey(d: Detail): real
  {
    if d.relativeStrength.Some? then d.relativeStrength.value else 0.0
  }

  function TickerOf(d: Detail): string { d.ticker }

  /** The result once the gate is open: the rows by descending relative strength. */
  function Rank(details: seq<Detail>): Outcome
  {
    var sorted := SortDesc(details, RsKey);
    Ranked(Names(sorted, TickerOf), sorted)
  }

  /**
   * The ranking lists the same rows, by non-increasing relative strength, rows of
   * equal strength in scan order, and names the tickers in the order of the rows.
   */
  lemma RankProperties(details: seq<Detail>, k: real)
    ensures Rank(details).Ranked?
    ensures multiset(Rank(details).details) == multiset(details)
    ensures SortedDesc(Rank(details).details, RsKey)
    ensures WithKey(Rank(details).details, RsKey, k) == WithKey(details, RsKey, k)
    ensures |Rank(details).qualifying| == |details|
    ensures forall i :: 0 <= i < |details| ==> Rank(details).qualifying[i] == Rank(details).details[i].ticker
  {
    RankedTable(details, RsKey, TickerOf, k);
  }

  /** One step of the scan loop, in the loop's terms: the row is appended exactly when both checks pass. */
  lemma ScanStep(feeds: seq<TickerFeeds>, i: nat, spyCloses: seq<real>, stdDev: seq<real> -> real,
                  details: seq<Detail>, m15: IntradayVerdict, hourly: bool)
    requires i < |feeds| && details == Qualifiers(feeds[..i], spyCloses, stdDev)
    requires m15 == IntradayConditions(feeds[i].m15, spyCloses, stdDev) && hourly == HourlyTrendUp(feeds[i].hourly)
    ensures m15.ok && hourly ==>
      m15.snapshot.Some? && Qualifiers(feeds[..i + 1], spyCloses, stdDev) == details + [DetailOf(feeds[i].ticker, m15.snapshot.value)]
    ensures !(m15.ok && hourly) ==> Qualifiers(feeds[..i + 1], spyCloses, stdDev) == details
  {
    QualifiersStep(feeds, i, spyCloses, stdDev);
  }

  /**
   * The scan loop of `analyze_stocks`: every ticker's checks run, and the ticker and
   * its row are appended when they all hold.
   */
  method ScanFeeds(feeds: seq<TickerFeeds>, spyCloses: seq<real>, stdDev: seq<real> -> real) returns (qualifying: seq<string>, details: seq<Detail>)
    ensures details == Qualifiers(feeds, spyCloses, stdDev)
    ensures qualifying == Names(details, TickerOf)
  {
    qualifying, details := [], [];
    var i := 0;
    assert feeds[..0] == [];
    assert details == Qualifiers(feeds[..0], spyCloses, stdDev);
    while i < |feeds|
      invariant 0 <= i <= |feeds|
      invariant details == Qualifiers(feeds[..i], spyCloses, stdDev)
      invariant qualifying == Names(details, TickerOf)
    {
      var f := feeds[i];
      var m15 := IntradayConditions(f.m15, spyCloses, stdDev);
      var hourly := HourlyTrendUp(f.hourly);
      ScanStep(feeds, i, spyCloses, stdDev, details, m15, hourly);
      if m15.ok && hourly {
        var row := DetailOf(f.ticker, m15.snapshot.value);
        NamesAppend(details, row, TickerOf);
        qualifying := qualifying + [f.ticker];
        details := details + [row];
      }
      i := i + 1;
    }
    assert feeds[..|feeds|] == feeds;
  }

  /**
   * `analyze_stocks`: nothing unless SPY is above its 200-day EMA and its 15-minute
   * download succeeded; otherwise each ticker's 15-minute and one-hour checks run and
   * the qualifying rows are ranked by relative strength.
   */
  method AnalyzeStocks(spyGate: Fetch, spy15: Fetch, feeds: seq<TickerFeeds>, stdDev: seq<real> -> real)
    returns (out: Outcome)
    ensures !SpyAboveEma200(spyGate) || spy15.None? ==> out == Aborted
    ensures SpyAboveEma200(spyGate) && spy15.Some? ==>
      out == Rank(Qualifiers(feeds, Closes(spy15.value), stdDev))
  {
    if !SpyAboveEma200(spyGate) {
      return Aborted;
    }
    if spy15.None? {
      return Aborted;
    }
    var spyCloses := Closes(spy15.value);
    var qualifying, details := ScanFeeds(feeds, spyCloses, stdDev);
    if details != [] {
      details := SortDesc(details, RsKey);
      qualifying := Names(details, TickerOf);
    }
    out := Ranked(qualifying, details);
  }
}
