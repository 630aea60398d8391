/**
 * The DeepSeek multi-timeframe screener: a stock qualifies when its daily, one-hour
 * and 15-minute checks all hold, provided SPY is above its 200-day EMA; qualifying
 * stocks are ranked by daily relative strength against SPY.
 */
module DeepSeek {
  import opened Numeric
  import opened Bars
  import opened Indicators
  import opened Detectors
  import opened Ranking
  import opened Timeframes

  // ---------------------------------------------------------------------------
  // Daily timeframe
  // ---------------------------------------------------------------------------

  /** The daily result: the condition, the latest relative strength and the latest close. */
  datatype DailyVerdict = DailyVerdict(ok: bool, rs: Option<real>, price: real)

  /**
   * `check_daily_conditions`: (False, 0, 0) for a failed download or fewer than 200
   * bars; otherwise EMA50 above EMA200 and relative strength above 1 at the last bar.
   */
  function DailyConditions(daily: Fetch, spyCloses: seq<real>): (v: DailyVerdict)
    ensures daily.None? || |daily.value| < 200 ==> v == DailyVerdict(false, Some(0.0), 0.0)
    ensures daily.Some? && |daily.value| >= 200 ==>
      var bars := daily.value;
      v.price == bars[|bars| - 1].close &&
      v.rs == RelativeStrength(Closes(bars), spyCloses)[|bars| - 1] &&
      (v.ok <==> LastEma(bars, 50) > LastEma(bars, 200) && Gt(v.rs, Some(1.0)))
  {
    if daily.None? || |daily.value| < 200 then DailyVerdict(false, Some(0.0), 0.0)
    else
      var bars := daily.value;
      var rs := RelativeStrength(Closes(bars), spyCloses)[|bars| - 1];
      DailyVerdict(LastEma(bars, 50) > LastEma(bars, 200) && Gt(rs, Some(1.0)), rs, bars[|bars| - 1].close)
  }

  /**
   * With SPY closes aligned to the stock's and all prices positive, the daily check
   * holds exactly when EMA50 is above EMA200 and the stock's total return over the
   * window beats SPY's: (S[n-1] / S[0]) / (B[n-1] / B[0]) > 1.
   */
  lemma DailyMeansOutperformed(daily: seq<Bar>, spyCloses: seq<real>)
    requires |daily| >= 200 && |spyCloses| == |daily|
    requires Positive(Closes(daily)) && Positive(spyCloses)
    ensures var s, b, n := Closes(daily), spyCloses, |daily|;
      DailyConditions(Some(daily), spyCloses).ok <==>
        LastEma(daily, 50) > LastEma(daily, 200) && (s[n - 1] / s[0]) / (b[n - 1] / b[0]) > 1.0
  {
    RelativeStrengthTelescopes(Closes(daily), spyCloses, |daily| - 1);
  }

  // ---------------------------------------------------------------------------
  // 15-minute timeframe
  // ---------------------------------------------------------------------------

  /** The latest indicator values and trend arrows reported for a 15-minute series. */
  datatype Snapshot = Snapshot(adx: Option<real>, rsi: Option<real>, rsiTrend: Trend,
                               adxTrend: Trend, atrTrend: Trend, atrPct: Option<real>, price: real)

  datatype IntradayVerdict = IntradayVerdict(ok: bool, snapshot: Option<Snapshot>)

  /** ADX above 25 and rising over the last three values. */
  predicate AdxCondition(bars: seq<Bar>)
    requires |bars| > 0
  {
    Gt(Adx14(bars)[|bars| - 1], Some(25.0)) && IsRising(Adx14(bars), 3)
  }

  /** ATR below 2% of the price and rising over the last three values. */
  predicate VolatilityCondition(bars: seq<Bar>)
    requires |bars| > 0
  {
    Lt(AtrPct14(bars)[|bars| - 1], Some(2.0)) && IsRising(AtrPct14(bars), 3)
  }

  /** The five 15-minute conditions together. */
  predicate AllConditions(bars: seq<Bar>)
    requires |bars| > 0
  {
    EmaChain(bars) && VolumeAboveAverage(bars) &&
    RsiCondition(bars) && AdxCondition(bars) && VolatilityCondition(bars)
  }

  /** The latest indicator values, trend arrows and close of a series. */
  function SnapshotOf(bars: seq<Bar>): Snapshot
    requires |bars| >= 2
  {
    var n := |bars|;
    var rsi, adx, atrPct := Rsi14(bars), Adx14(bars), AtrPct14(bars);
    Snapshot(adx[n - 1], rsi[n - 1], ColumnTrend(rsi, 3), ColumnTrend(adx, 3), ColumnTrend(atrPct, 3),
             atrPct[n - 1], bars[n - 1].close)
  }

  /**
   * `check_15m_conditions`: (False, no values) for a failed download or fewer than 100
   * bars; otherwise the conjunction of the EMA chain, the volume test and the RSI,
   * ADX and volatility conditions, with the latest values and trend arrows.
   */
  function IntradayConditions(m15: Fetch): (v: IntradayVerdict)
    ensures v.snapshot.None? <==> m15.None? || |m15.value| < 100
    ensures v.snapshot.None? ==> !v.ok
    ensures v.snapshot.Some? ==> v == IntradayVerdict(AllConditions(m15.value), Some(SnapshotOf(m15.value)))
  {
    if m15.None? || |m15.value| < 100 then IntradayVerdict(false, None)
    else IntradayVerdict(AllConditions(m15.value), Some(SnapshotOf(m15.value)))
  }

  /**
   * A passing 15-minute series reports RSI in (55, 100], ADX in (25, 100] and ATR% below
   * 2, each defined and strictly increasing over its last three values, and shows the
   * up arrow for all three indicators.
   */
  lemma IntradayPassMeaning(bars: seq<Bar>)
    requires RangesValid(bars)
    requires IntradayConditions(Some(bars)).ok
    ensures var s := IntradayConditions(Some(bars)).snapshot.value;
      s.rsi.Some? && 55.0 < s.rsi.value <= 100.0 &&
      s.adx.Some? && 25.0 < s.adx.value <= 100.0 &&
      s.atrPct.Some? && s.atrPct.value < 2.0 &&
      s.rsiTrend == Rising && s.adxTrend == Rising && s.atrTrend == Rising
    ensures var n := |bars|;
      forall j, k :: n - 3 <= j < k < n ==>
        Rsi14(bars)[j].Some? && Rsi14(bars)[k].Some? && Rsi14(bars)[j].value < Rsi14(bars)[k].value
  {
    PassingConditions(bars);
    ConditionsMeaning(bars);
  }

  /** The RSI, ADX and volatility conditions, read on the snapshot of the series. */
  lemma ConditionsMeaning(bars: seq<Bar>)
    requires |bars| >= 100 && RangesValid(bars)
    requires RsiCondition(bars) && AdxCondition(bars) && VolatilityCondition(bars)
    ensures var s := SnapshotOf(bars);
      s.rsi.Some? && 55.0 < s.rsi.value <= 100.0 &&
      s.adx.Some? && 25.0 < s.adx.value <= 100.0 &&
      s.atrPct.Some? && s.atrPct.value < 2.0 &&
      s.rsiTrend == Rising && s.adxTrend == Rising && s.atrTrend == Rising
    ensures var n := |bars|;
      forall j, k :: n - 3 <= j < k < n ==>
        Rsi14(bars)[j].Some? && Rsi14(bars)[k].Some? && Rsi14(bars)[j].value < Rsi14(bars)[k].value
  {
    var n, rsi, adx, atrPct := |bars|, Rsi14(bars), Adx14(bars), AtrPct14(bars);
    assert SnapshotOf(bars) == Snapshot(adx[n - 1], rsi[n - 1], ColumnTrend(rsi, 3), ColumnTrend(adx, 3),
                                        ColumnTrend(atrPct, 3), atrPct[n - 1], bars[n - 1].close);
    RsiConditionMeaning(bars);
    AdxConditionMeaning(bars);
  }

  lemma AdxConditionMeaning(bars: seq<Bar>)
    requires |bars| > 0 && RangesValid(bars) && AdxCondition(bars)
    ensures var n := |bars|; Adx14(bars)[n - 1].Some? && 25.0 < Adx14(bars)[n - 1].value <= 100.0
  {
    AdxBounded(bars, 14, |bars| - 1);
  }

  /** A passing 15-minute series has 100 bars or more and meets the RSI, ADX and volatility conditions. */
  lemma PassingConditions(bars: seq<Bar>)
    requires IntradayConditions(Some(bars)).ok
    ensures |bars| >= 100 && IntradayConditions(Some(bars)).snapshot == Some(SnapshotOf(bars))
    ensures RsiCondition(bars) && AdxCondition(bars) && VolatilityCondition(bars)
  {
  }

  /** An undefined latest RSI, ADX or ATR% fails the 15-minute check. */
  lemma UndefinedIndicatorFails(bars: seq<Bar>)
    requires |bars| > 0
    requires Rsi14(bars)[|bars| - 1].None? || Adx14(bars)[|bars| - 1].None? ||
             AtrPct14(bars)[|bars| - 1].None?
    ensures !IntradayConditions(Some(bars)).ok
  {
  }

  // ---------------------------------------------------------------------------
  // The screen
  // ---------------------------------------------------------------------------

  /** The downloads of one ticker on the three timeframes. */
  datatype TickerFeeds = TickerFeeds(ticker: string, daily: Fetch, hourly: Fetch, m15: Fetch)

  /** One row of the result table. */
  datatype Detail = Detail(ticker: string, dailyRs: real, price: real,
                           adx: Option<real>, rsi: Option<real>,
                           rsiTrend: Trend, adxTrend: Trend, atrTrend: Trend, atrPct: Option<real>)

  /** Nothing when the SPY gate is shut; otherwise the ranked tickers and their rows. */
  datatype Outcome = GateClosed | Ranked(qualifying: seq<string>, details: seq<Detail>)

  /** The three timeframe checks all hold. */
  function Qualifies(f: TickerFeeds, spyCloses: seq<real>): (r: bool)
    ensures r ==> f.daily.Some? && |f.daily.value| >= 200 && f.hourly.Some? && |f.hourly.value| >= 100 &&
                  f.m15.Some? && |f.m15.value| >= 100
  {
    DailyConditions(f.daily, spyCloses).ok && HourlyTrendUp(f.hourly) && IntradayConditions(f.m15).ok
  }

  /** The row recorded for a qualifying ticker. */
  function DetailOf(ticker: string, daily: DailyVerdict, m15: IntradayVerdict): Detail
    requires daily.rs.Some? && m15.snapshot.Some?
  {
    var s := m15.snapshot.value;
    Detail(ticker, daily.rs.value, s.price, s.adx, s.rsi, s.rsiTrend, s.adxTrend, s.atrTrend, s.atrPct)
  }

  /** The row of a qualifying ticker: its daily relative strength and its 15-minute snapshot. */
  function RowOf(f: TickerFeeds, spyCloses: seq<real>): Detail
    requires Qualifies(f, spyCloses)
  {
    DetailOf(f.ticker, DailyConditions(f.daily, spyCloses), IntradayConditions(f.m15))
  }

  /** What one ticker contributes to the table: its row when all three checks hold. */
  function Check(f: TickerFeeds, spyCloses: seq<real>): Option<Detail>
  {
    if Qualifies(f, spyCloses) then Some(RowOf(f, spyCloses)) else None
  }

  /** The contribution of every ticker, in scan order. */
  function Checks(feeds: seq<TickerFeeds>, spyCloses: seq<real>): (cs: seq<Option<Detail>>)
    ensures |cs| == |feeds|
  {
    seq(|feeds|, i requires 0 <= i < |feeds| => Check(feeds[i], spyCloses))
  }

  /** What every reported row shows: RS above 1, RSI above 55, ADX above 25, ATR% below 2, all rising. */
  predicate Reportable(d: Detail)
  {
    d.dailyRs > 1.0 && Gt(d.rsi, Some(55.0)) && Gt(d.adx, Some(25.0)) && Lt(d.atrPct, Some(2.0)) &&
    d.rsiTrend == Rising && d.adxTrend == Rising && d.atrTrend == Rising
  }

  /** The row of a qualifying ticker is reportable. */
  lemma QualifyingRowReportable(f: TickerFeeds, spyCloses: seq<real>)
    requires Qualifies(f, spyCloses)
    ensures Reportable(RowOf(f, spyCloses))
  {
    var bars := f.m15.value;
    assert RsiCondition(bars) && AdxCondition(bars) && VolatilityCondition(bars);
  }

  /** Every row kept from the checks is reportable. */
  lemma ChecksReportable(feeds: seq<TickerFeeds>, spyCloses: seq<real>)
    ensures forall k :: 0 <= k < |Rows(Checks(feeds, spyCloses))| ==> Reportable(Rows(Checks(feeds, spyCloses))[k])
  {
    var cs := Checks(feeds, spyCloses);
    forall k | 0 <= k < |Rows(cs)| ensures Reportable(Rows(cs)[k]) {
      var i := RowsSource(cs, Rows(cs)[k]);
      QualifyingRowReportable(feeds[i], spyCloses);
    }
  }

  /** The rows of the qualifying tickers, in scan order; every one of them is reportable. */
  function Qualifiers(feeds: seq<TickerFeeds>, spyCloses: seq<real>): (ds: seq<Detail>)
    ensures |ds| <= |feeds|
    ensures forall k :: 0 <= k < |ds| ==> Reportable(ds[k])
  {
    ChecksReportable(feeds, spyCloses);
    Rows(Checks(feeds, spyCloses))
  }

  /** One more ticker extends the qualifiers by its row exactly when it qualifies. */
  lemma QualifiersStep(feeds: seq<TickerFeeds>, i: nat, spyCloses: seq<real>)
    requires i < |feeds|
    ensures Qualifiers(feeds[..i + 1], spyCloses) == Qualifiers(feeds[..i], spyCloses) +
      (if Qualifies(feeds[i], spyCloses) then [RowOf(feeds[i], spyCloses)] else [])
  {
    var cs := Checks(feeds, spyCloses);
    assert Checks(feeds[..i + 1], spyCloses) == cs[..i + 1];
    assert Checks(feeds[..i], spyCloses) == cs[..i];
    RowsStep(cs, i);
  }

  /** Every qualifying ticker has its row among the qualifiers. */
  lemma QualifiersComplete(feeds: seq<TickerFeeds>, spyCloses: seq<real>, i: nat)
    requires i < |feeds| && Qualifies(feeds[i], spyCloses)
    ensures RowOf(feeds[i], spyCloses) in Qualifiers(feeds, spyCloses)
  {
    RowsComplete(Checks(feeds, spyCloses), i);
  }

  /** Where a row comes from: the index of a qualifying ticker whose row it is. */
  lemma QualifierSource(feeds: seq<TickerFeeds>, spyCloses: seq<real>, d: Detail) returns (i: nat)
    requires d in Qualifiers(feeds, spyCloses)
    ensures i < |feeds| && Qualifies(feeds[i], spyCloses) && d == RowOf(feeds[i], spyCloses)
  {
    i := RowsSource(Checks(feeds, spyCloses), d);
  }

  /** Every row belongs to a qualifying ticker and is reportable. */
  lemma QualifiersSound(feeds: seq<TickerFeeds>, spyCloses: seq<real>, d: Detail)
    requires d in Qualifiers(feeds, spyCloses)
    ensures Reportable(d)
    ensures exists i :: 0 <= i < |feeds| && Qualifies(feeds[i], spyCloses) && d.ticker == feeds[i].ticker
  {
    var i := QualifierSource(feeds, spyCloses, d);
    QualifyingRowReportable(feeds[i], spyCloses);
  }

  function RsKey(d: Detail): real { d.dailyRs }

  function TickerOf(d: Detail): string { d.ticker }

  /** The result once the gate is open: the rows by descending relative strength. */
  function Rank(details: seq<Detail>): Outcome
  {
    var sorted := SortDesc(details, RsKey);
    Ranked(Names(sorted, TickerOf), sorted)
  }

  /**
   * The ranking lists the same rows, by non-increasing relative strength, rows of
   * equal strength in scan order, and names the tickers in the order of the rows.
   */
  lemma RankProperties(details: seq<Detail>, k: real)
    ensures Rank(details).Ranked?
    ensures multiset(Rank(details).details) == multiset(details)
    ensures SortedDesc(Rank(details).details, RsKey)
    ensures WithKey(Rank(details).details, RsKey, k) == WithKey(details, RsKey, k)
    ensures |Rank(details).qualifying| == |details|
    ensures forall i :: 0 <= i < |details| ==> Rank(details).qualifying[i] == Rank(details).details[i].ticker
  {
    RankedTable(details, RsKey, TickerOf, k);
  }

  /** One step of the scan loop, in the loop's terms: the row is appended exactly when all three checks pass. */
  lemma ScanStep(feeds: seq<TickerFeeds>, i: nat, spyCloses: seq<real>, details: seq<Detail>,
                 daily: DailyVerdict, hourly: bool, m15: IntradayVerdict)
    requires i < |feeds| && details == Qualifiers(feeds[..i], spyCloses)
    requires daily == DailyConditions(feeds[i].daily, spyCloses) && hourly == HourlyTrendUp(feeds[i].hourly)
    requires m15 == IntradayConditions(feeds[i].m15)
    ensures daily.ok && hourly && m15.ok ==>
      Qualifiers(feeds[..i + 1], spyCloses) == details + [DetailOf(feeds[i].ticker, daily, m15)]
    ensures !(daily.ok && hourly && m15.ok) ==> Qualifiers(feeds[..i + 1], spyCloses) == details
  {
    QualifiersStep(feeds, i, spyCloses);
  }

  /**
   * The scan loop of `analyze_stocks`: every ticker's checks run, and the ticker and
   * its row are appended when they all hold.
   */
  method ScanFeeds(feeds: seq<TickerFeeds>, spyCloses: seq<real>) returns (qualifying: seq<string>, details: seq<Detail>)
    ensures details == Qualifiers(feeds, spyCloses)
    ensures qualifying == Names(details, TickerOf)
  {
    qualifying, details := [], [];
    var i := 0;
    while i < |feeds|
      invariant 0 <= i <= |feeds|
      invariant details == Qualifiers(feeds[..i], spyCloses)
      invariant qualifying == Names(details, TickerOf)
    {
      var f := feeds[i];
      var daily := DailyConditions(f.daily, spyCloses);
      var hourly := HourlyTrendUp(f.hourly);
      var m15 := IntradayConditions(f.m15);
      ScanStep(feeds, i, spyCloses, details, daily, hourly, m15);
      if daily.ok && hourly && m15.ok {
        var row := DetailOf(f.ticker, daily, m15);
        NamesAppend(details, row, TickerOf);
        qualifying := qualifying + [f.ticker];
        details := details + [row];
      }
      i := i + 1;
    }
    assert feeds[..|feeds|] == feeds;
  }

  /**
   * `analyze_stocks`: nothing unless SPY is above its 200-day EMA; otherwise each ticker
   * is checked on all three timeframes (all three checks run before they are combined)
   * and the qualifying rows are ranked by daily relative strength.  The gate and the
   * relative strength use two separate SPY downloads.
   */
  method AnalyzeStocks(spyGate: Fetch, spyDaily: seq<Bar>, feeds: seq<TickerFeeds>) returns (out: Outcome)
    ensures !SpyAboveEma200(spyGate) ==> out == GateClosed
    ensures SpyAboveEma200(spyGate) ==> out == Rank(Qualifiers(feeds, Closes(spyDaily)))
  {
    if !SpyAboveEma200(spyGate) {
      return GateClosed;
    }
    var spyCloses := Closes(spyDaily);
    var qualifying, details := ScanFeeds(feeds, spyCloses);
    if details != [] {
      details := SortDesc(details, RsKey);
      qualifying := Names(details, TickerOf);
    }
    out := Ranked(qualifying, details);
  }
}
