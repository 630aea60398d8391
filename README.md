# Stock screeners: a verified model

The repository is a set of Python stock screeners. They all rebuild one pipeline:

- indicator columns computed from price bars: EMA, rolling mean, RSI, true range, ATR, ATR%, directional movement, DI, DX, ADX, Bollinger bands, stochastic %K/%D and cumulative relative strength against SPY;
- boolean detectors over the last rows: rising checks, the %K/%D cross-above test and the golden-cross signal;
- per-timeframe verdicts, ANDed across timeframes behind an SPY-above-EMA200 market gate;
- a stable ranking of the survivors by relative strength.

A separate tool clusters swing prices into support and resistance levels, keeps the levels touched often enough, and reports the nearest ones around the current price.

This project models that core in Dafny and proves properties of the model.

## How values are modelled

- **Bars and columns.** A price bar is `Bars.Bar(time, open, high, low, close, volume)`, with the timestamp as an integer. A pandas column is a `Numeric.Column`, a `seq<Option<real>>`, where `None` stands for NaN.
- **Comparisons.** They are made the way Python makes them on floats: any comparison with NaN is false (`Numeric.Gt`, `Lt`, `Le`).
- **Arithmetic.** It is exact over `real`. A division by zero gives NaN. The one infinity the screeners depend on is kept: an RSI with zero average loss and a positive average gain is 100.
- **Rolling means.** `rolling(window=w).mean()` has pandas' default `min_periods = w`. A window holding NaN is NaN.
- **EMAs.** `ewm(span, adjust=False)` starts at the first value and is defined on every row.
- **Downloads.** A data download is a `Bars.Fetch`, an `Option<seq<Bar>>`: `None` means the provider call raised or returned `None`. The provider itself is not modelled.
- **Orchestration.** Each script's orchestration loop is a `method` proved equal to a recursive specification function. Its properties are proved about that function: completeness, soundness and the ranking's sortedness, permutation and stability.

Module layout:

| module | contents |
|---|---|
| `Numeric` | NaN-aware values, sums, means, trailing windows, rolling means |
| `Bars` | bars and their columns |
| `Indicators` | EMA, TR/ATR, RSI (both warm-up variants), DM/DI/DX/ADX, Bollinger, stochastic, relative strength |
| `Detectors` | rising checks, cross-above, golden-cross signal, trend arrows |
| `Ranking` | stable sorts by a key, the rows kept by a scan, and the ticker list that follows them |
| `Timeframes` | checks shared by the screeners: SPY gate, hourly trend, EMA chain, volume test |
| `DeepSeek`, `AlphaVantage`, `SPList`, `Optimized` | the four multi-timeframe screeners |
| `GoldenCrossDaily`, `GoldenCrossHourly` | the two golden-cross scans |
| `SupportResistance` | level clustering, touch filtering, nearest levels |

The rising check `is_indicator_rising` / `is_rsi_rising` is modelled as the code behaves, not as its docstring describes. It returns False below `lookback + 1` values, but then compares only the last `lookback` values, so with `lookback = 3` only two comparisons are made. `Detectors.RisingExampleEarlierDropIgnored` shows a fall into the first of the last three values being ignored.

## Model

| member | source | states |
|---|---|---|
| Numeric.RollingMeanBounds | DeepSeekMultiTimeFrame.py:76 | a rolling mean lies between any lower and upper bound of the column's values |
| Numeric.RollingMean | DeepSeekMultiTimeFrame.py:76 | row i of a w-row rolling mean is defined exactly when the window is full (i ≥ w−1) and every value in it is defined; a NaN anywhere in the window makes it NaN |
| Numeric.Div | DeepSeekMultiTimeFrame.py:238 | a quotient is defined exactly when both operands are defined and the divisor is non-zero, and then times the divisor gives the dividend |
| Indicators.Ema | DeepSeekMultiTimeFrame.py:63-65 | the `adjust=False` EMA starts at the first input and each later row is α·x[t] + (1−α)·EMA[t−1], with α = 2/(span+1) |
| Indicators.EmaWithinRange | DeepSeekMultiTimeFrame.py:63-65 | every EMA value lies within any bounds of the inputs seen so far |
| Indicators.EmaBetweenPrefixExtremes | DeepSeekMultiTimeFrame.py:63-65 | the EMA at row t lies between the minimum and maximum of the first t+1 inputs |
| Indicators.EmaOfConstant | DeepSeekMultiTimeFrame.py:63-65 | a constant input gives a constant EMA equal to it |
| Indicators.EmaStrictlyBelow | DeepSeekMultiTimeFrame.py:63-65 | when all inputs so far are below x, so is the EMA |
| Indicators.EmaBelowNewHigh | DeepSeekMultiTimeFrame.py:63-65 | with span at least 2, a strict new high ends above its EMA |
| Indicators.EmaAboveNewLow | DeepSeekMultiTimeFrame.py:63-65 | a strict new low ends at or below its EMA |
| Indicators.TrueRange | DeepSeekMultiTimeFrame.py:70-73 | the true range is high−low on the first row; on every row it is at least high−low and, from row 1, at least both gaps to the previous close; non-negative on bars with low ≤ high |
| Indicators.Atr | DeepSeekMultiTimeFrame.py:67-77 | ATR is NaN exactly on the rows before period−1 |
| Indicators.AtrPercent | DeepSeekMultiTimeFrame.py:237-238 | ATR% is defined exactly from row period−1 on, where the close is non-zero (a zero close divides to NaN or infinity) |
| Indicators.TrueRangeAt | DeepSeekMultiTimeFrame.py:70-73 | the true range is at least high−low and both gaps to the previous close, equals one of them, is high−low on the first row, and is non-negative when low ≤ high |
| Indicators.AtrWarmup | DeepSeekMultiTimeFrame.py:67-77 | ATR is NaN exactly before row period−1, and afterwards is the mean of the last `period` true ranges |
| Indicators.AtrNonNegative | OptimizedOne.py:62-64 | on bars with low ≤ high a defined ATR is non-negative |
| Indicators.Gain | DeepSeekMultiTimeFrame.py:81-82 | a gain is non-negative, positive exactly on a rise, and then equals the rise |
| Indicators.Loss | DeepSeekMultiTimeFrame.py:81-83 | a loss is non-negative, positive exactly on a fall, and gain − loss is the price change |
| Indicators.GainsWhere | DeepSeekMultiTimeFrame.py:81-82 | the `where` gains are defined and non-negative on every row: 0 on the first row (its NaN delta fails the test) and the gain into row i from row 1 on |
| Indicators.LossesWhere | DeepSeekMultiTimeFrame.py:81-83 | the `where` losses are defined and non-negative on every row: 0 on the first row and the loss into row i from row 1 on |
| Indicators.GainsClip | OptimizedOne.py:48-49 | the `clip` gains keep the first row's NaN and are the gain into row i on every later row, non-negative wherever defined |
| Indicators.LossesClip | OptimizedOne.py:48-50 | the `clip` losses keep the first row's NaN and are the loss into row i on every later row, non-negative wherever defined |
| Indicators.RsiFrom | DeepSeekMultiTimeFrame.py:84-85 | RSI is NaN on a NaN average; 100 when the average loss is 0 and the gain positive; NaN when both are 0; otherwise 100·gain/(gain+loss), in [0,100) |
| Indicators.RsiOf | DeepSeekMultiTimeFrame.py:79-86 | RSI on row i is the RSI formula applied to the rolling means of the gains and the losses on that row, and is NaN before row period−1 |
| Indicators.RsiWhere | DeepSeekMultiTimeFrame.py:79-86 | the `where` RSI is NaN on every row before period−1 |
| Indicators.RsiClip | OptimizedOne.py:47-54 | the `clip` RSI is NaN on every row up to period−1, one row later than the `where` variant because the first delta is NaN |
| Indicators.RsiOfBounded | DeepSeekMultiTimeFrame.py:79-86 | an RSI over non-negative gains and losses lies in [0,100] where defined |
| Indicators.RsiBounded | OptimizedOne.py:47-54 | both RSI variants lie in [0,100] where defined |
| Indicators.RsiClipBounded | OptimizedOne.py:47-54 | the `clip` RSI lies in [0,100] wherever it is defined |
| Indicators.RsiWhereWarmup | DeepSeekMultiTimeFrame.py:79-86 | the `where` RSI is NaN before row period−1; from there both averages are defined and it is NaN exactly when both are 0 |
| Indicators.RsiClipWarmup | OptimizedOne.py:47-54 | the `clip` RSI is NaN up to row period−1; from row `period` both averages are defined and it is NaN exactly when both are 0 |
| Indicators.RsiOfAllGains | DeepSeekMultiTimeFrame.py:84-85 | a window without losses and with one positive gain has RSI exactly 100 |
| Indicators.RsiOfRisingPrices | DeepSeekMultiTimeFrame.py:79-86 | strictly rising prices give RSI 100 in both variants once warm |
| Indicators.RsiOfFlat | DeepSeekMultiTimeFrame.py:84-85 | all-zero gains and losses make RSI NaN everywhere |
| Indicators.RsiOfConstantPrices | OptimizedOne.py:47-54 | constant prices make both RSI variants NaN on every row |
| Indicators.FlatGainsWhere | DeepSeekMultiTimeFrame.py:81-83 | constant prices give `where` gains and losses of 0 on every row |
| Indicators.FlatGainsClip | OptimizedOne.py:48-50 | constant prices give `clip` gains and losses of 0 wherever defined |
| Indicators.DirectionalMovementAt | DeepSeekMultiTimeFrame.py:110-114 | +DM and −DM are non-negative, never both positive, 0 on the first row, and positive exactly when their move dominates and is positive, in which case they equal that move |
| Indicators.PlusDM | DeepSeekMultiTimeFrame.py:110-114 | +DM is 0 on the first row and non-negative; from row 1 it is positive exactly when the up move beats the down move and is positive, and then equals the up move |
| Indicators.MinusDM | DeepSeekMultiTimeFrame.py:110-114 | −DM is 0 on the first row, non-negative and never positive together with +DM; from row 1 it is positive exactly when the down move beats the up move and is positive, and then equals the down move |
| Indicators.DirectionalIndex | DeepSeekMultiTimeFrame.py:117-123 | a DI is defined exactly from row period−1 on where ATR is non-zero |
| Indicators.PlusDI | DeepSeekMultiTimeFrame.py:117-123 | +DI is defined exactly from row period−1 on where ATR is non-zero |
| Indicators.MinusDI | DeepSeekMultiTimeFrame.py:117-123 | −DI is defined exactly from row period−1 on where ATR is non-zero |
| Indicators.Dx | DeepSeekMultiTimeFrame.py:122-126 | DX is defined exactly where +DI and −DI are both defined and their sum is non-zero |
| Indicators.Adx | DeepSeekMultiTimeFrame.py:127 | ADX on row t is defined exactly when its window is full and every DX in the window is defined |
| Indicators.DxFrom | DeepSeekMultiTimeFrame.py:126 | DX is defined exactly when both DIs are defined and their sum is non-zero, and then lies in [0,100] for non-negative DIs |
| Indicators.DirectionalIndexNonNegative | DeepSeekMultiTimeFrame.py:117-123 | on valid bars a defined +DI or −DI is non-negative |
| Indicators.DxBounded | DeepSeekMultiTimeFrame.py:122-126 | on valid bars a defined DX lies in [0,100] |
| Indicators.AdxBounded | DeepSeekMultiTimeFrame.py:127 | on valid bars a defined ADX lies in [0,100] |
| Indicators.AdxWarmup | OptimizedOne.py:73-81 | ADX is NaN until both the DI windows and the DX window are full (row 2·period−2), and whenever its window holds a NaN DX |
| Indicators.AdxWarmupEverywhere | OptimizedOne.py:73-81 | ADX is NaN on every row before 2·period−2 |
| Indicators.BandsProperties | AlphaVantageList.py:78-92 | upper ≥ middle ≥ lower for σ ≥ 0; for σ > 0, %B > 0.5 exactly when the close is above the middle band; %B is NaN when upper = lower |
| Indicators.BandsAt | AlphaVantageList.py:80-84 | the middle band is the given mean; the upper and lower bands are defined exactly when the mean and σ are, and lie k·σ above and below the middle |
| Indicators.RollingStd | AlphaVantageList.py:81 | the rolling σ is defined exactly from row window−1 on and is then the standard deviation of the last `window` closes |
| Indicators.Bollinger | AlphaVantageList.py:78-92 | the middle band is the rolling mean of the closes, and all three bands are defined exactly from row period−1 on |
| Indicators.StochKAt | AlphaVantageList.py:128-134 | %K is NaN before row k−1 and when the rolling high equals the rolling low |
| Indicators.StochKBounded | AlphaVantageList.py:128-134 | when low ≤ close ≤ high, a defined %K lies in [0,100] |
| Indicators.StochK | AlphaVantageList.py:128-134 | %K is NaN on every row before kPeriod−1 |
| Indicators.StochDBounded | AlphaVantageList.py:137 | on bars with closes in range, a defined %D lies in [0,100] |
| Indicators.StochD | AlphaVantageList.py:137 | %D is NaN on every row before kPeriod+dPeriod−2, the warm-up of %K plus that of its own mean; its value is given by Indicators.StochDMeaning |
| Indicators.StochDMeaning | AlphaVantageList.py:137 | %D on row i is defined exactly when the last dPeriod values of %K are all defined, and is then their mean |
| Indicators.StochDWarmup | AlphaVantageList.py:137 | the rolling mean of %K is NaN on every row before kPeriod+dPeriod−2 |
| Indicators.RelativeStrengthTelescopes | DeepSeekMultiTimeFrame.py:131-140 | with aligned positive closes, RS is NaN at row 0 and equals (S[t]/S[0])/(B[t]/B[0]) from row 1 |
| Indicators.ProductTelescopes | DeepSeekMultiTimeFrame.py:137-138 | the cumulative product of the daily growth ratios telescopes to the ratio of total returns |
| Indicators.CumProd | DeepSeekMultiTimeFrame.py:137-138 | the cumulative product is defined exactly where its factor is defined |
| Indicators.RelativeStrength | DeepSeekMultiTimeFrame.py:131-140 | RS is NaN on the first row (its daily return is NaN) and NaN everywhere when the two series are not aligned |
| Indicators.Telescope | DeepSeekMultiTimeFrame.py:137-138 | two consecutive growth ratios multiply to the ratio over both steps |
| Detectors.IsRising | DeepSeekMultiTimeFrame.py:88-99 | False below lookback+1 values; otherwise True exactly when each of the last lookback−1 steps strictly rises, with NaN failing; lookback 0 checks the whole column |
| Detectors.RisingMeansDefinedAndIncreasing | DeepSeekMultiTimeFrame.py:94-97 | a rising column has its last `lookback` values defined and pairwise increasing; a NaN among them makes it not rising |
| Detectors.LookbackOneOnlyChecksLength | AlphaVantageList.py:115-126 | with lookback 1 the check reduces to "at least two values" |
| Detectors.RisingFailsOnDip | DeepSeekMultiTimeFrame.py:88-99 | an entry among the last lookback values that does not exceed the one before it (also in the window) makes the rising check false, whatever the other entries are |
| Detectors.RisingExampleEarlierDropIgnored | DeepSeekMultiTimeFrame.py:90-97 | 10, 9, 11, 12 is rising over 3: the fall from 10 to 9, into the first of the last three values, is not looked at |
| Detectors.CrossAbove | AlphaVantageList.py:141-152 | False when either column has fewer than two rows; True exactly when %K > %D now and %K ≤ %D on the row before, NaN making it False |
| Detectors.SignalProperties | GoldenCrossover_Daily.py:83 | the signal holds exactly when fast > slow now and fast ≤ slow on the previous row, all defined; never on row 0; never on two consecutive rows |
| Detectors.NoSignalBeforeSlowWindow | GoldenCrossover_Daily.py:80-83 | a signal against a w-row rolling mean happens only from row w on |
| Detectors.CrossAboveIsLastSignal | SPList.py:46-57 | the stochastic cross test is the golden-cross signal at the last row |
| Detectors.GoldenSignal | GoldenCrossover_Daily.py:83 | the signal is never on row 0, never on two consecutive rows, and on row t means fast > slow on t and fast ≤ slow on t−1, all four values defined |
| Detectors.Tail | DeepSeekMultiTimeFrame.py:94-95 | `iloc[-n:]` is the whole column for n = 0 or n ≥ length, and otherwise its last n values in order |
| Detectors.TrendOf | DeepSeekMultiTimeFrame.py:266-274 | the arrow is up exactly when rising; down exactly when not rising, the latest value is below a previous value, and that previous value is truthy (non-zero); flat otherwise |
| Detectors.ColumnTrend | DeepSeekMultiTimeFrame.py:266-274 | up exactly when the column is rising; down only when not rising and the last value fell |
| Ranking.InsertDescProperties | DeepSeekMultiTimeFrame.py:334 | inserting into a descending list keeps it descending and adds exactly that element |
| Ranking.InsertDescPermutes | DeepSeekMultiTimeFrame.py:334 | insertion adds exactly the inserted element to the entries |
| Ranking.InsertDescSorted | DeepSeekMultiTimeFrame.py:334 | insertion into a descending list keeps it descending |
| Ranking.SortDescProperties | DeepSeekMultiTimeFrame.py:334 | the descending sort is a permutation and is non-increasing by the key |
| Ranking.InsertDescStable | DeepSeekMultiTimeFrame.py:334 | insertion places an element after the elements with an equal key |
| Ranking.SortDescStable | DeepSeekMultiTimeFrame.py:334 | elements with equal keys keep their input order (Python's sort is stable) |
| Ranking.SortAscProperties | SupportAndResistance.py:91 | the ascending sort is a permutation, non-decreasing by the key, and stable |
| Ranking.Rows | DeepSeekMultiTimeFrame.py:313-325 | the rows appended in the scan are no more than the tickers scanned |
| Ranking.RowsStep | DeepSeekMultiTimeFrame.py:313-315 | one ticker appends its row exactly when it qualifies |
| Ranking.RowsComplete | DeepSeekMultiTimeFrame.py:313-315 | every qualifying ticker's row is among the rows |
| Ranking.RowsSource | DeepSeekMultiTimeFrame.py:313-325 | every row comes from some qualifying ticker |
| Ranking.Names | DeepSeekMultiTimeFrame.py:335 | the ticker list has one entry per row, the row's ticker, in row order |
| Ranking.NamesAppend | DeepSeekMultiTimeFrame.py:314-315 | appending a row appends its ticker |
| Ranking.RankedTable | DeepSeekMultiTimeFrame.py:333-335 | the ranked rows are a permutation of the rows, non-increasing by the key, with every key's rows in their input order, and the ticker list follows the ranked rows |
| Timeframes.SpyAboveEma200 | DeepSeekMultiTimeFrame.py:142-158 | the gate is False without data or with fewer than 200 bars; with 200 bars or more it is True exactly when the last close is above the 200-EMA (LastEma is the final EMA value) |
| Timeframes.GateOpensOnNewHigh | AlphaVantageList.py:195-206 | 200+ bars ending on a strict new high open the gate |
| Timeframes.GateClosedOnNewLow | AlphaVantageList.py:195-206 | a history ending on a strict new low keeps the gate shut |
| Timeframes.HourlyTrendUp | DeepSeekMultiTimeFrame.py:192-214 | the hourly verdict is False without data or below 100 bars; with 100 bars or more it is True exactly when EMA50 > EMA200 at the last bar (LastEma is the final EMA value) |
| Timeframes.FlatPricesNoHourlyTrend | SPList.py:167-185 | flat prices never pass the hourly check |
| Timeframes.FlatPricesNoEmaChain | DeepSeekMultiTimeFrame.py:260 | flat prices never pass the close > EMA20 > EMA50 > EMA200 chain |
| Timeframes.VolumeTestMeaning | DeepSeekMultiTimeFrame.py:261 | from 20 bars on, the volume average is the mean of the last 20 volumes and the test holds exactly when the last volume exceeds it (VolumeMa20) |
| Timeframes.EmaChain | DeepSeekMultiTimeFrame.py:260 | the chain holding means the last close is above the 200-period EMA |
| Timeframes.VolumeAboveAverage | DeepSeekMultiTimeFrame.py:230-261 | the volume test fails below 20 bars, where the 20-bar average is NaN |
| Timeframes.Rsi14 | DeepSeekMultiTimeFrame.py:231 | the 14-period RSI is NaN on the first 13 rows |
| Timeframes.Adx14 | DeepSeekMultiTimeFrame.py:234 | the 14-period ADX is NaN on the first 26 rows |
| Timeframes.AtrPct14 | DeepSeekMultiTimeFrame.py:237-238 | ATR% is defined exactly from row 13 on where the close is non-zero |
| Timeframes.RsiCondition | DeepSeekMultiTimeFrame.py:244-247 | the RSI condition fails below 16 bars: the last three RSI values must be defined |
| Timeframes.RsiConditionMeaning | DeepSeekMultiTimeFrame.py:244-247 | a passing RSI condition means the last RSI is in (55,100] and the last three RSI values are defined and strictly increasing |
| Timeframes.StochCross | SPList.py:139-155 | the stochastic cross needs at least 17 bars: %K and %D defined on the last two rows (on StochK14 and StochD3) |
| DeepSeek.DailyConditions | DeepSeekMultiTimeFrame.py:160-190 | (False, 0, 0) without data or below 200 bars; otherwise the last close, the last RS, and ok exactly when EMA50 > EMA200 and RS > 1 |
| DeepSeek.DailyMeansOutperformed | DeepSeekMultiTimeFrame.py:175-186 | with aligned positive closes the daily verdict is EMA50 > EMA200 and the stock's total return beats SPY's |
| DeepSeek.IntradayConditions | DeepSeekMultiTimeFrame.py:216-281 | no snapshot exactly when the download failed or has fewer than 100 bars, and then the check fails; otherwise ok exactly when the five conditions hold, with the last bar's RSI, ADX, ATR%, close and trend arrows |
| DeepSeek.IntradayPassMeaning | DeepSeekMultiTimeFrame.py:244-264 | a pass means RSI in (55,100], ADX in (25,100], ATR% < 2, all three arrows up, and the last three RSI values strictly increasing (AllConditions on SnapshotOf) |
| DeepSeek.PassingConditions | DeepSeekMultiTimeFrame.py:223-264 | a pass means 100+ bars, the last bar's snapshot, and the RSI, ADX and volatility conditions all holding |
| DeepSeek.ConditionsMeaning | DeepSeekMultiTimeFrame.py:244-257 | the three conditions holding mean RSI in (55,100], ADX in (25,100], ATR% < 2, three rising arrows and the last three RSI values strictly increasing (AllConditions and VolatilityCondition, read on SnapshotOf) |
| DeepSeek.AdxConditionMeaning | DeepSeekMultiTimeFrame.py:249-252 | on valid bars a passing ADX condition means the last ADX is in (25,100] (AdxCondition) |
| DeepSeek.UndefinedIndicatorFails | DeepSeekMultiTimeFrame.py:245-255 | a NaN RSI, ADX or ATR% at the last bar fails the 15-minute check |
| DeepSeek.Qualifies | DeepSeekMultiTimeFrame.py:313 | a qualifying ticker has 200+ daily, 100+ hourly and 100+ fifteen-minute bars |
| DeepSeek.Checks | DeepSeekMultiTimeFrame.py:304-325 | one outcome per ticker, in scan order |
| DeepSeek.Qualifiers | DeepSeekMultiTimeFrame.py:313-325 | no more rows than tickers, each row reportable |
| DeepSeek.ChecksReportable | DeepSeekMultiTimeFrame.py:313-325 | every row kept from the outcomes is reportable |
| DeepSeek.ScanStep | DeepSeekMultiTimeFrame.py:308-325 | given the three verdicts of ticker i, the rows after it are the rows before it plus its row when all three verdicts hold, and unchanged otherwise |
| DeepSeek.QualifiersStep | DeepSeekMultiTimeFrame.py:308-325 | a ticker adds its row exactly when its daily, hourly and 15-minute verdicts all hold, every one evaluated |
| DeepSeek.QualifyingRowReportable | DeepSeekMultiTimeFrame.py:313-325 | a qualifying ticker's row shows RS > 1, RSI > 55, ADX > 25, ATR% < 2 and rising arrows |
| DeepSeek.QualifiersComplete | DeepSeekMultiTimeFrame.py:313-314 | every qualifying ticker has its row |
| DeepSeek.QualifiersSound | DeepSeekMultiTimeFrame.py:313-314 | every row belongs to a qualifying ticker and shows the reportable values |
| DeepSeek.QualifierSource | DeepSeekMultiTimeFrame.py:313-325 | every row is the row built from some qualifying ticker's daily and 15-minute results |
| DeepSeek.RankProperties | DeepSeekMultiTimeFrame.py:333-335 | the ranking is a permutation of the rows, non-increasing by daily RS, ties in scan order, and the ticker list follows the rows |
| DeepSeek.ScanFeeds | DeepSeekMultiTimeFrame.py:300-330 | the loop's rows are the qualifiers and its ticker list their tickers |
| DeepSeek.AnalyzeStocks | DeepSeekMultiTimeFrame.py:283-337 | a shut gate gives the empty result; otherwise the ranking of the qualifiers against SPY's daily closes |
| AlphaVantage.BollingerConditionMeaning | AlphaVantageList.py:260-262 | with σ > 0 over a full window, the Bollinger condition holds exactly when the close is above the 20-bar mean (BollingerCondition on Bands20) |
| AlphaVantage.IntradayConditions | AlphaVantageList.py:212-284 | False with no snapshot without data or below 100 bars; otherwise the conjunction of the seven conditions with the last bar's snapshot |
| AlphaVantage.IntradayPassMeaning | AlphaVantageList.py:252-272 | a pass means RSI in (55,100] and rising, ADX in (25,100], ATR% < 2, %B > 0.5, and %K above %D now after being at or below it on the previous bar (AllConditions on SnapshotOf) |
| AlphaVantage.RelativeStrengthMeaning | AlphaVantageList.py:246-250 | with aligned positive closes the reported RS is the ratio of total returns (the rs field of SnapshotOf) |
| AlphaVantage.Qualifies | AlphaVantageList.py:341 | a qualifying ticker has 100+ fifteen-minute and 100+ hourly bars |
| AlphaVantage.Checks | AlphaVantageList.py:332-354 | one outcome per ticker, in scan order |
| AlphaVantage.Qualifiers | AlphaVantageList.py:341-354 | no more rows than tickers, each row reportable |
| AlphaVantage.ChecksReportable | AlphaVantageList.py:341-354 | every row kept from the outcomes is reportable |
| AlphaVantage.ConditionsReportable | AlphaVantageList.py:252-272 | the seven conditions holding make the snapshot row show RSI > 55 and rising, ADX > 25, ATR% < 2, %B > 0.5 and %K > %D |
| AlphaVantage.ScanStep | AlphaVantageList.py:336-354 | given the two verdicts of ticker i, the rows after it are the rows before it plus its 15-minute snapshot row when both hold, and unchanged otherwise |
| AlphaVantage.QualifiersStep | AlphaVantageList.py:332-354 | a ticker adds its row exactly when its 15-minute and hourly checks pass |
| AlphaVantage.QualifyingRowReportable | AlphaVantageList.py:341-354 | a qualifying row shows the values the conditions demand |
| AlphaVantage.QualifiersComplete | AlphaVantageList.py:341-343 | every qualifying ticker has its row |
| AlphaVantage.QualifiersSound | AlphaVantageList.py:341-343 | every row belongs to a qualifying ticker |
| AlphaVantage.QualifierSource | AlphaVantageList.py:341-354 | every row is the row built from some qualifying ticker's 15-minute snapshot |
| AlphaVantage.RankProperties | AlphaVantageList.py:362-365 | the ranking is a permutation, non-increasing by RS, stable, with the ticker list in row order |
| AlphaVantage.ScanFeeds | AlphaVantageList.py:328-360 | the loop's rows are the qualifiers and its ticker list their tickers |
| AlphaVantage.AnalyzeStocks | AlphaVantageList.py:309-367 | empty when the gate is shut or the SPY 15-minute download failed; otherwise the ranking of the qualifiers |
| SPList.IntradayConditions | SPList.py:118-165 | False with no snapshot below 100 bars; otherwise the five-condition conjunction with the last bar's snapshot |
| SPList.IntradayPassMeaning | SPList.py:150-158 | a pass means RSI in (55,100], ADX in (25,100], and %K crossing above %D on the last bar (AllConditions on SnapshotOf) |
| SPList.RelativeStrengthMeaning | SPList.py:145-148 | with aligned positive closes the reported RS is the ratio of total returns (the rs field of SnapshotOf) |
| SPList.Qualifies | SPList.py:220 | a qualifying ticker has 100+ fifteen-minute and 100+ hourly bars |
| SPList.Checks | SPList.py:212-229 | one outcome per ticker, in scan order |
| SPList.Qualifiers | SPList.py:220-229 | no more rows than tickers, each row reportable |
| SPList.ChecksReportable | SPList.py:220-229 | every row kept from the outcomes is reportable |
| SPList.ConditionsReportable | SPList.py:150-161 | the five conditions holding make the snapshot row show RSI > 55, ADX > 25 and %K > %D |
| SPList.ScanStep | SPList.py:216-229 | ticker i extends the rows by its snapshot row exactly when its 15-minute and hourly checks hold |
| SPList.QualifiersStep | SPList.py:212-232 | a ticker adds its row exactly when its 15-minute and hourly checks pass |
| SPList.QualifyingRowReportable | SPList.py:220-230 | a qualifying row shows RSI > 55, ADX > 25 and %K > %D |
| SPList.QualifiersComplete | SPList.py:220-221 | every qualifying ticker has its row |
| SPList.QualifiersSound | SPList.py:220-221 | every row belongs to a qualifying ticker |
| SPList.QualifierSource | SPList.py:220-230 | every row is the row built from some qualifying ticker's 15-minute snapshot |
| SPList.RankProperties | SPList.py:236-239 | the ranking is a permutation, non-increasing by RS, stable, with the ticker list in row order |
| SPList.ScanFeeds | SPList.py:208-234 | the loop's rows are the qualifiers and its ticker list their tickers |
| SPList.AnalyzeStocks | SPList.py:191-241 | a shut gate gives the empty result; otherwise the ranking of the qualifiers |
| Optimized.RisingImpliesShiftRising | OptimizedOne.py:130 | the strict four-value rising check implies the single `shift(3)` comparison |
| Optimized.ShiftRisingIsWeaker | OptimizedOne.py:130 | 1, 3, 2, 4 passes `shift(3)` but is not strictly rising |
| Optimized.VolumeAverage | OptimizedOne.py:126 | the `min_periods=10` volume average is NaN exactly below 10 bars |
| Optimized.VolumeAverageFullWindow | OptimizedOne.py:126 | from 20 bars on it equals the full 20-bar rolling mean |
| Optimized.RelativeReturn | OptimizedOne.py:100-102 | RS is 0 when SPY's return is 0 and NaN when SPY's return is NaN |
| Optimized.StockReturn | OptimizedOne.py:100 | the stock return is defined exactly when the close 50 bars back is non-zero, and then times that close gives the last close |
| Optimized.SpyReturn | OptimizedOne.py:101 | SPY's return is defined exactly when SPY has more than 50 closes and the one 50 bars back is non-zero, and then times that close gives the last close |
| Optimized.RelativeStrengthMeaning | OptimizedOne.py:97-104 | with positive prices, RS > 1 exactly when the stock's 50-bar return beats SPY's (Outperforms applies this test to the daily closes) |
| Optimized.FirstFailingMeaning | OptimizedOne.py:86-140 | the chain stops at a check exactly when it fails and every earlier check passed; it runs through exactly when all pass |
| Optimized.FirstFailure | OptimizedOne.py:86-140 | `passes_filters` rejects at check f exactly when f is the first failing check, and passes exactly when all twelve checks hold (the checks SpyInUptrend, EmaTrendUp, Outperforms, VolumeSurges, RsiUp, AdxUp and AtrUp among them) |
| Optimized.ShortIntradayRejected | OptimizedOne.py:116-117 | fewer than 200 fifteen-minute bars reject the ticker |
| Optimized.DegenerateSpyRejected | OptimizedOne.py:101-104 | a SPY history of 50 closes or fewer, or a zero SPY return, fails the RS check and rejects the ticker |
| Optimized.RsiUpMeaning | OptimizedOne.py:129-131 | a passing RSI stage means RSI in (55,100] and above its value three bars earlier (RsiUp) |
| Optimized.AdxUpMeaning | OptimizedOne.py:132-134 | on valid bars a passing ADX stage means ADX in (25,100] and above its value three bars earlier (AdxUp) |
| Optimized.AllChecksMeaning | OptimizedOne.py:115-138 | all checks holding means 200+ fifteen-minute bars and passing RSI, ADX and ATR% stages (RsiUp, AdxUp and AtrUp) |
| Optimized.PassMeaning | OptimizedOne.py:86-140 | a ticker that passes has 200+ fifteen-minute bars and passing RSI, ADX and ATR% stages |
| Optimized.PassingComplete | OptimizedOne.py:154-162 | every complete, passing download's ticker is in the pass list |
| Optimized.PassingSound | OptimizedOne.py:154-162 | every listed ticker had complete downloads that passed |
| Optimized.PassingStep | OptimizedOne.py:159-162 | each download extends the pass list by its ticker exactly when it is accepted |
| Optimized.Passing | OptimizedOne.py:153-164 | no more tickers pass than were downloaded |
| Optimized.ScreenOne | OptimizedOne.py:155-162 | one loop step accepts a download exactly when it is complete and passes the filters |
| Optimized.Screen | OptimizedOne.py:145-164 | `main`'s pass list is the accepted tickers in input order |
| GoldenCrossDaily.SmaMeaning | GoldenCrossover_Daily.py:79-80 | the SMA is NaN until its window fills, then the mean of the last w closes |
| GoldenCrossDaily.Sma | GoldenCrossover_Daily.py:79-80 | the w-day SMA is defined exactly from row w−1 on |
| GoldenCrossDaily.Signal | GoldenCrossover_Daily.py:83 | no day before day 200 signals, and no two consecutive days do |
| GoldenCrossDaily.CrossTimes | GoldenCrossover_Daily.py:86-87 | every listed timestamp is after the cutoff, and there are no more of them than days scanned |
| GoldenCrossDaily.RecentCrosses | GoldenCrossover_Daily.py:83-87 | every recent cross is after the cutoff, and there are no more of them than days |
| GoldenCrossDaily.SignalMeaning | GoldenCrossover_Daily.py:83 | a day signals exactly when, from day 200 on, the 50-day mean is above the 200-day mean and was at most it the day before; never two days in a row |
| GoldenCrossDaily.CrossTimesMembers | GoldenCrossover_Daily.py:86-87 | a timestamp is listed exactly when a signalling day after the cutoff carries it |
| GoldenCrossDaily.CrossTimesIncreasing | GoldenCrossover_Daily.py:86-87 | on chronological bars the listed timestamps strictly increase |
| GoldenCrossDaily.RecentCrossesMeaning | GoldenCrossover_Daily.py:83-87 | the recent crosses are exactly the signal times after the cutoff, each from day 200 on, in increasing order |
| GoldenCrossDaily.ShortHistoryNoCross | GoldenCrossover_Daily.py:80-87 | 200 days or fewer never produce a cross |
| GoldenCrossDaily.ResultsStep | GoldenCrossover_Daily.py:74-93 | a download adds its row exactly when it has data and a recent cross |
| GoldenCrossDaily.Results | GoldenCrossover_Daily.py:89-93 | no more rows than downloads, and every row lists at least one cross |
| GoldenCrossDaily.ResultsComplete | GoldenCrossover_Daily.py:89-93 | every recorded ticker has its row with its recent crosses |
| GoldenCrossDaily.ResultsSound | GoldenCrossover_Daily.py:89-93 | every row belongs to a recorded ticker and lists its recent crosses |
| GoldenCrossDaily.Scan | GoldenCrossover_Daily.py:67-96 | the loop's results are the rows of the recorded tickers in order |
| GoldenCrossHourly.EmaLine | GoldenCrossover_1H.py:78-79 | the EMA columns are defined on every row and equal the `adjust=False` EMA |
| GoldenCrossHourly.SignalMeaning | GoldenCrossover_1H.py:82 | a bar signals exactly when it is not the first, EMA50 > EMA200 on it and EMA50 ≤ EMA200 on the bar before; never two bars in a row |
| GoldenCrossHourly.Signal | GoldenCrossover_1H.py:82 | the first bar never signals, and no two consecutive bars do |
| GoldenCrossHourly.FlatPricesNoSignal | GoldenCrossover_1H.py:78-82 | flat prices never signal |
| GoldenCrossHourly.LatestMeaning | GoldenCrossover_1H.py:89-98 | a latest cross exists exactly when a valid cross exists; it is valid and no valid cross is later |
| GoldenCrossHourly.Latest | GoldenCrossover_1H.py:93-98 | a cross found among the first n bars is one of them and is a valid cross |
| GoldenCrossHourly.LatestCross | GoldenCrossover_1H.py:85-98 | the latest cross, when there is one, is a signalling bar after the cutoff |
| GoldenCrossHourly.LatestIsLastRow | GoldenCrossover_1H.py:97-100 | on chronological bars no valid cross follows the latest one |
| GoldenCrossHourly.RowOf | GoldenCrossover_1H.py:97-107 | the recorded time and close are those of a signalling bar after the cutoff, with no valid cross later |
| GoldenCrossHourly.ResultsStep | GoldenCrossover_1H.py:73-107 | a download adds its row exactly when it has data and a valid cross |
| GoldenCrossHourly.Results | GoldenCrossover_1H.py:102-107 | no more rows than downloads, and every row's time is after the cutoff |
| GoldenCrossHourly.ResultsComplete | GoldenCrossover_1H.py:102-107 | every recorded ticker has its row |
| GoldenCrossHourly.ResultsSound | GoldenCrossover_1H.py:102-107 | every row belongs to a recorded ticker |
| GoldenCrossHourly.Scan | GoldenCrossover_1H.py:66-110 | the loop's results are the rows of the recorded tickers in order |
| SupportResistance.SortPrices | SupportAndResistance.py:56 | the sorted prices are an ascending permutation of the input |
| SupportResistance.Group | SupportAndResistance.py:58-70 | a non-empty input gives between 1 and n clusters, none empty |
| SupportResistance.GroupPartition | SupportAndResistance.py:58-70 | concatenating the clusters gives back the sorted input: each point is placed in exactly one cluster, in order |
| SupportResistance.FlattenExtend | SupportAndResistance.py:61-68 | one step of the loop, joining or starting a cluster, appends the price to the clustered prices laid end to end |
| SupportResistance.GroupSplits | SupportAndResistance.py:63-68 | a new cluster starts only where the point is outside the tolerance of the previous cluster's mean |
| SupportResistance.GroupMembers | SupportAndResistance.py:58-70 | every clustered point comes from the input |
| SupportResistance.GroupOrdered | SupportAndResistance.py:58-70 | on sorted input each cluster starts at its minimum and every point of a cluster is at most every point of the next |
| SupportResistance.ClustersPartition | SupportAndResistance.py:56-70 | the clusters partition the sorted input, a permutation of the prices |
| SupportResistance.LevelsWithinClusters | SupportAndResistance.py:72-73 | each level lies between its cluster's minimum and maximum |
| SupportResistance.LevelsIncreasing | SupportAndResistance.py:63-73 | with positive prices and tolerance ≥ 0, the levels strictly increase |
| SupportResistance.MeansIncrease | SupportAndResistance.py:63-73 | in ordered clusters of positive prices, split only where a price was out of tolerance, an earlier cluster's mean is below a later one's |
| SupportResistance.ClusterLevels | SupportAndResistance.py:50-73 | the loop returns exactly the cluster means |
| SupportResistance.GroupSorted | SupportAndResistance.py:58-70 | the finished clusters plus the current one, after the loop, are exactly the clusters of the sorted prices |
| SupportResistance.GroupStep | SupportAndResistance.py:61-68 | a price within tolerance of the current cluster's mean extends it; any other price closes it and starts a new one |
| SupportResistance.Joins | SupportAndResistance.py:63 | a price joins a cluster with a positive mean exactly when it lies within mean ± tol·mean; never when the mean is 0 (the division gives NaN or infinity) |
| SupportResistance.WithinRelative | SupportAndResistance.py:63 | for a positive mean m, \|p − m\|/m ≤ tol exactly when p lies in m ± tol·m |
| SupportResistance.Clusters | SupportAndResistance.py:58-70 | a non-empty input gives between 1 and n clusters, none empty |
| SupportResistance.Levels | SupportAndResistance.py:52-73 | no prices give no levels; n > 0 prices give between 1 and n levels |
| SupportResistance.TouchCountIsCardinality | SupportAndResistance.py:80-86 | the counter equals the number of bars whose high or low is within 1% of the level |
| SupportResistance.TouchCountPrefix | SupportAndResistance.py:80-86 | after the first n bars the counter equals the number of those bars touching the level |
| SupportResistance.Touches | SupportAndResistance.py:85 | a level of 0 is never touched; a positive level is touched exactly when the high or the low lies within level ± 1% |
| SupportResistance.TouchCount | SupportAndResistance.py:80-86 | the counter never exceeds the number of bars |
| SupportResistance.Kept | SupportAndResistance.py:79-89 | no more pairs than levels; each kept pair's touches are its level's touch count, reach the minimum and are at most the number of bars |
| SupportResistance.KeptMembers | SupportAndResistance.py:79-89 | a (level, touches) pair is kept exactly when the level is an input, the touches are its count and reach the minimum |
| SupportResistance.MajorLevelsMeaning | SupportAndResistance.py:75-91 | the major levels are exactly the kept pairs, sorted ascending by level, no more than the input levels, each with touches ≤ the number of bars |
| SupportResistance.FilterMajorLevels | SupportAndResistance.py:75-91 | the nested loop returns exactly the major levels |
| SupportResistance.IdentifyLevels | SupportAndResistance.py:93-106 | support and resistance are the major levels of the clustered swing lows and highs |
| SupportResistance.NearestSupport | SupportAndResistance.py:166 | None exactly when no level is below the price; otherwise the largest level strictly below it |
| SupportResistance.NearestResistance | SupportAndResistance.py:167 | None exactly when no level is above the price; otherwise the smallest level strictly above it |
| SupportResistance.ReportMeaning | SupportAndResistance.py:162-175 | support is below and resistance above the price; at a positive price the printed distances are positive, and at a positive price a resistance always has its distance |
| SupportResistance.DistancePositive | SupportAndResistance.py:168-174 | a level on the expected side of a positive price has a positive distance, and a resistance above a positive price is truthy so its distance is printed |
| SupportResistance.Distance | SupportAndResistance.py:168-174 | the distance is defined exactly when the level is present and non-zero (truthy) and the price non-zero; it is 100·(price − level)/price for a support and 100·(level − price)/price for a resistance |
| SupportResistance.AnalyzeStock | SupportAndResistance.py:137-175 | no analysis exactly when data is missing or shorter than 30 bars; otherwise the report over the major levels |

## Left out

- Market-data fetching (`yf.Ticker(...).history`, `yf.download`, and the Alpha Vantage HTTP and JSON parsing) is I/O. Each download is an input, of type `Fetch` or `seq<Bar>`.
- The ticker universes are hard-coded data, not logic. The scans take a sequence of downloads.
- `time.sleep` rate limiting, printing, trend-arrow glyphs, CSV export, date formatting and plotting are timing and presentation only.
- `find_local_extrema` delegates to scipy's `argrelextrema`, so the swing lows and highs are inputs to `SupportResistance.IdentifyLevels` and `SupportResistance.AnalyzeStock`.
- The Bollinger standard deviation needs a square root, so it is given as a function `stdDev` applied to each full window.
- The machine-learning and backtesting scripts are not part of this model.
- Floating-point rounding is not modelled. A division by a zero denominator gives NaN, where pandas gives ±infinity for a non-zero numerator. The RSI infinity case (zero loss, positive gain → 100) is kept. Prices are positive in practice, so this matters only on degenerate data.
- Timestamp and timezone alignment between a stock and SPY is not modelled. pandas aligns the two series on their timestamps before dividing; the model instead computes relative strength on equal-length series assumed to share rows, and gives an undefined RS for series of different lengths.
- Exceptions are not modelled as exceptions. Each exception handler's return value is modelled as a failed download (`None`) or a False verdict.
- `df.loc[latest_dt, "Close"]` with a duplicated timestamp returns several rows in pandas. `GoldenCrossHourly.Latest` takes the earliest row holding the latest time.
- AlphaVantage.RsKey: `relative_strength` is NaN for a stock whose closes are not aligned with SPY's. Python's sort on NaN keys has no defined order, so the model ranks such rows with key 0.
- SPList.RsKey: ranks an undefined relative strength as 0, for the same reason.
- DeepSeek.DailyConditions: the short-history result `(False, 0, 0)` is modelled with RS `Some(0.0)`. A qualifying ticker always has a defined RS.
- Optimized.Screen: requires a non-empty SPY history. With none, the script fails on `iloc[-1]` before its loop, and that failure is not modelled.
- SupportResistance.ReportMeaning: states positive distances only for a positive current price. A zero price would divide by zero in the script.
- SPList.IntradayConditions: takes the bars directly, because the SPList download returns an empty frame rather than None. An empty frame fails the 100-bar guard.
- DeepSeek.AnalyzeStocks: the gate-closed return is `[]`, not a pair, which the script's own caller would fail to unpack. It is modelled as the distinct outcome `GateClosed`.
- AlphaVantage.AnalyzeStocks: both early returns are `[]`, not a pair: the shut gate (AlphaVantageList.py:318) and the failed SPY 15-minute download (AlphaVantageList.py:326). `main` would fail to unpack them (AlphaVantageList.py:385). Both are modelled as the distinct outcome `Aborted`.
- SPList.AnalyzeStocks: the gate-closed return is `[]` (SPList.py:200), not a pair, which `main` would fail to unpack (SPList.py:256). It is modelled as the distinct outcome `GateClosed`.
