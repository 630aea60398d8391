/**
 * Boolean detectors over the newest points of an indicator column: the "rising"
 * check, the %K-crosses-above-%D check, the golden-cross signal column and the
 * trend arrow shown next to an indicator.
 */
module Detectors {
  import opened Numeric

  /** The last `n` entries, as pandas `iloc[-n:]`; `iloc[-0:]` is the whole series. */
  function Tail<T>(xs: seq<T>, n: nat): (r: seq<T>)
    ensures n == 0 || n >= |xs| ==> r == xs
    ensures 0 < n <= |xs| ==> |r| == n && forall k :: 0 <= k < n ==> r[k] == xs[|xs| - n + k]
  {
    if n == 0 || n >= |xs| then xs else xs[|xs| - n..]
  }

  /** Each entry is defined and above the one before it (NaN compares false). */
  predicate StrictlyIncreasing(w: Column)
  {
    forall k :: 0 < k < |w| ==> Gt(w[k], w[k - 1])
  }

  /**
   * `is_indicator_rising` / `is_rsi_rising`: False when the column has fewer than
   * lookback + 1 entries; otherwise whether its last `lookback` entries strictly
   * increase.  Only `lookback` entries (lookback - 1 comparisons) are examined.
   */
  function IsRising(xs: Column, lookback: nat): (r: bool)
    ensures |xs| < lookback + 1 ==> !r
    ensures |xs| >= lookback + 1 && lookback > 0 ==>
      (r <==> forall k :: |xs| - lookback < k < |xs| ==> Gt(xs[k], xs[k - 1]))
    ensures |xs| >= 1 && lookback == 0 ==>
      (r <==> forall k :: 0 < k < |xs| ==> Gt(xs[k], xs[k - 1]))
  {
    if |xs| < lookback + 1 then false
    else
      var w := Tail(xs, lookback);
      assert lookback > 0 ==> forall k :: 0 <= k < lookback ==> w[k] == xs[|xs| - lookback + k];
      StrictlyIncreasing(w)
  }

  /**
   * With a lookback of at least 2, a rising column has its last `lookback` entries
   * defined and their values strictly increasing; one undefined entry among them
   * makes the check fail.
   */
  lemma RisingMeansDefinedAndIncreasing(xs: Column, lookback: nat)
    requires lookback >= 2
    ensures IsRising(xs, lookback) ==>
      forall k :: |xs| - lookback <= k < |xs| ==> xs[k].Some?
    ensures IsRising(xs, lookback) ==>
      forall j, k :: |xs| - lookback <= j < k < |xs| ==> xs[j].value < xs[k].value
    ensures (exists k :: |xs| - lookback <= k < |xs| && k >= 0 && xs[k].None?) ==> !IsRising(xs, lookback)
  {
    if IsRising(xs, lookback) {
      var lo := |xs| - lookback;
      forall k | lo <= k < |xs| ensures xs[k].Some? {
        if k == lo {
          assert Gt(xs[k + 1], xs[k]);
        } else {
          assert Gt(xs[k], xs[k - 1]);
        }
      }
      forall j, k | lo <= j < k < |xs| ensures xs[j].value < xs[k].value {
        IncreasingChain(xs, lo, j, k);
      }
    }
  }

  lemma {:induction false} IncreasingChain(xs: Column, lo: int, j: int, k: int)
    requires 0 <= lo <= j < k < |xs|
    requires forall m :: lo < m < |xs| ==> Gt(xs[m], xs[m - 1])
    ensures xs[j].Some? && xs[k].Some? && xs[j].value < xs[k].value
  {
    assert Gt(xs[k], xs[k - 1]);
    if k > j + 1 {
      IncreasingChain(xs, lo, j, k - 1);
    }
  }

  /**
   * A lookback of 1 examines a single entry and makes no comparison: the check then
   * holds for every column of at least two entries, even an undefined one.
   */
  lemma LookbackOneOnlyChecksLength(xs: Column)
    ensures IsRising(xs, 1) <==> |xs| >= 2
  {
  }

  /**
   * One entry among the last `lookback` that does not exceed its predecessor (also in
   * that window) makes the check fail, whatever the other entries are.
   */
  lemma RisingFailsOnDip(xs: Column, lookback: nat, j: int)
    requires |xs| - lookback < j < |xs| && j >= 1
    requires !Gt(xs[j], xs[j - 1])
    ensures !IsRising(xs, lookback)
  {
    if |xs| >= lookback + 1 && lookback > 0 {
      assert |xs| - lookback < j < |xs| && !Gt(xs[j], xs[j - 1]);
    }
  }

  /** Only the last three values count: [10, 9, 11, 12] passes despite the earlier drop. */
  lemma RisingExampleEarlierDropIgnored()
    ensures IsRising([Some(10.0), Some(9.0), Some(11.0), Some(12.0)], 3)
  {
  }

  /**
   * `check_stochastic_cross`: False when either line has fewer than two entries;
   * otherwise %K is above %D now and was at or below it one row earlier.
   */
  function CrossAbove(k: Column, d: Column): (r: bool)
    ensures |k| < 2 || |d| < 2 ==> !r
    ensures r ==> k[|k| - 1].Some? && d[|d| - 1].Some? && k[|k| - 1].value > d[|d| - 1].value
    ensures r ==> k[|k| - 2].Some? && d[|d| - 2].Some? && k[|k| - 2].value <= d[|d| - 2].value
    ensures |k| >= 2 && |d| >= 2 && Gt(k[|k| - 1], d[|d| - 1]) && Le(k[|k| - 2], d[|d| - 2]) ==> r
  {
    if |k| < 2 || |d| < 2 then false
    else Gt(k[|k| - 1], d[|d| - 1]) && Le(k[|k| - 2], d[|d| - 2])
  }

  /**
   * The golden-cross signal column `(fast > slow) & (fast.shift(1) <= slow.shift(1))`:
   * the shifted values of row 0 are NaN, so row 0 never signals.
   */
  function GoldenSignal(fast: Column, slow: Column): (s: seq<bool>)
    requires |fast| == |slow|
    ensures |s| == |fast|
    ensures |fast| > 0 ==> !s[0]
    ensures forall t :: 0 < t < |fast| ==> !(s[t - 1] && s[t])
    ensures forall t :: 0 <= t < |fast| && s[t] ==>
      t > 0 && fast[t].Some? && slow[t].Some? && fast[t].value > slow[t].value &&
      fast[t - 1].Some? && slow[t - 1].Some? && fast[t - 1].value <= slow[t - 1].value
  {
    seq(|fast|, t requires 0 <= t < |fast| =>
      t > 0 && Gt(fast[t], slow[t]) && Le(fast[t - 1], slow[t - 1]))
  }

  /**
   * A signal needs the fast line defined and above the slow one on its row and both
   * defined with fast <= slow on the row before; so row 0 never signals and no two
   * consecutive rows both signal.
   */
  lemma SignalProperties(fast: Column, slow: Column, t: nat)
    requires |fast| == |slow| && t < |fast|
    ensures GoldenSignal(fast, slow)[t] <==>
      t > 0 && fast[t].Some? && slow[t].Some? && fast[t].value > slow[t].value &&
      fast[t - 1].Some? && slow[t - 1].Some? && fast[t - 1].value <= slow[t - 1].value
    ensures t + 1 < |fast| ==> !(GoldenSignal(fast, slow)[t] && GoldenSignal(fast, slow)[t + 1])
  {
  }

  /**
   * A slow line that is a rolling mean over `w` rows is undefined before row w - 1, so
   * no signal can occur before row w.
   */
  lemma NoSignalBeforeSlowWindow(fast: Column, xs: Column, w: nat, t: nat)
    requires 0 < w && |fast| == |xs| && t < |xs|
    requires GoldenSignal(fast, RollingMean(xs, w))[t]
    ensures t >= w
  {
  }

  /** The stochastic cross is the golden-cross signal of %K over %D at the last row. */
  lemma CrossAboveIsLastSignal(k: Column, d: Column)
    requires |k| == |d| >= 2
    ensures CrossAbove(k, d) == GoldenSignal(k, d)[|k| - 1]
  {
  }

  /** The arrow shown next to an indicator. */
  datatype Trend = Rising | Falling | Flat

  /**
   * "up" if the rising check held; otherwise "down" when the previous value is truthy
   * (non-zero; NaN is truthy in Python) and the latest is below it; otherwise "flat".
   */
  function TrendOf(rising: bool, prev: Option<real>, latest: Option<real>): (r: Trend)
    ensures r == Rising <==> rising
    ensures r == Falling <==> !rising && Lt(latest, prev) && prev.value != 0.0
    ensures r == Flat <==> !rising && !(Lt(latest, prev) && prev.value != 0.0)
  {
    if rising then Rising
    else if Lt(latest, prev) && prev.value != 0.0 then Falling
    else Flat
  }

  /** The trend arrow of a column, from its rising check and its last two entries. */
  function ColumnTrend(xs: Column, lookback: nat): (r: Trend)
    requires |xs| >= 2
    ensures r == Falling ==> !IsRising(xs, lookback) && Lt(xs[|xs| - 1], xs[|xs| - 2])
    ensures r == Rising <==> IsRising(xs, lookback)
  {
    TrendOf(IsRising(xs, lookback), xs[|xs| - 2], xs[|xs| - 1])
  }
}
