/**
 * Scalar and column helpers shared by every screener.
 *
 * A pandas float column is modelled as `Column`, a sequence of optional reals in
 * which `None` stands for NaN.  Comparisons follow Python's float semantics: any
 * comparison that touches NaN is false.  Arithmetic is exact (no IEEE rounding).
 */
module Numeric {

  datatype Option<+T> = None | Some(value: T)

  /** A float column of a data frame; `None` is NaN. */
  type Column = seq<Option<real>>

  function Abs(x: real): real { if x < 0.0 then -x else x }

  function Max(a: real, b: real): real { if a >= b then a else b }

  // Comparisons as Python evaluates them on floats: NaN on either side gives false.

  predicate Gt(a: Option<real>, b: Option<real>) { a.Some? && b.Some? && a.value > b.value }

  predicate Lt(a: Option<real>, b: Option<real>) { a.Some? && b.Some? && a.value < b.value }

  predicate Le(a: Option<real>, b: Option<real>) { a.Some? && b.Some? && a.value <= b.value }

  // Element-wise arithmetic of two columns at one row: NaN propagates.

  function Add(a: Option<real>, b: Option<real>): Option<real>
  {
    if a.Some? && b.Some? then Some(a.value + b.value) else None
  }

  function Sub(a: Option<real>, b: Option<real>): Option<real>
  {
    if a.Some? && b.Some? then Some(a.value - b.value) else None
  }

  function Scale(k: real, a: Option<real>): Option<real>
  {
    if a.Some? then Some(k * a.value) else None
  }

  /** Division; a NaN operand or a zero divisor gives NaN. */
  function Div(a: Option<real>, b: Option<real>): (r: Option<real>)
    ensures r.Some? <==> a.Some? && b.Some? && b.value != 0.0
    ensures r.Some? ==> r.value * b.value == a.value
  {
    if a.Some? && b.Some? && b.value != 0.0 then Some(a.value / b.value) else None
  }

  /** A column with no NaN, built from raw values. */
  function Lift(xs: seq<real>): Column
  {
    seq(|xs|, i requires 0 <= i < |xs| => Some(xs[i]))
  }

  predicate AllDefined(w: Column)
  {
    forall i :: 0 <= i < |w| ==> w[i].Some?
  }

  function Values(w: Column): seq<real>
    requires AllDefined(w)
  {
    seq(|w|, i requires 0 <= i < |w| => w[i].value)
  }

  function Sum(xs: seq<real>): real
  {
    if xs == [] then 0.0 else Sum(xs[..|xs| - 1]) + xs[|xs| - 1]
  }

  function Mean(xs: seq<real>): real
    requires |xs| > 0
  {
    Sum(xs) / (|xs| as real)
  }

  /** A sum of values no smaller than `lo` is at least `n * lo`. */
  lemma {:induction false} SumAtLeast(xs: seq<real>, lo: real)
    requires forall i :: 0 <= i < |xs| ==> lo <= xs[i]
    ensures (|xs| as real) * lo <= Sum(xs)
  {
    if xs != [] {
      var n := |xs|;
      SumAtLeast(xs[..n - 1], lo);
      assert (n as real) * lo == ((n - 1) as real) * lo + lo;
    }
  }

  /** A sum of values no larger than `hi` is at most `n * hi`. */
  lemma {:induction false} SumAtMost(xs: seq<real>, hi: real)
    requires forall i :: 0 <= i < |xs| ==> xs[i] <= hi
    ensures Sum(xs) <= (|xs| as real) * hi
  {
    if xs != [] {
      var n := |xs|;
      SumAtMost(xs[..n - 1], hi);
      assert (n as real) * hi == ((n - 1) as real) * hi + hi;
    }
  }

  /** The mean of values in [lo, hi] lies in [lo, hi]. */
  lemma MeanBounds(xs: seq<real>, lo: real, hi: real)
    requires |xs| > 0
    requires forall i :: 0 <= i < |xs| ==> lo <= xs[i] <= hi
    ensures lo <= Mean(xs) <= hi
  {
    SumAtLeast(xs, lo);
    SumAtMost(xs, hi);
  }

  /** A sum of non-negative values with one positive value is positive. */
  lemma {:induction false} SumPositive(xs: seq<real>, k: nat)
    requires k < |xs| && xs[k] > 0.0
    requires forall i :: 0 <= i < |xs| ==> xs[i] >= 0.0
    ensures Sum(xs) > 0.0
  {
    var n := |xs|;
    SumAtLeast(xs[..n - 1], 0.0);
    if k < n - 1 {
      SumPositive(xs[..n - 1], k);
    }
  }

  /** The window of `w` rows ending at row `i`, as pandas `rolling` sees it. */
  function Window<T>(xs: seq<T>, w: nat, i: nat): seq<T>
    requires 0 < w <= i + 1 <= |xs|
  {
    xs[i + 1 - w .. i + 1]
  }

  /**
   * pandas `rolling(window=w).mean()` at row `i`: NaN until the window is full and
   * whenever a NaN lies inside the window (the default `min_periods` equals `w`).
   */
  function MeanAt(xs: Column, w: nat, i: nat): Option<real>
    requires 0 < w && i < |xs|
  {
    if i + 1 < w then None
    else
      var win := Window(xs, w, i);
      if AllDefined(win) then Some(Mean(Values(win))) else None
  }

  /** The window ending at row `i` is full and free of NaN exactly when the mean there is defined. */
  lemma MeanAtDefined(xs: Column, w: nat, i: nat)
    requires 0 < w && i < |xs|
    ensures MeanAt(xs, w, i).Some? <==> i + 1 >= w && forall j :: i + 1 - w <= j <= i ==> xs[j].Some?
  {
    if i + 1 >= w {
      var win := Window(xs, w, i);
      forall j | i + 1 - w <= j <= i ensures win[j - (i + 1 - w)] == xs[j] {
      }
      forall k | 0 <= k < |win| ensures win[k] == xs[i + 1 - w + k] {
      }
    }
  }

  lemma MeanAtDefinedEverywhere(xs: Column, w: nat)
    requires 0 < w
    ensures forall i :: 0 <= i < |xs| ==>
      (MeanAt(xs, w, i).Some? <==> i + 1 >= w && forall j :: i + 1 - w <= j <= i ==> xs[j].Some?)
  {
    forall i | 0 <= i < |xs| {
      MeanAtDefined(xs, w, i);
    }
  }

  /**
   * pandas `rolling(window=w).mean()`: one value per row, defined exactly when the
   * window ending at that row is full and holds no NaN.
   */
  function RollingMean(xs: Column, w: nat): (r: Column)
    requires 0 < w
    ensures |r| == |xs|
    ensures forall i :: 0 <= i < |xs| ==>
      (r[i].Some? <==> i + 1 >= w && forall j :: i + 1 - w <= j <= i ==> xs[j].Some?)
  {
    MeanAtDefinedEverywhere(xs, w);
    seq(|xs|, i requires 0 <= i < |xs| => MeanAt(xs, w, i))
  }

  /** A defined rolling mean of values no smaller than `lo` is at least `lo`. */
  lemma RollingMeanAtLeast(xs: Column, w: nat, i: nat, lo: real)
    requires 0 < w && i < |xs|
    requires forall j :: 0 <= j < |xs| && xs[j].Some? ==> lo <= xs[j].value
    requires RollingMean(xs, w)[i].Some?
    ensures lo <= RollingMean(xs, w)[i].value
  {
    var win := Window(xs, w, i);
    var vs := Values(win);
    forall k | 0 <= k < |vs| ensures lo <= vs[k] {
      assert win[k] == xs[i + 1 - w + k];
    }
    SumAtLeast(vs, lo);
  }

  /** A defined rolling mean of values in [lo, hi] lies in [lo, hi]. */
  lemma RollingMeanBounds(xs: Column, w: nat, i: nat, lo: real, hi: real)
    requires 0 < w && i < |xs|
    requires forall j :: 0 <= j < |xs| && xs[j].Some? ==> lo <= xs[j].value <= hi
    requires RollingMean(xs, w)[i].Some?
    ensures lo <= RollingMean(xs, w)[i].value <= hi
  {
    var win := Window(xs, w, i);
    var vs := Values(win);
    forall k | 0 <= k < |vs| ensures lo <= vs[k] <= hi {
      assert win[k] == xs[i + 1 - w + k];
    }
    MeanBounds(vs, lo, hi);
  }

  /** The values of a window of a lifted series are that window of the raw series. */
  lemma LiftWindow(xs: seq<real>, w: nat, i: nat)
    requires 0 < w <= i + 1 <= |xs|
    ensures AllDefined(Window(Lift(xs), w, i))
    ensures Values(Window(Lift(xs), w, i)) == Window(xs, w, i)
  {
    var win := Window(Lift(xs), w, i);
    forall k | 0 <= k < w ensures win[k] == Some(xs[i + 1 - w + k]) {
    }
  }

  lemma MulNonNegative(x: real, y: real)
    requires x >= 0.0 && y >= 0.0
    ensures x * y >= 0.0
  {
  }

  lemma MulPositive(x: real, y: real)
    requires x > 0.0 && y > 0.0
    ensures x * y > 0.0
  {
  }

  /** A ratio of a non-negative numerator to a larger positive denominator lies in [0, 1]. */
  lemma RatioInUnit(n: real, d: real)
    requires 0.0 <= n <= d && d > 0.0
    ensures 0.0 <= n / d <= 1.0
  {
    var q := n / d;
    assert q * d == n;
    if q > 1.0 {
      MulPositive(q - 1.0, d);
    }
    if q < 0.0 {
      MulPositive(-q, d);
    }
  }

  lemma RatioNonNegative(n: real, d: real)
    requires n >= 0.0 && d > 0.0
    ensures n / d >= 0.0
  {
    assert (n / d) * d == n;
  }

  /** A convex combination of two values of [lo, hi] stays in [lo, hi]. */
  lemma ConvexWithin(a: real, x: real, e: real, lo: real, hi: real)
    requires 0.0 <= a <= 1.0
    requires lo <= x <= hi && lo <= e <= hi
    ensures lo <= a * x + (1.0 - a) * e <= hi
  {
    MulNonNegative(a, x - lo);
    MulNonNegative(1.0 - a, e - lo);
    MulNonNegative(a, hi - x);
    MulNonNegative(1.0 - a, hi - e);
  }

  /** A convex combination of two values below `x` is below `x`. */
  lemma ConvexStrictlyBelow(a: real, y: real, e: real, x: real)
    requires 0.0 <= a <= 1.0 && y < x && e < x
    ensures a * y + (1.0 - a) * e < x
  {
    var b := 1.0 - a;
    var u, v := x - y, x - e;
    MulNonNegative(a, u);
    MulNonNegative(b, v);
    assert a * u == a * x - a * y;
    assert b * v == b * x - b * e;
    assert a * x + b * x == x;
    if a > 0.0 {
      MulPositive(a, u);
      assert a * u + b * v > 0.0;
    } else {
      MulPositive(b, v);
      assert a * u + b * v > 0.0;
    }
    assert a * y + b * e < x;
  }

  /** Giving weight below 1 to an older value below `x` ends strictly below `x`. */
  lemma ConvexBelow(a: real, x: real, e: real)
    requires a < 1.0 && e < x
    ensures a * x + (1.0 - a) * e < x
  {
    var b := 1.0 - a;
    MulPositive(b, x - e);
    assert b * (x - e) == b * x - b * e;
    assert a * x + b * x == x;
    assert a * x + b * e < x;
  }

  function MinOf(xs: seq<real>): (r: real)
    requires |xs| > 0
    ensures forall i :: 0 <= i < |xs| ==> r <= xs[i]
    ensures exists i :: 0 <= i < |xs| && r == xs[i]
  {
    if |xs| == 1 then xs[0]
    else
      var m := MinOf(xs[..|xs| - 1]);
      assert forall i :: 0 <= i < |xs| - 1 ==> xs[..|xs| - 1][i] == xs[i];
      if xs[|xs| - 1] < m then xs[|xs| - 1] else m
  }

  function MaxOf(xs: seq<real>): (r: real)
    requires |xs| > 0
    ensures forall i :: 0 <= i < |xs| ==> xs[i] <= r
    ensures exists i :: 0 <= i < |xs| && r == xs[i]
  {
    if |xs| == 1 then xs[0]
    else
      var m := MaxOf(xs[..|xs| - 1]);
      assert forall i :: 0 <= i < |xs| - 1 ==> xs[..|xs| - 1][i] == xs[i];
      if xs[|xs| - 1] > m then xs[|xs| - 1] else m
  }
}
