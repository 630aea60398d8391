/**
 * Support and resistance levels: swing prices are sorted and greedily clustered into
 * levels (a price joins the current cluster when it lies within a tolerance of the
 * cluster's mean), levels touched by at least three bars are kept, and the nearest
 * level below and above the latest close are reported.
 */
module SupportResistance {
  import opened Numeric
  import opened Bars
  import opened Ranking

  /** `analyze_stock` needs at least this many bars. */
  const MinBars: nat := 30

  /** `SUPPORT_RESISTANCE_TOLERANCE`: the relative distance within which prices cluster. */
  const Tolerance: real := 0.02

  /** A bar touches a level when its high or low lies within this relative distance. */
  const TouchBand: real := 0.01

  /** `filter_major_levels`' default `min_touches`. */
  const MinTouches: nat := 3

  // ---------------------------------------------------------------------------
  // cluster_levels
  // ---------------------------------------------------------------------------

  /** The sort key of a plain price. */
  function Price(x: real): real { x }

  /** `sorted(price_points)`: an ascending permutation of the prices. */
  function SortPrices(xs: seq<real>): (s: seq<real>)
    ensures |s| == |xs| && multiset(s) == multiset(xs)
    ensures SortedAsc(s, Price)
  {
    SortAscProperties(xs, Price, 0.0);
    SortAsc(xs, Price)
  }

  /**
   * `abs(price - mean) / mean <= tolerance`; a zero mean divides to infinity or NaN,
   * both of which fail the comparison.
   */
  function Joins(p: real, cluster: seq<real>, tol: real): (r: bool)
    requires |cluster| > 0
    ensures Mean(cluster) == 0.0 ==> !r
    ensures Mean(cluster) > 0.0 ==>
      (r <==> Mean(cluster) - tol * Mean(cluster) <= p <= Mean(cluster) + tol * Mean(cluster))
  {
    var m := Mean(cluster);
    WithinRelative(p, m, tol);
    m != 0.0 && Abs(p - m) / m <= tol
  }

  /** For a positive reference `m`, `|p - m| / m <= tol` says that `p` lies in the band m ± tol * m. */
  lemma WithinRelative(p: real, m: real, tol: real)
    ensures m > 0.0 ==> (Abs(p - m) / m <= tol <==> m - tol * m <= p <= m + tol * m)
  {
    if m > 0.0 {
      var q, d, t := Abs(p - m) / m, Abs(p - m), tol * m;
      assert q * m == d;
      assert d <= t <==> m - t <= p <= m + t;
      if q <= tol {
        MulNonNegative(tol - q, m);
        assert (tol - q) * m == t - d;
      } else {
        MulPositive(q - tol, m);
        assert (q - tol) * m == d - t;
      }
    }
  }

  /**
   * One step of the clustering loop: price `p` joins the last cluster when it is within
   * tolerance of that cluster's mean, otherwise it starts a new cluster.
   */
  function Extend(gs: seq<seq<real>>, p: real, tol: real): (next: seq<seq<real>>)
    requires |gs| > 0 && |gs[|gs| - 1]| > 0
  {
    var cur := gs[|gs| - 1];
    if Joins(p, cur, tol) then gs[..|gs| - 1] + [cur + [p]] else gs + [[p]]
  }

  /**
   * The clusters built by the loop over the sorted prices `xs`: each price joins the
   * last cluster when it is within tolerance of that cluster's mean, otherwise it
   * starts a new one.
   */
  function Group(xs: seq<real>, tol: real): (gs: seq<seq<real>>)
    requires |xs| > 0
    ensures 0 < |gs| <= |xs|
    ensures forall k :: 0 <= k < |gs| ==> |gs[k]| > 0
  {
    if |xs| == 1 then [[xs[0]]]
    else Extend(Group(xs[..|xs| - 1], tol), xs[|xs| - 1], tol)
  }

  /** The clusters laid end to end. */
  function Flatten(gs: seq<seq<real>>): seq<real>
  {
    if gs == [] then [] else Flatten(gs[..|gs| - 1]) + gs[|gs| - 1]
  }

  /** Appending a cluster appends its prices. */
  lemma FlattenSnoc(gs: seq<seq<real>>, c: seq<real>)
    ensures Flatten(gs + [c]) == Flatten(gs) + c
  {
    assert (gs + [c])[..|gs|] == gs;
  }

  /** One step of the loop appends the price to the prices laid end to end. */
  lemma FlattenExtend(gs: seq<seq<real>>, p: real, tol: real)
    requires |gs| > 0 && |gs[|gs| - 1]| > 0
    ensures Flatten(Extend(gs, p, tol)) == Flatten(gs) + [p]
  {
    var init, cur := gs[..|gs| - 1], gs[|gs| - 1];
    assert gs == init + [cur];
    FlattenSnoc(init, cur);
    if Joins(p, cur, tol) {
      FlattenSnoc(init, cur + [p]);
      assert Flatten(init) + (cur + [p]) == (Flatten(init) + cur) + [p];
    } else {
      FlattenSnoc(gs, [p]);
    }
  }

  /** Every price lands in exactly one cluster: the clusters laid end to end give back `xs`. */
  lemma {:induction false} GroupPartition(xs: seq<real>, tol: real)
    requires |xs| > 0
    ensures Flatten(Group(xs, tol)) == xs
  {
    if |xs| > 1 {
      var pre, p := xs[..|xs| - 1], xs[|xs| - 1];
      GroupPartition(pre, tol);
      FlattenExtend(Group(pre, tol), p, tol);
      assert xs == pre + [p];
    }
  }

  /** Every cluster holds at least one price. */
  predicate NonEmpty(gs: seq<seq<real>>)
  {
    forall k :: 0 <= k < |gs| ==> |gs[k]| > 0
  }

  /** Each cluster after the first starts with a price that was not within tolerance of the one before. */
  predicate SplitWhereFar(gs: seq<seq<real>>, tol: real)
    requires NonEmpty(gs)
  {
    forall k :: 0 <= k < |gs| - 1 ==> !Joins(gs[k + 1][0], gs[k], tol)
  }

  /** A new cluster starts only where the price was not within tolerance of the previous one. */
  lemma {:induction false} GroupSplits(xs: seq<real>, tol: real)
    requires |xs| > 0
    ensures SplitWhereFar(Group(xs, tol), tol)
  {
    if |xs| > 1 {
      var pre := xs[..|xs| - 1];
      GroupSplits(pre, tol);
      var gs := Group(pre, tol);
      var cur := gs[|gs| - 1];
      var p := xs[|xs| - 1];
      var next := Group(xs, tol);
      if Joins(p, cur, tol) {
        assert next == gs[..|gs| - 1] + [cur + [p]];
        forall k | 0 <= k < |next| - 1 ensures !Joins(next[k + 1][0], next[k], tol) {
          assert next[k] == gs[k] && next[k + 1][0] == gs[k + 1][0];
        }
      } else {
        assert next == gs + [[p]];
        forall k | 0 <= k < |next| - 1 ensures !Joins(next[k + 1][0], next[k], tol) {
          if k < |gs| - 1 {
            assert next[k] == gs[k] && next[k + 1] == gs[k + 1];
          } else {
            assert next[k] == cur && next[k + 1] == [p];
          }
        }
      }
    }
  }

  /** Every clustered price is one of `xs`. */
  predicate DrawnFrom(gs: seq<seq<real>>, xs: seq<real>)
  {
    forall k, a :: 0 <= k < |gs| && 0 <= a < |gs[k]| ==> gs[k][a] in xs
  }

  /** Every clustered price comes from the input. */
  lemma {:induction false} GroupMembers(xs: seq<real>, tol: real)
    requires |xs| > 0
    ensures DrawnFrom(Group(xs, tol), xs)
  {
    if |xs| > 1 {
      var pre := xs[..|xs| - 1];
      GroupMembers(pre, tol);
      var gs := Group(pre, tol);
      var cur := gs[|gs| - 1];
      var p := xs[|xs| - 1];
      var next := Group(xs, tol);
      forall k, a | 0 <= k < |next| && 0 <= a < |next[k]| ensures next[k][a] in xs {
        if next[k][a] != p {
          if Joins(p, cur, tol) {
            if k < |gs| - 1 {
              assert next[k][a] == gs[k][a];
            } else {
              assert next[k] == cur + [p];
              assert next[k][a] == gs[k][a];
            }
          } else {
            assert next == gs + [[p]];
            assert next[k][a] == gs[k][a];
          }
          assert next[k][a] in pre;
        }
      }
    }
  }

  /** Every clustered price is at most `hi`. */
  predicate BoundedBy(gs: seq<seq<real>>, hi: real)
  {
    forall k, a :: 0 <= k < |gs| && 0 <= a < |gs[k]| ==> gs[k][a] <= hi
  }

  /** Each cluster starts with its smallest price. */
  predicate HeadsFirst(gs: seq<seq<real>>)
    requires NonEmpty(gs)
  {
    forall k, a :: 0 <= k < |gs| && 0 <= a < |gs[k]| ==> gs[k][0] <= gs[k][a]
  }

  /** Every price of a cluster is at most every price of a later cluster. */
  predicate Ordered(gs: seq<seq<real>>)
  {
    forall k1, k2, a, b :: 0 <= k1 < k2 < |gs| && 0 <= a < |gs[k1]| && 0 <= b < |gs[k2]| ==>
      gs[k1][a] <= gs[k2][b]
  }

  /** Adding a price no smaller than any clustered one to the last cluster keeps the order. */
  lemma JoinKeepsOrder(gs: seq<seq<real>>, hi: real, p: real)
    requires |gs| > 0 && NonEmpty(gs) && BoundedBy(gs, hi) && HeadsFirst(gs) && Ordered(gs) && hi <= p
    ensures var next := gs[..|gs| - 1] + [gs[|gs| - 1] + [p]];
      NonEmpty(next) && BoundedBy(next, p) && HeadsFirst(next) && Ordered(next)
  {
    var last := |gs| - 1;
    var cur := gs[last];
    var next := gs[..last] + [cur + [p]];
    assert forall k :: 0 <= k < last ==> next[k] == gs[k];
    assert next[last] == cur + [p];
    forall k, a | 0 <= k < |next| && 0 <= a < |next[k]| ensures next[k][a] <= p {
      if k == last && a == |cur| {
      } else {
        assert next[k][a] == gs[k][a];
      }
    }
    forall k, a | 0 <= k < |next| && 0 <= a < |next[k]| ensures next[k][0] <= next[k][a] {
      assert next[k][0] == gs[k][0];
      if k == last && a == |cur| {
      } else {
        assert next[k][a] == gs[k][a];
      }
    }
    forall k1, k2, a, b | 0 <= k1 < k2 < |next| && 0 <= a < |next[k1]| && 0 <= b < |next[k2]|
      ensures next[k1][a] <= next[k2][b]
    {
      assert next[k1][a] == gs[k1][a];
      if k2 == last && b == |cur| {
      } else {
        assert next[k2][b] == gs[k2][b];
      }
    }
  }

  /** Starting a new cluster with a price no smaller than any clustered one keeps the order. */
  lemma SplitKeepsOrder(gs: seq<seq<real>>, hi: real, p: real)
    requires NonEmpty(gs) && BoundedBy(gs, hi) && HeadsFirst(gs) && Ordered(gs) && hi <= p
    ensures var next := gs + [[p]];
      NonEmpty(next) && BoundedBy(next, p) && HeadsFirst(next) && Ordered(next)
  {
    var next := gs + [[p]];
    assert forall k :: 0 <= k < |gs| ==> next[k] == gs[k];
    assert next[|gs|] == [p];
  }

  /**
   * On sorted prices every clustered price is at most the last one, each cluster starts
   * with its smallest price, and every price of a cluster is at most every price of a
   * later one.
   */
  lemma {:induction false} GroupOrdered(xs: seq<real>, tol: real)
    requires |xs| > 0 && SortedAsc(xs, Price)
    ensures BoundedBy(Group(xs, tol), xs[|xs| - 1])
    ensures HeadsFirst(Group(xs, tol))
    ensures Ordered(Group(xs, tol))
  {
    if |xs| > 1 {
      var pre := xs[..|xs| - 1];
      assert SortedAsc(pre, Price) by {
        forall i, j | 0 <= i < j < |pre| ensures Price(pre[i]) <= Price(pre[j]) {
          assert pre[i] == xs[i] && pre[j] == xs[j];
        }
      }
      GroupOrdered(pre, tol);
      var gs := Group(pre, tol);
      var p := xs[|xs| - 1];
      assert Price(pre[|pre| - 1]) <= Price(p);
      if Joins(p, gs[|gs| - 1], tol) {
        JoinKeepsOrder(gs, pre[|pre| - 1], p);
      } else {
        SplitKeepsOrder(gs, pre[|pre| - 1], p);
      }
    }
  }

  /** `[np.mean(cluster) for cluster in clusters]`. */
  function Means(gs: seq<seq<real>>): (ms: seq<real>)
    requires forall k :: 0 <= k < |gs| ==> |gs[k]| > 0
    ensures |ms| == |gs|
  {
    seq(|gs|, k requires 0 <= k < |gs| => Mean(gs[k]))
  }

  /** The clusters of `cluster_levels` (for a non-empty input). */
  function Clusters(prices: seq<real>, tol: real): (gs: seq<seq<real>>)
    requires |prices| > 0
    ensures 0 < |gs| <= |prices|
    ensures forall k :: 0 <= k < |gs| ==> |gs[k]| > 0
  {
    Group(SortPrices(prices), tol)
  }

  /** `cluster_levels`: the mean of each cluster, or no levels for no prices. */
  function Levels(prices: seq<real>, tol: real): (ls: seq<real>)
    ensures |prices| == 0 ==> ls == []
    ensures |prices| > 0 ==> 1 <= |ls| <= |prices|
  {
    if |prices| == 0 then [] else Means(Clusters(prices, tol))
  }

  /** The clusters are consecutive runs of the sorted prices and together hold every price once. */
  lemma ClustersPartition(prices: seq<real>, tol: real)
    requires |prices| > 0
    ensures Flatten(Clusters(prices, tol)) == SortPrices(prices)
    ensures multiset(Flatten(Clusters(prices, tol))) == multiset(prices)
  {
    GroupPartition(SortPrices(prices), tol);
  }

  /** Each level lies between its cluster's smallest and largest price. */
  lemma LevelsWithinClusters(prices: seq<real>, tol: real, k: nat)
    requires |prices| > 0 && k < |Clusters(prices, tol)|
    ensures var c := Clusters(prices, tol)[k];
      MinOf(c) <= Levels(prices, tol)[k] <= MaxOf(c)
  {
    var c := Clusters(prices, tol)[k];
    MeanBounds(c, MinOf(c), MaxOf(c));
  }

  /** A cluster of positive prices that a later price `p` did not join has its mean below `p`. */
  lemma MeanBelowRejected(c: seq<real>, p: real, tol: real)
    requires |c| > 0 && tol >= 0.0
    requires forall a :: 0 <= a < |c| ==> 0.0 < c[a] <= p
    requires !Joins(p, c, tol)
    ensures Mean(c) < p
  {
    MeanBounds(c, MinOf(c), p);
  }

  /** A cluster whose first price is its smallest has its mean at or above that price. */
  lemma MeanAtLeastHead(c: seq<real>)
    requires |c| > 0
    requires forall a :: 0 <= a < |c| ==> c[0] <= c[a]
    ensures c[0] <= Mean(c)
  {
    MeanBounds(c, c[0], MaxOf(c));
  }

  /** Every clustered price is positive. */
  predicate Positive(gs: seq<seq<real>>)
  {
    forall k, a :: 0 <= k < |gs| && 0 <= a < |gs[k]| ==> gs[k][a] > 0.0
  }

  /** Clusters of positive prices hold only positive prices. */
  lemma ClustersPositive(prices: seq<real>, tol: real)
    requires |prices| > 0
    requires forall i :: 0 <= i < |prices| ==> prices[i] > 0.0
    ensures Positive(Clusters(prices, tol))
  {
    var xs := SortPrices(prices);
    var gs := Clusters(prices, tol);
    GroupMembers(xs, tol);
    forall k, a | 0 <= k < |gs| && 0 <= a < |gs[k]| ensures gs[k][a] > 0.0 {
      assert gs[k][a] in multiset(xs);
      assert gs[k][a] in multiset(prices);
    }
  }

  /** In ordered clusters of positive prices split where far apart, an earlier mean is below a later one. */
  lemma MeansIncrease(gs: seq<seq<real>>, tol: real, i: nat, j: nat)
    requires tol >= 0.0 && NonEmpty(gs) && SplitWhereFar(gs, tol)
    requires HeadsFirst(gs) && Ordered(gs) && Positive(gs)
    requires i < j < |gs|
    ensures Mean(gs[i]) < Mean(gs[j])
  {
    var p := gs[i + 1][0];
    assert !Joins(p, gs[i], tol);
    forall a | 0 <= a < |gs[i]| ensures 0.0 < gs[i][a] <= p {
      assert gs[i][a] <= gs[i + 1][0];
    }
    MeanBelowRejected(gs[i], p, tol);
    assert forall a :: 0 <= a < |gs[j]| ==> gs[j][0] <= gs[j][a];
    MeanAtLeastHead(gs[j]);
    if i + 1 < j {
      assert gs[i + 1][0] <= gs[j][0];
    }
  }

  /** With positive prices and a non-negative tolerance the levels strictly increase. */
  lemma LevelsIncreasing(prices: seq<real>, tol: real)
    requires tol >= 0.0
    requires forall i :: 0 <= i < |prices| ==> prices[i] > 0.0
    ensures var ls := Levels(prices, tol);
      forall i, j :: 0 <= i < j < |ls| ==> ls[i] < ls[j]
  {
    if |prices| > 0 {
      var xs := SortPrices(prices);
      var gs := Clusters(prices, tol);
      GroupSplits(xs, tol);
      GroupOrdered(xs, tol);
      ClustersPositive(prices, tol);
      var ls := Levels(prices, tol);
      assert ls == Means(gs);
      forall i, j | 0 <= i < j < |ls| ensures ls[i] < ls[j] {
        MeansIncrease(gs, tol, i, j);
      }
    }
  }

  /** One more sorted price either joins the last cluster or starts a new one after it. */
  lemma GroupStep(xs: seq<real>, tol: real, i: nat, done: seq<seq<real>>, cur: seq<real>)
    requires 1 <= i < |xs| && |cur| > 0
    requires done + [cur] == Group(xs[..i], tol)
    ensures Joins(xs[i], cur, tol) ==> done + [cur + [xs[i]]] == Group(xs[..i + 1], tol)
    ensures !Joins(xs[i], cur, tol) ==> done + [cur] + [[xs[i]]] == Group(xs[..i + 1], tol)
  {
    assert xs[..i + 1][..i] == xs[..i];
    var gs := Group(xs[..i], tol);
    assert gs[|gs| - 1] == cur && gs[..|gs| - 1] == done;
  }

  /**
   * The loop of `cluster_levels` over the sorted prices: keep the finished clusters and
   * the current one, extending the current cluster or closing it at each price.
   */
  method GroupSorted(sorted: seq<real>, tol: real) returns (clusters: seq<seq<real>>)
    requires |sorted| > 0
    ensures clusters == Group(sorted, tol)
  {
    clusters := [];
    var current := [sorted[0]];
    var i := 1;
    while i < |sorted|
      invariant 1 <= i <= |sorted|
      invariant |current| > 0
      invariant clusters + [current] == Group(sorted[..i], tol)
    {
      var price := sorted[i];
      GroupStep(sorted, tol, i, clusters, current);
      if Joins(price, current, tol) {
        current := current + [price];
      } else {
        clusters := clusters + [current];
        current := [price];
      }
      i := i + 1;
    }
    assert sorted[..|sorted|] == sorted;
    clusters := clusters + [current];
  }

  /** `cluster_levels`: sort the prices, cluster them, and return the mean of each cluster. */
  method ClusterLevels(prices: seq<real>, tol: real) returns (levels: seq<real>)
    ensures levels == Levels(prices, tol)
  {
    if |prices| == 0 {
      return [];
    }
    var sorted := SortPrices(prices);
    var clusters := GroupSorted(sorted, tol);
    levels := Means(clusters);
  }

  // ---------------------------------------------------------------------------
  // filter_major_levels
  // ---------------------------------------------------------------------------

  /** A kept level and the number of bars that touched it. */
  datatype Level = Level(price: real, touches: nat)

  /** The sort key of a kept level. */
  function LevelPrice(l: Level): real { l.price }

  /**
   * The bar's high or low lies within 1% of the level; a zero level divides to
   * infinity or NaN and is never touched.
   */
  function Touches(b: Bar, level: real): (r: bool)
    ensures level == 0.0 ==> !r
    ensures level > 0.0 ==>
      (r <==> level - TouchBand * level <= b.high <= level + TouchBand * level ||
              level - TouchBand * level <= b.low <= level + TouchBand * level)
  {
    WithinRelative(b.high, level, TouchBand);
    WithinRelative(b.low, level, TouchBand);
    level != 0.0 && (Abs(b.high - level) / level <= TouchBand || Abs(b.low - level) / level <= TouchBand)
  }

  /** The `touches` counter after the inner loop over `bars`. */
  function TouchCount(bars: seq<Bar>, level: real): (n: nat)
    ensures n <= |bars|
  {
    if bars == [] then 0
    else TouchCount(bars[..|bars| - 1], level) + (if Touches(bars[|bars| - 1], level) then 1 else 0)
  }

  /** The indices among the first `n` bars that touch the level. */
  function TouchSet(bars: seq<Bar>, level: real, n: nat): set<int>
    requires n <= |bars|
  {
    set i | 0 <= i < n && Touches(bars[i], level)
  }

  /** The touch count of the first `n` bars is the number of them that touch the level. */
  lemma {:induction false} TouchCountPrefix(bars: seq<Bar>, level: real, n: nat)
    requires n <= |bars|
    ensures TouchCount(bars[..n], level) == |TouchSet(bars, level, n)|
  {
    if n > 0 {
      TouchCountPrefix(bars, level, n - 1);
      assert bars[..n][..n - 1] == bars[..n - 1];
      assert bars[..n][n - 1] == bars[n - 1];
      if Touches(bars[n - 1], level) {
        assert TouchSet(bars, level, n) == TouchSet(bars, level, n - 1) + {n - 1};
      } else {
        assert TouchSet(bars, level, n) == TouchSet(bars, level, n - 1);
      }
    }
  }

  /** The touch count is the number of bars that touch the level. */
  lemma TouchCountIsCardinality(bars: seq<Bar>, level: real)
    ensures TouchCount(bars, level) == |set i | 0 <= i < |bars| && Touches(bars[i], level)|
  {
    TouchCountPrefix(bars, level, |bars|);
    assert bars[..|bars|] == bars;
  }

  /** The levels with enough touches, in input order, each with its count. */
  function Kept(levels: seq<real>, bars: seq<Bar>, minTouches: nat): (ks: seq<Level>)
    ensures |ks| <= |levels|
    ensures forall i :: 0 <= i < |ks| ==>
      ks[i].touches >= minTouches && ks[i].touches == TouchCount(bars, ks[i].price) && ks[i].touches <= |bars|
  {
    if levels == [] then []
    else
      var l := levels[|levels| - 1];
      var n := TouchCount(bars, l);
      Kept(levels[..|levels| - 1], bars, minTouches) + (if n >= minTouches then [Level(l, n)] else [])
  }

  /** A level is kept exactly when it is an input level with at least `minTouches` touches. */
  lemma {:induction false} KeptMembers(levels: seq<real>, bars: seq<Bar>, minTouches: nat, k: Level)
    ensures k in Kept(levels, bars, minTouches) <==>
      k.price in levels && k.touches == TouchCount(bars, k.price) && k.touches >= minTouches
  {
    if levels != [] {
      var pre := levels[..|levels| - 1];
      KeptMembers(pre, bars, minTouches, k);
      assert levels == pre + [levels[|levels| - 1]];
    }
  }

  /** `filter_major_levels`: the kept levels sorted by ascending price. */
  function MajorLevels(levels: seq<real>, bars: seq<Bar>, minTouches: nat): seq<Level>
  {
    SortAsc(Kept(levels, bars, minTouches), LevelPrice)
  }

  /**
   * The major levels are sorted by price, no more than the input levels, and are exactly
   * the input levels touched at least `minTouches` times (and at most once per bar).
   */
  lemma MajorLevelsMeaning(levels: seq<real>, bars: seq<Bar>, minTouches: nat, k: Level)
    ensures SortedAsc(MajorLevels(levels, bars, minTouches), LevelPrice)
    ensures |MajorLevels(levels, bars, minTouches)| <= |levels|
    ensures k in MajorLevels(levels, bars, minTouches) <==>
      k.price in levels && k.touches == TouchCount(bars, k.price) && k.touches >= minTouches
    ensures k in MajorLevels(levels, bars, minTouches) ==> k.touches <= |bars|
  {
    var kept := Kept(levels, bars, minTouches);
    SortAscProperties(kept, LevelPrice, 0.0);
    KeptMembers(levels, bars, minTouches, k);
    assert k in MajorLevels(levels, bars, minTouches) <==> k in multiset(kept);
  }

  /**
   * `filter_major_levels`: for each level count the bars touching it, keep it with its
   * count when the count reaches `minTouches`, then sort the kept levels by price.
   */
  method FilterMajorLevels(levels: seq<real>, bars: seq<Bar>, minTouches: nat) returns (major: seq<Level>)
    ensures major == MajorLevels(levels, bars, minTouches)
  {
    var majorLevels: seq<Level> := [];
    var i := 0;
    while i < |levels|
      invariant 0 <= i <= |levels|
      invariant majorLevels == Kept(levels[..i], bars, minTouches)
    {
      var level := levels[i];
      var touches: nat := 0;
      var j := 0;
      while j < |bars|
        invariant 0 <= j <= |bars|
        invariant touches == TouchCount(bars[..j], level)
      {
        assert bars[..j + 1][..j] == bars[..j];
        if Touches(bars[j], level) {
          touches := touches + 1;
        }
        j := j + 1;
      }
      assert bars[..|bars|] == bars;
      assert levels[..i + 1][..i] == levels[..i];
      if touches >= minTouches {
        majorLevels := majorLevels + [Level(level, touches)];
      }
      i := i + 1;
    }
    assert levels[..|levels|] == levels;
    major := SortAsc(majorLevels, LevelPrice);
  }

  /**
   * `identify_support_resistance`: cluster the swing lows and the swing highs with the
   * 2% tolerance, then keep the levels touched by at least three bars.
   */
  method IdentifyLevels(bars: seq<Bar>, lows: seq<real>, highs: seq<real>)
    returns (support: seq<Level>, resistance: seq<Level>)
    ensures support == MajorLevels(Levels(lows, Tolerance), bars, MinTouches)
    ensures resistance == MajorLevels(Levels(highs, Tolerance), bars, MinTouches)
  {
    var supportLevels := ClusterLevels(lows, Tolerance);
    var resistanceLevels := ClusterLevels(highs, Tolerance);
    support := FilterMajorLevels(supportLevels, bars, MinTouches);
    resistance := FilterMajorLevels(resistanceLevels, bars, MinTouches);
  }

  // ---------------------------------------------------------------------------
  // analyze_stock
  // ---------------------------------------------------------------------------

  /** `max([level for level in levels if level < price], default=None)`. */
  function NearestSupport(levels: seq<Level>, price: real): (r: Option<real>)
    ensures r.None? <==> forall i :: 0 <= i < |levels| ==> levels[i].price >= price
    ensures r.Some? ==> r.value < price && exists i :: 0 <= i < |levels| && levels[i].price == r.value
    ensures r.Some? ==> forall i :: 0 <= i < |levels| && levels[i].price < price ==> levels[i].price <= r.value
  {
    if levels == [] then None
    else
      var init := levels[..|levels| - 1];
      assert forall i :: 0 <= i < |init| ==> init[i] == levels[i];
      var prev := NearestSupport(init, price);
      var l := levels[|levels| - 1].price;
      if l < price && (prev.None? || l > prev.value) then Some(l) else prev
  }

  /** `min([level for level in levels if level > price], default=None)`. */
  function NearestResistance(levels: seq<Level>, price: real): (r: Option<real>)
    ensures r.None? <==> forall i :: 0 <= i < |levels| ==> levels[i].price <= price
    ensures r.Some? ==> r.value > price && exists i :: 0 <= i < |levels| && levels[i].price == r.value
    ensures r.Some? ==> forall i :: 0 <= i < |levels| && levels[i].price > price ==> r.value <= levels[i].price
  {
    if levels == [] then None
    else
      var init := levels[..|levels| - 1];
      assert forall i :: 0 <= i < |init| ==> init[i] == levels[i];
      var prev := NearestResistance(init, price);
      var l := levels[|levels| - 1].price;
      if l > price && (prev.None? || l < prev.value) then Some(l) else prev
  }

  /**
   * The printed distance in percent of the price; printed only when the level is
   * truthy (non-zero), and undefined for a zero price.
   */
  function Distance(level: Option<real>, price: real, below: bool): (r: Option<real>)
    ensures r.Some? <==> level.Some? && level.value != 0.0 && price != 0.0
    ensures r.Some? && below ==> r.value * price == 100.0 * (price - level.value)
    ensures r.Some? && !below ==> r.value * price == 100.0 * (level.value - price)
  {
    if level.None? || level.value == 0.0 then None
    else if below then Scale(100.0, Div(Some(price - level.value), Some(price)))
    else Scale(100.0, Div(Some(level.value - price), Some(price)))
  }

  /** What `analyze_stock` reports for one ticker. */
  datatype Analysis = Analysis(
    support: seq<Level>, resistance: seq<Level>, price: real,
    nearestSupport: Option<real>, nearestResistance: Option<real>,
    supportDistance: Option<real>, resistanceDistance: Option<real>)

  /** The report on bars that passed the length check, given the major levels. */
  function Report(bars: seq<Bar>, support: seq<Level>, resistance: seq<Level>): Analysis
    requires |bars| > 0
  {
    var price := bars[|bars| - 1].close;
    var ns := NearestSupport(support, price);
    var nr := NearestResistance(resistance, price);
    Analysis(support, resistance, price, ns, nr, Distance(ns, price, true), Distance(nr, price, false))
  }

  /**
   * A level on the right side of a positive price has a positive printed distance, and
   * a level above a positive price is non-zero, so its distance is always printed.
   */
  lemma DistancePositive(level: Option<real>, price: real, below: bool)
    requires price > 0.0 && level.Some?
    requires below ==> level.value < price
    requires !below ==> level.value > price
    ensures Distance(level, price, below).Some? ==> Distance(level, price, below).value > 0.0
    ensures !below ==> Distance(level, price, below).Some?
  {
    var d := if below then price - level.value else level.value - price;
    if level.value != 0.0 {
      assert Div(Some(d), Some(price)) == Some(d / price);
      MulPositive(d / price, price);
    }
  }

  /**
   * The report's nearest support is below the latest close and its nearest resistance
   * above it; with a positive close both printed distances are positive.
   */
  lemma ReportMeaning(bars: seq<Bar>, support: seq<Level>, resistance: seq<Level>)
    requires |bars| > 0
    ensures var r := Report(bars, support, resistance);
      (r.nearestSupport.Some? ==> r.nearestSupport.value < r.price) &&
      (r.nearestResistance.Some? ==> r.nearestResistance.value > r.price) &&
      (r.supportDistance.Some? ==> r.nearestSupport.Some? && r.nearestSupport.value != 0.0) &&
      (r.price > 0.0 && r.supportDistance.Some? ==> r.supportDistance.value > 0.0) &&
      (r.price > 0.0 && r.resistanceDistance.Some? ==> r.resistanceDistance.value > 0.0) &&
      (r.price > 0.0 && r.nearestResistance.Some? ==> r.resistanceDistance.Some?)
  {
    var price := bars[|bars| - 1].close;
    var ns := NearestSupport(support, price);
    var nr := NearestResistance(resistance, price);
    if price > 0.0 && ns.Some? {
      DistancePositive(ns, price, true);
    }
    if price > 0.0 && nr.Some? {
      DistancePositive(nr, price, false);
    }
  }

  /**
   * `analyze_stock`: reject a failed download or fewer than 30 bars; otherwise find the
   * major levels from the swing lows and highs and report the nearest ones around the
   * latest close.
   */
  method AnalyzeStock(data: Fetch, lows: seq<real>, highs: seq<real>) returns (r: Option<Analysis>)
    ensures r.None? <==> data.None? || |data.value| < MinBars
    ensures r.Some? ==> r.value == Report(data.value,
      MajorLevels(Levels(lows, Tolerance), data.value, MinTouches),
      MajorLevels(Levels(highs, Tolerance), data.value, MinTouches))
  {
    if data.None? || |data.value| < MinBars {
      return None;
    }
    var bars := data.value;
    var support, resistance := IdentifyLevels(bars, lows, highs);
    r := Some(Report(bars, support, resistance));
  }
}
