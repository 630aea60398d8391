/**
 * Python's `list.sort(key=..., reverse=True)` and `sorted(..., key=...)`: stable
 * sorts by a real-valued key.  Equal keys keep their original order, also when
 * sorting in reverse.  Also the result table the screeners build: each ticker
 * yields a row or nothing, the rows are kept in scan order and then ranked.
 */
module Ranking {
  import opened Numeric

  /** Keys never increase along `s`. */
  predicate SortedDesc<T>(s: seq<T>, key: T -> real)
  {
    forall i, j :: 0 <= i < j < |s| ==> key(s[i]) >= key(s[j])
  }

  /** Keys never decrease along `s`. */
  predicate SortedAsc<T>(s: seq<T>, key: T -> real)
  {
    forall i, j :: 0 <= i < j < |s| ==> key(s[i]) <= key(s[j])
  }

  /** The entries of `s` whose key is `k`, in their order in `s`. */
  function WithKey<T>(s: seq<T>, key: T -> real, k: real): seq<T>
  {
    if s == [] then []
    else WithKey(s[..|s| - 1], key, k) + (if key(s[|s| - 1]) == k then [s[|s| - 1]] else [])
  }

  /** Places `x` after every entry whose key is at least its own. */
  function InsertDesc<T>(x: T, s: seq<T>, key: T -> real): seq<T>
  {
    if s == [] then [x]
    else if key(s[0]) >= key(x) then [s[0]] + InsertDesc(x, s[1..], key)
    else [x] + s
  }

  /** A stable sort by descending key: insertion of each entry in scan order. */
  function SortDesc<T>(s: seq<T>, key: T -> real): seq<T>
  {
    if s == [] then [] else InsertDesc(s[|s| - 1], SortDesc(s[..|s| - 1], key), key)
  }

  /** A stable sort by ascending key: the descending sort by the negated key. */
  function SortAsc<T>(s: seq<T>, key: T -> real): seq<T>
  {
    SortDesc(s, x => -key(x))
  }

  /** Inserting below a bound that `x` and every entry of `s` respect keeps every key below it. */
  lemma {:induction false} InsertDescBelow<T>(x: T, s: seq<T>, key: T -> real, b: real)
    requires key(x) <= b
    requires forall i :: 0 <= i < |s| ==> key(s[i]) <= b
    ensures forall i :: 0 <= i < |InsertDesc(x, s, key)| ==> key(InsertDesc(x, s, key)[i]) <= b
  {
    if s != [] && key(s[0]) >= key(x) {
      InsertDescBelow(x, s[1..], key, b);
    }
  }

  /** Insertion adds exactly `x` to the entries. */
  lemma {:induction false} InsertDescPermutes<T>(x: T, s: seq<T>, key: T -> real)
    ensures multiset(InsertDesc(x, s, key)) == multiset(s) + multiset{x}
  {
    if s != [] && key(s[0]) >= key(x) {
      InsertDescPermutes(x, s[1..], key);
      assert s == [s[0]] + s[1..];
    }
  }

  /** A new first entry whose key is at least every other key keeps a list descending. */
  lemma ConsSorted<T>(y: T, s: seq<T>, key: T -> real)
    requires SortedDesc(s, key)
    requires forall i :: 0 <= i < |s| ==> key(s[i]) <= key(y)
    ensures SortedDesc([y] + s, key)
  {
    var t := [y] + s;
    forall i, j | 0 <= i < j < |t| ensures key(t[i]) >= key(t[j]) {
      assert t[j] == s[j - 1];
      if i > 0 {
        assert t[i] == s[i - 1];
      }
    }
  }

  /** Insertion into a descending list keeps it descending. */
  lemma {:induction false} InsertDescSorted<T>(x: T, s: seq<T>, key: T -> real)
    requires SortedDesc(s, key)
    ensures SortedDesc(InsertDesc(x, s, key), key)
  {
    if s != [] {
      SortedDescTail(s, key);
      if key(s[0]) >= key(x) {
        InsertDescSorted(x, s[1..], key);
        InsertDescBelow(x, s[1..], key, key(s[0]));
        ConsSorted(s[0], InsertDesc(x, s[1..], key), key);
      } else {
        ConsSorted(x, s, key);
      }
    }
  }

  lemma InsertDescProperties<T>(x: T, s: seq<T>, key: T -> real)
    requires SortedDesc(s, key)
    ensures multiset(InsertDesc(x, s, key)) == multiset(s) + multiset{x}
    ensures SortedDesc(InsertDesc(x, s, key), key)
  {
    InsertDescPermutes(x, s, key);
    InsertDescSorted(x, s, key);
  }

  /** The descending sort is an ordered permutation of its input. */
  lemma {:induction false} SortDescProperties<T>(s: seq<T>, key: T -> real)
    ensures multiset(SortDesc(s, key)) == multiset(s)
    ensures SortedDesc(SortDesc(s, key), key)
    ensures |SortDesc(s, key)| == |s|
  {
    if s != [] {
      var p := s[..|s| - 1];
      SortDescProperties(p, key);
      InsertDescProperties(s[|s| - 1], SortDesc(p, key), key);
      assert s == p + [s[|s| - 1]];
      assert multiset(SortDesc(s, key)) == multiset(s);
      assert |multiset(SortDesc(s, key))| == |multiset(s)|;
    }
  }

  lemma {:induction false} WithKeyAppend<T>(a: seq<T>, b: seq<T>, key: T -> real, k: real)
    ensures WithKey(a + b, key, k) == WithKey(a, key, k) + WithKey(b, key, k)
  {
    if b != [] {
      var b' := b[..|b| - 1];
      assert (a + b)[..|a + b| - 1] == a + b';
      WithKeyAppend(a, b', key, k);
    } else {
      assert a + b == a;
    }
  }

  lemma {:induction false} WithKeyNone<T>(s: seq<T>, key: T -> real, k: real)
    requires forall i :: 0 <= i < |s| ==> key(s[i]) != k
    ensures WithKey(s, key, k) == []
  {
    if s != [] {
      WithKeyNone(s[..|s| - 1], key, k);
    }
  }

  /** The tail of a descending list is descending, and its head has the largest key. */
  lemma SortedDescTail<T>(s: seq<T>, key: T -> real)
    requires |s| > 0 && SortedDesc(s, key)
    ensures SortedDesc(s[1..], key)
    ensures forall i :: 0 <= i < |s| ==> key(s[i]) <= key(s[0])
  {
    forall i, j | 0 <= i < j < |s[1..]| ensures key(s[1..][i]) >= key(s[1..][j]) {
      assert s[1..][i] == s[i + 1] && s[1..][j] == s[j + 1];
    }
  }

  /** The entries with key `k` of a list with a new first entry. */
  lemma WithKeyCons<T>(y: T, s: seq<T>, key: T -> real, k: real)
    ensures WithKey([y] + s, key, k) == (if key(y) == k then [y] else []) + WithKey(s, key, k)
  {
    WithKeyAppend([y], s, key, k);
    assert WithKey([y], key, k) == WithKey([], key, k) + (if key(y) == k then [y] else []);
  }

  /** The entries of `x` and `s` with key `k`, `x` last. */
  function WithKeyAnd<T>(s: seq<T>, x: T, key: T -> real, k: real): seq<T>
  {
    WithKey(s, key, k) + (if key(x) == k then [x] else [])
  }

  /** Passing over a head whose key is at least `x`'s keeps the head's entry first. */
  lemma InsertDescStableSkip<T>(x: T, s: seq<T>, key: T -> real, k: real)
    requires s != [] && key(s[0]) >= key(x)
    requires WithKey(InsertDesc(x, s[1..], key), key, k) == WithKeyAnd(s[1..], x, key, k)
    ensures WithKey(InsertDesc(x, s, key), key, k) == WithKeyAnd(s, x, key, k)
  {
    var rest := InsertDesc(x, s[1..], key);
    var h := if key(s[0]) == k then [s[0]] else [];
    var t := if key(x) == k then [x] else [];
    calc {
      WithKey(InsertDesc(x, s, key), key, k);
      { assert InsertDesc(x, s, key) == [s[0]] + rest; }
      WithKey([s[0]] + rest, key, k);
      { WithKeyCons(s[0], rest, key, k); }
      h + WithKey(rest, key, k);
      h + (WithKey(s[1..], key, k) + t);
      (h + WithKey(s[1..], key, k)) + t;
      { WithKeyCons(s[0], s[1..], key, k); assert [s[0]] + s[1..] == s; }
      WithKey(s, key, k) + t;
    }
  }

  /** Placing `x` in front of a list whose keys are all below its own. */
  lemma InsertDescStableFront<T>(x: T, s: seq<T>, key: T -> real, k: real)
    requires SortedDesc(s, key) && s != [] && key(s[0]) < key(x)
    ensures WithKey(InsertDesc(x, s, key), key, k) == WithKeyAnd(s, x, key, k)
  {
    assert InsertDesc(x, s, key) == [x] + s;
    WithKeyCons(x, s, key, k);
    if key(x) == k {
      SortedDescTail(s, key);
      WithKeyNone(s, key, k);
    }
  }

  lemma {:induction false} InsertDescStable<T>(x: T, s: seq<T>, key: T -> real, k: real)
    requires SortedDesc(s, key)
    ensures WithKey(InsertDesc(x, s, key), key, k) == WithKeyAnd(s, x, key, k)
  {
    if s == [] {
      WithKeyCons(x, [], key, k);
      assert [x] + [] == [x];
    } else if key(s[0]) >= key(x) {
      SortedDescTail(s, key);
      InsertDescStable(x, s[1..], key, k);
      InsertDescStableSkip(x, s, key, k);
    } else {
      InsertDescStableFront(x, s, key, k);
    }
  }

  /** Stability: for every key value, the entries with that key keep their relative order. */
  lemma {:induction false} SortDescStable<T>(s: seq<T>, key: T -> real, k: real)
    ensures WithKey(SortDesc(s, key), key, k) == WithKey(s, key, k)
  {
    if s != [] {
      var p := s[..|s| - 1];
      SortDescStable(p, key, k);
      SortDescProperties(p, key);
      InsertDescStable(s[|s| - 1], SortDesc(p, key), key, k);
    }
  }

  /** The ascending sort is an ordered permutation of its input that keeps ties in order. */
  lemma SortAscProperties<T>(s: seq<T>, key: T -> real, k: real)
    ensures multiset(SortAsc(s, key)) == multiset(s)
    ensures |SortAsc(s, key)| == |s|
    ensures SortedAsc(SortAsc(s, key), key)
    ensures WithKey(SortAsc(s, key), key, k) == WithKey(s, key, k)
  {
    var neg := x => -key(x);
    SortDescProperties(s, neg);
    SortDescStable(s, neg, -k);
    WithKeyNegated(SortAsc(s, key), key, k);
    WithKeyNegated(s, key, k);
  }

  lemma {:induction false} WithKeyNegated<T>(s: seq<T>, key: T -> real, k: real)
    ensures WithKey(s, x => -key(x), -k) == WithKey(s, key, k)
  {
    if s != [] {
      WithKeyNegated(s[..|s| - 1], key, k);
    }
  }

  // ---------------------------------------------------------------------------
  // The result table of a scan
  // ---------------------------------------------------------------------------

  /** The rows of the tickers that yielded one, in scan order. */
  function Rows<U>(rs: seq<Option<U>>): (ks: seq<U>)
    ensures |ks| <= |rs|
  {
    if rs == [] then []
    else Rows(rs[..|rs| - 1]) + (if rs[|rs| - 1].Some? then [rs[|rs| - 1].value] else [])
  }

  /** One more ticker adds its row exactly when it yields one. */
  lemma RowsStep<U>(rs: seq<Option<U>>, i: nat)
    requires i < |rs|
    ensures Rows(rs[..i + 1]) == Rows(rs[..i]) + (if rs[i].Some? then [rs[i].value] else [])
  {
    assert rs[..i + 1][..i] == rs[..i];
  }

  /** Every row a ticker yields is in the table. */
  lemma {:induction false} RowsComplete<U>(rs: seq<Option<U>>, i: nat)
    requires i < |rs| && rs[i].Some?
    ensures rs[i].value in Rows(rs)
  {
    if i < |rs| - 1 {
      var p := rs[..|rs| - 1];
      assert p[i] == rs[i];
      RowsComplete(p, i);
    }
  }

  /** Every row of the table is the row of some ticker, whose index is returned. */
  lemma {:induction false} RowsSource<U>(rs: seq<Option<U>>, d: U) returns (i: nat)
    requires d in Rows(rs)
    ensures i < |rs| && rs[i] == Some(d)
  {
    var p := rs[..|rs| - 1];
    if d in Rows(p) {
      i := RowsSource(p, d);
      assert p[i] == rs[i];
    } else {
      i := |rs| - 1;
    }
  }

  /** The name of each row, in the order of the rows. */
  function Names<U>(ds: seq<U>, name: U -> string): (ts: seq<string>)
    ensures |ts| == |ds| && forall i :: 0 <= i < |ds| ==> ts[i] == name(ds[i])
  {
    seq(|ds|, i requires 0 <= i < |ds| => name(ds[i]))
  }

  lemma NamesAppend<U>(ds: seq<U>, d: U, name: U -> string)
    ensures Names(ds + [d], name) == Names(ds, name) + [name(d)]
  {
  }

  /**
   * Ranking a table by descending key: the same rows, by non-increasing key, rows
   * with equal keys in table order, and their names in the order of the ranked rows.
   */
  lemma RankedTable<U>(ds: seq<U>, key: U -> real, name: U -> string, k: real)
    ensures var s := SortDesc(ds, key);
      multiset(s) == multiset(ds) && SortedDesc(s, key) && WithKey(s, key, k) == WithKey(ds, key, k) &&
      |Names(s, name)| == |ds| && forall i :: 0 <= i < |ds| ==> Names(s, name)[i] == name(s[i])
  {
    SortDescProperties(ds, key);
    SortDescStable(ds, key, k);
  }
}
