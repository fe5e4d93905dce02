/** Orders the pipelines rely on: Python's string comparison (the order in
    which pandas' groupby and outer merge list their keys) and first-seen
    order (the order of `Series.unique()` and of dict insertion). */
module Ordering {
  import opened Text

  /** Python's `a < b` on strings: lexicographic by code point, a proper
      prefix first. */
  predicate LexLess(a: string, b: string) {
    if |a| == 0 then |b| > 0
    else if |b| == 0 then false
    else if a[0] != b[0] then a[0] < b[0]
    else LexLess(a[1..], b[1..])
  }

  lemma {:induction false} LexLessIrreflexive(a: string)
    ensures !LexLess(a, a)
  {
    if |a| > 0 {
      LexLessIrreflexive(a[1..]);
    }
  }

  lemma {:induction false} LexLessTransitive(a: string, b: string, c: string)
    requires LexLess(a, b) && LexLess(b, c)
    ensures LexLess(a, c)
  {
    if |a| > 0 && |b| > 0 && |c| > 0 && a[0] == b[0] && b[0] == c[0] {
      LexLessTransitive(a[1..], b[1..], c[1..]);
    }
  }

  lemma {:induction false} LexLessTotal(a: string, b: string)
    requires a != b
    ensures LexLess(a, b) || LexLess(b, a)
  {
    if |a| > 0 && |b| > 0 && a[0] == b[0] {
      assert a == [a[0]] + a[1..] && b == [b[0]] + b[1..];
      LexLessTotal(a[1..], b[1..]);
    }
  }

  /** Strictly increasing, hence free of repeats. */
  predicate StrictlySorted(s: seq<string>) {
    forall i, j :: 0 <= i < j < |s| ==> LexLess(s[i], s[j])
  }

  /** Inserts `k` into its place in a strictly sorted list, unless present. */
  function Insert(s: seq<string>, k: string): seq<string> {
    if |s| == 0 then [k]
    else if s[0] == k then s
    else if LexLess(k, s[0]) then [k] + s
    else [s[0]] + Insert(s[1..], k)
  }

  lemma {:induction false} InsertSorted(s: seq<string>, k: string)
    requires StrictlySorted(s)
    ensures StrictlySorted(Insert(s, k))
    ensures forall x :: x in Insert(s, k) <==> x in s || x == k
  {
    if |s| == 0 {
    } else if s[0] == k {
    } else if LexLess(k, s[0]) {
      var r := [k] + s;
      forall i, j | 0 <= i < j < |r| ensures LexLess(r[i], r[j]) {
        if i == 0 && j > 1 {
          LexLessTransitive(k, s[0], s[j - 1]);
        }
      }
    } else {
      LexLessTotal(k, s[0]);
      InsertSorted(s[1..], k);
      var t := Insert(s[1..], k);
      var r := [s[0]] + t;
      forall j | 0 < j < |r| ensures LexLess(s[0], r[j]) {
        if r[j] != k {
          assert r[j] in s[1..];
          var m :| 0 <= m < |s[1..]| && s[1..][m] == r[j];
          assert s[m + 1] == r[j];
        }
      }
      assert s == [s[0]] + s[1..];
    }
  }

  /** The distinct keys of a column in increasing order: what iterating a
      pandas groupby (sort=True) or an outer merge visits. */
  function SortedKeys(keys: seq<string>): seq<string> {
    if |keys| == 0 then []
    else Insert(SortedKeys(keys[..|keys| - 1]), keys[|keys| - 1])
  }

  /** SortedKeys lists every key exactly once, in increasing order. */
  lemma {:induction false} SortedKeysCorrect(keys: seq<string>)
    ensures StrictlySorted(SortedKeys(keys))
    ensures forall x :: x in SortedKeys(keys) <==> x in keys
  {
    if |keys| > 0 {
      var init := keys[..|keys| - 1];
      SortedKeysCorrect(init);
      InsertSorted(SortedKeys(init), keys[|keys| - 1]);
      assert keys == init + [keys[|keys| - 1]];
    }
  }

  /** A strictly sorted list has no repeats. */
  lemma StrictlySortedDistinct(s: seq<string>)
    requires StrictlySorted(s)
    ensures Distinct(s)
  {
    forall i, j | 0 <= i < j < |s| ensures s[i] != s[j] {
      if s[i] == s[j] {
        LexLessIrreflexive(s[i]);
      }
    }
  }

  /** Index of the first occurrence of `x`. */
  function FirstIndex(s: seq<string>, x: string): (i: nat)
    requires x in s
    ensures i < |s| && s[i] == x && x !in s[..i]
  {
    if s[0] == x then 0
    else
      var i := 1 + FirstIndex(s[1..], x);
      assert s[..i] == [s[0]] + s[1..][..i - 1];
      i
  }

  /** `w` lists elements of `s` in the order in which they first appear in `s`. */
  predicate InFirstSeenOrder(w: seq<string>, s: seq<string>) {
    forall i, j :: 0 <= i < j < |w| ==> w[i] in s && w[j] in s && FirstIndex(s, w[i]) < FirstIndex(s, w[j])
  }

  /** `Series.unique()` / iteration order of a dict filled from `s`: each
      value once, at its first appearance. */
  function Unique(s: seq<string>): seq<string> {
    if |s| == 0 then []
    else
      var u := Unique(s[..|s| - 1]);
      if s[|s| - 1] in u then u else u + [s[|s| - 1]]
  }

  lemma FirstIndexOfPrefix(s: seq<string>, y: string, x: string)
    requires y in s
    ensures FirstIndex(s + [x], y) == FirstIndex(s, y)
  {
    var i := FirstIndex(s, y);
    var t := s + [x];
    assert t[..i] == s[..i];
    var k := FirstIndex(t, y);
    assert t[i] == y;
    assert t[..k] == s[..k];
  }

  /** Unique keeps each value once, loses none, and orders them by first appearance. */
  lemma {:induction false} UniqueCorrect(s: seq<string>)
    ensures Distinct(Unique(s))
    ensures forall x :: x in Unique(s) <==> x in s
    ensures InFirstSeenOrder(Unique(s), s)
  {
    if |s| > 0 {
      var init := s[..|s| - 1];
      var last := s[|s| - 1];
      assert s == init + [last];
      UniqueCorrect(init);
      var u := Unique(init);
      forall y | y in init ensures FirstIndex(s, y) == FirstIndex(init, y) {
        FirstIndexOfPrefix(init, y, last);
      }
      if last !in u {
        assert last !in init;
        assert FirstIndex(s, last) == |init| by { assert s[..|init|] == init; }
        var r := u + [last];
        forall i, j | 0 <= i < j < |r|
          ensures r[i] in s && r[j] in s && FirstIndex(s, r[i]) < FirstIndex(s, r[j])
        {
          assert r[i] == u[i] && u[i] in u;
          if j < |u| {
            assert r[j] == u[j];
          } else {
            assert r[i] in init && r[j] == last;
            assert FirstIndex(s, r[i]) == FirstIndex(init, r[i]) < |init|;
          }
        }
      }
    }
  }

  /** A list without repeats is in its own first-seen order. */
  lemma DistinctFirstSeen(w: seq<string>)
    requires Distinct(w)
    ensures InFirstSeenOrder(w, w)
  {
    forall i | 0 <= i < |w| ensures FirstIndex(w, w[i]) == i {
      var k := FirstIndex(w, w[i]);
      assert w[k] == w[i];
    }
  }

  /** Keeping only some elements of a first-seen-ordered list keeps it so
      (`TiedAt` below and every other filter rely on this). */
  lemma {:induction false} FilterKeepsOrder(w: seq<string>, v: seq<string>, s: seq<string>)
    requires InFirstSeenOrder(w, s)
    requires IsSubsequence(v, w)
    ensures InFirstSeenOrder(v, s)
    decreases |w|
  {
    if |v| > 0 {
      if w[0] == v[0] {
        FilterKeepsOrder(w[1..], v[1..], s);
        forall j | 0 < j < |v| ensures v[0] in s && v[j] in s && FirstIndex(s, v[0]) < FirstIndex(s, v[j]) {
          SubsequenceMember(v[1..], w[1..], j - 1);
          var k :| 0 <= k < |w[1..]| && w[1..][k] == v[j];
          assert w[k + 1] == v[j];
        }
      } else {
        FilterKeepsOrder(w[1..], v, s);
      }
    }
  }

  /** `v` is `w` with some elements left out. */
  predicate IsSubsequence<T(==)>(v: seq<T>, w: seq<T>)
    decreases |w|
  {
    if |v| == 0 then true
    else if |w| == 0 then false
    else if w[0] == v[0] then IsSubsequence(v[1..], w[1..])
    else IsSubsequence(v, w[1..])
  }

  /** `[x for x in s if f(x)]`: the elements that pass, in their order. */
  function Filter(s: seq<string>, f: string -> bool): (r: seq<string>)
    ensures forall x :: x in r <==> x in s && f(x)
  {
    if |s| == 0 then []
    else
      var rest := Filter(s[1..], f);
      assert s == [s[0]] + s[1..];
      if f(s[0]) then [s[0]] + rest else rest
  }

  /** What passes the filter is the list with some elements left out. */
  lemma {:induction false} FilterSubsequence(s: seq<string>, f: string -> bool)
    ensures IsSubsequence(Filter(s, f), s)
  {
    if |s| > 0 {
      var rest := Filter(s[1..], f);
      FilterSubsequence(s[1..], f);
      if f(s[0]) {
        assert ([s[0]] + rest)[1..] == rest;
      } else {
        assert |rest| > 0 ==> rest[0] in rest && rest[0] != s[0];
      }
    }
  }

  /** The first element that passes comes no later than any element that
      passes: it is the first match. */
  lemma {:induction false} FilterFirst(s: seq<string>, f: string -> bool, i: nat)
    requires i < |s| && f(s[i])
    ensures |Filter(s, f)| > 0 && Filter(s, f)[0] in s[..i + 1]
  {
    if !f(s[0]) {
      assert s[1..][i - 1] == s[i];
      FilterFirst(s[1..], f, i - 1);
      assert s[1..][..i] == s[1..i + 1];
    }
  }

  /** A filter that every element passes keeps the whole list. */
  lemma {:induction false} FilterAll(s: seq<string>, f: string -> bool)
    requires forall x :: x in s ==> f(x)
    ensures Filter(s, f) == s
  {
    if |s| > 0 {
      assert s[0] in s;
      forall x | x in s[1..] ensures f(x) {
        assert x in s;
      }
      FilterAll(s[1..], f);
      assert [s[0]] + s[1..] == s;
    }
  }

  lemma {:induction false} SubsequenceMember(v: seq<string>, w: seq<string>, j: nat)
    requires IsSubsequence(v, w) && j < |v|
    ensures v[j] in w
    decreases |w|
  {
    if w[0] == v[0] {
      if j > 0 {
        SubsequenceMember(v[1..], w[1..], j - 1);
      }
    } else {
      SubsequenceMember(v, w[1..], j);
    }
  }

  /** A list comprehension `[f(x) for x in xs]`. */
  function MapSeq<T, U>(xs: seq<T>, f: T -> U): (ys: seq<U>)
    ensures |ys| == |xs|
    ensures forall i :: 0 <= i < |xs| ==> ys[i] == f(xs[i])
  {
    seq(|xs|, i requires 0 <= i < |xs| => f(xs[i]))
  }

  /** Mapping one more element appends its image. */
  lemma MapSeqStep<T, U>(xs: seq<T>, i: nat, f: T -> U)
    requires i < |xs|
    ensures MapSeq(xs[..i + 1], f) == MapSeq(xs[..i], f) + [f(xs[i])]
  {
    var a := MapSeq(xs[..i + 1], f);
    var b := MapSeq(xs[..i], f) + [f(xs[i])];
    forall j | 0 <= j < |a| ensures a[j] == b[j] {
      assert xs[..i + 1][j] == xs[j];
      if j < i {
        assert xs[..i][j] == xs[j];
      }
    }
  }
}
