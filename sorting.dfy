/**
 * Ordering by a sort key. The database's `order(...)` clauses and JavaScript's
 * default `sort()` are modelled as a sort by a lexicographically compared key
 * of integers: a descending column contributes its negation, a text column its
 * character codes.
 */
module Sorting {

  /** Lexicographic `<=` on integer sequences; a proper prefix comes first. */
  predicate LexLe(a: seq<int>, b: seq<int>)
    decreases |a|
  {
    if |a| == 0 then true
    else if |b| == 0 then false
    else a[0] < b[0] || (a[0] == b[0] && LexLe(a[1..], b[1..]))
  }

  lemma {:induction false} LexTotal(a: seq<int>, b: seq<int>)
    ensures LexLe(a, b) || LexLe(b, a)
    decreases |a|
  {
    if |a| > 0 && |b| > 0 && a[0] == b[0] {
      LexTotal(a[1..], b[1..]);
    }
  }

  lemma {:induction false} LexTrans(a: seq<int>, b: seq<int>, c: seq<int>)
    requires LexLe(a, b) && LexLe(b, c)
    ensures LexLe(a, c)
    decreases |a|
  {
    if |a| > 0 && |b| > 0 && |c| > 0 && a[0] == b[0] && b[0] == c[0] {
      LexTrans(a[1..], b[1..], c[1..]);
    }
  }

  /** The character codes of a text: its sort key for an ascending text column. */
  function Codes(s: string): (r: seq<int>)
    ensures |r| == |s|
    ensures forall i :: 0 <= i < |s| ==> r[i] == s[i] as int
  {
    seq(|s|, i requires 0 <= i < |s| => s[i] as int)
  }

  predicate SortedBy<T>(s: seq<T>, key: T -> seq<int>) {
    forall i, j :: 0 <= i < j < |s| ==> LexLe(key(s[i]), key(s[j]))
  }

  /** Inserts `x` before the first element whose key is not smaller than its own. */
  function Insert<T>(x: T, s: seq<T>, key: T -> seq<int>): (r: seq<T>)
    ensures multiset(r) == multiset(s) + multiset{x}
  {
    if |s| == 0 then [x]
    else if LexLe(key(x), key(s[0])) then [x] + s
    else
      assert s == [s[0]] + s[1..];
      [s[0]] + Insert(x, s[1..], key)
  }

  /** Insertion sort: the rows in key order, rows with equal keys kept in input order. */
  function SortByKey<T>(s: seq<T>, key: T -> seq<int>): (r: seq<T>)
    ensures multiset(r) == multiset(s)
  {
    if |s| == 0 then []
    else
      assert s == [s[0]] + s[1..];
      Insert(s[0], SortByKey(s[1..], key), key)
  }

  lemma InsertMembers<T>(x: T, s: seq<T>, key: T -> seq<int>, y: T)
    requires y in Insert(x, s, key)
    ensures y == x || y in s
  {
    assert y in multiset(Insert(x, s, key));
    assert y in multiset(s) + multiset{x};
  }

  /** Every element of `s` is keyed no lower than `low`. */
  predicate AllAbove<T>(low: seq<int>, s: seq<T>, key: T -> seq<int>) {
    forall j :: 0 <= j < |s| ==> LexLe(low, key(s[j]))
  }

  lemma InsertAbove<T>(low: seq<int>, x: T, s: seq<T>, key: T -> seq<int>)
    requires AllAbove(low, s, key) && LexLe(low, key(x))
    ensures AllAbove(low, Insert(x, s, key), key)
  {
    var r := Insert(x, s, key);
    forall j | 0 <= j < |r| ensures LexLe(low, key(r[j])) {
      InsertMembers(x, s, key, r[j]);
    }
  }

  lemma SortedCons<T>(y: T, t: seq<T>, key: T -> seq<int>)
    requires SortedBy(t, key) && AllAbove(key(y), t, key)
    ensures SortedBy([y] + t, key)
  {
    var r := [y] + t;
    forall i, j | 0 <= i < j < |r| ensures LexLe(key(r[i]), key(r[j])) {
      if i > 0 { assert r[i] == t[i - 1] && r[j] == t[j - 1]; }
    }
  }

  lemma {:induction false} InsertSorted<T>(x: T, s: seq<T>, key: T -> seq<int>)
    requires SortedBy(s, key)
    ensures SortedBy(Insert(x, s, key), key)
  {
    if |s| == 0 {
    } else if LexLe(key(x), key(s[0])) {
      forall j | 0 <= j < |s| ensures LexLe(key(x), key(s[j])) {
        if j > 0 { LexTrans(key(x), key(s[0]), key(s[j])); }
      }
      SortedCons(x, s, key);
    } else {
      LexTotal(key(x), key(s[0]));
      InsertSorted(x, s[1..], key);
      assert AllAbove(key(s[0]), s[1..], key) by {
        forall j | 0 <= j < |s[1..]| ensures LexLe(key(s[0]), key(s[1..][j])) {
          assert s[1..][j] == s[j + 1];
        }
      }
      InsertAbove(key(s[0]), x, s[1..], key);
      SortedCons(s[0], Insert(x, s[1..], key), key);
    }
  }

  /** The sorted rows are in key order and are exactly the input rows, with multiplicity. */
  lemma {:induction false} SortByKeySpec<T>(s: seq<T>, key: T -> seq<int>)
    ensures SortedBy(SortByKey(s, key), key)
    ensures |SortByKey(s, key)| == |s|
    ensures forall x :: x in SortByKey(s, key) <==> x in s
  {
    var r := SortByKey(s, key);
    assert |r| == |multiset(r)| == |multiset(s)| == |s|;
    forall x ensures x in r <==> x in s {
      assert x in r <==> x in multiset(r);
      assert x in s <==> x in multiset(s);
    }
    if |s| > 0 {
      SortByKeySpec(s[1..], key);
      InsertSorted(s[0], SortByKey(s[1..], key), key);
    }
  }

  /** A sorted sequence's first element has the least key. */
  lemma SortedFirstLeast<T>(s: seq<T>, key: T -> seq<int>)
    requires SortedBy(s, key) && |s| > 0
    ensures forall j :: 0 <= j < |s| ==> LexLe(key(s[0]), key(s[j]))
  {
    forall j | 0 <= j < |s| ensures LexLe(key(s[0]), key(s[j])) {
      if j == 0 { LexRefl(key(s[0])); }
    }
  }

  lemma {:induction false} LexRefl(a: seq<int>)
    ensures LexLe(a, a)
    decreases |a|
  {
    if |a| > 0 { LexRefl(a[1..]); }
  }
}
