/** Values shared by every part of the storefront model. */
module Common {

  datatype Option<T> = None | Some(value: T)

  /** The outcome of an operation that either yields a value or fails with a message. */
  datatype Result<T> = Ok(value: T) | Err(message: string)

  /** The outcome of an operation that yields nothing but may fail with a message. */
  datatype Outcome = Done | Failed(message: string)

  /** A JavaScript `number | string` identifier; `===` never equates a number with a string. */
  datatype Id = Num(n: int) | Str(s: string)

  /** An optional numeric field as JavaScript sees it: missing, `null`, or a number. */
  datatype JsNum = Undef | Null | Val(v: int)

  /** JavaScript truthiness of a number field: `0`, `null` and `undefined` are falsy. */
  predicate Truthy(x: JsNum) {
    x.Val? && x.v != 0
  }

  /** JavaScript truthiness of an id. */
  predicate IdTruthy(x: Id) {
    match x
    case Num(n) => n != 0
    case Str(s) => s != ""
  }

  /** JavaScript `a || b` on number fields. */
  function Or(a: JsNum, b: JsNum): (r: JsNum)
    ensures Truthy(a) ==> r == a
    ensures !Truthy(a) ==> r == b
  {
    if Truthy(a) then a else b
  }

  /** JavaScript `a ?? b`: only `null` and `undefined` fall through; `0` is kept. */
  function Coalesce(a: JsNum, b: JsNum): (r: JsNum)
    ensures a.Val? ==> r == a
    ensures !a.Val? ==> r == b
  {
    if a.Val? then a else b
  }

  /** The number a field stands for once a final `|| d` or `?? d` has supplied a default. */
  function NumOr(x: JsNum, d: int): int {
    if x.Val? then x.v else d
  }

  /**
   * JavaScript `xs[0] || xs[1] || ... || dflt` over number fields: the first truthy
   * value, or `dflt` when none is truthy.
   */
  function FirstTruthy(xs: seq<JsNum>, dflt: int): (r: int)
    ensures (forall i :: 0 <= i < |xs| ==> !Truthy(xs[i])) ==> r == dflt
    ensures forall i :: 0 <= i < |xs| && Truthy(xs[i]) && (forall j :: 0 <= j < i ==> !Truthy(xs[j])) ==> r == xs[i].v
  {
    if |xs| == 0 then dflt
    else if Truthy(xs[0]) then xs[0].v
    else FirstTruthy(xs[1..], dflt)
  }

  /** The members of `s` in order, each first occurrence kept (JavaScript `[...new Set(s)]`). */
  function Dedup<T(==,!new)>(s: seq<T>): seq<T> {
    AppendNew([], s)
  }

  /** Appends to `acc`, in order, each element of `s` not yet present. */
  function AppendNew<T(==,!new)>(acc: seq<T>, s: seq<T>): (r: seq<T>)
    ensures |acc| <= |r| && r[..|acc|] == acc
    ensures forall x :: x in r <==> x in acc || x in s
    decreases |s|
  {
    if |s| == 0 then acc
    else if s[0] in acc then AppendNew(acc, s[1..])
    else
      var r := AppendNew(acc + [s[0]], s[1..]);
      assert r[..|acc| + 1][|acc|] == s[0];
      r
  }

  predicate NoDup<T(==)>(s: seq<T>) {
    forall i, j :: 0 <= i < j < |s| ==> s[i] != s[j]
  }

  lemma {:induction false} AppendNewNoDup<T(!new)>(acc: seq<T>, s: seq<T>)
    requires NoDup(acc)
    ensures NoDup(AppendNew(acc, s))
    decreases |s|
  {
    if |s| > 0 {
      if s[0] in acc {
        AppendNewNoDup(acc, s[1..]);
      } else {
        AppendNewNoDup(acc + [s[0]], s[1..]);
      }
    }
  }

  /** `Dedup` yields no repeated element and exactly the elements of its input. */
  lemma DedupSpec<T(!new)>(s: seq<T>)
    ensures NoDup(Dedup(s))
    ensures forall x :: x in Dedup(s) <==> x in s
  {
    AppendNewNoDup([], s);
  }

  /** Deduplicating a duplicate-free prefix followed by more elements keeps the prefix and appends the new ones. */
  lemma {:induction false} DedupAppend<T(!new)>(a: seq<T>, b: seq<T>)
    requires NoDup(a)
    ensures Dedup(a + b) == AppendNew(a, b)
  {
    assert [] + a == a;
    DedupPrefix([], a, b);
  }

  lemma {:induction false} DedupPrefix<T(!new)>(acc: seq<T>, a: seq<T>, b: seq<T>)
    requires NoDup(acc + a)
    ensures AppendNew(acc, a + b) == AppendNew(acc + a, b)
    decreases |a|
  {
    if |a| > 0 {
      assert (a + b)[0] == a[0];
      assert (a + b)[1..] == a[1..] + b;
      assert a[0] !in acc by {
        assert (acc + a)[|acc|] == a[0];
        forall k | 0 <= k < |acc| ensures acc[k] != a[0] {
          assert (acc + a)[k] == acc[k];
        }
      }
      assert acc + [a[0]] + a[1..] == acc + a;
      DedupPrefix(acc + [a[0]], a[1..], b);
    } else {
      assert a + b == b;
      assert acc + a == acc;
    }
  }

  /** JavaScript `findIndex`: the position of the first element satisfying `p`, if any. */
  function Find<T>(s: seq<T>, p: T -> bool): (r: Option<nat>)
    ensures r.Some? ==> r.value < |s| && p(s[r.value])
    ensures r.Some? ==> forall j :: 0 <= j < r.value ==> !p(s[j])
    ensures r.None? ==> forall j :: 0 <= j < |s| ==> !p(s[j])
  {
    if |s| == 0 then None
    else if p(s[0]) then Some(0)
    else match Find(s[1..], p)
      case None => None
      case Some(i) => Some(i + 1)
  }

  /** JavaScript `filter`: the elements satisfying `p`, in their original order. */
  function Filter<T(!new)>(s: seq<T>, p: T -> bool): (r: seq<T>)
    ensures |r| <= |s|
    ensures forall x :: x in r <==> x in s && p(x)
  {
    if |s| == 0 then []
    else if p(s[0]) then [s[0]] + Filter(s[1..], p)
    else Filter(s[1..], p)
  }

  lemma {:induction false} FilterAppend<T(!new)>(a: seq<T>, b: seq<T>, p: T -> bool)
    ensures Filter(a + b, p) == Filter(a, p) + Filter(b, p)
  {
    if |a| == 0 {
      assert a + b == b;
    } else {
      assert (a + b)[0] == a[0];
      assert (a + b)[1..] == a[1..] + b;
      FilterAppend(a[1..], b, p);
    }
  }

  /** Filtering keeps everything exactly when every element passes. */
  lemma {:induction false} FilterAll<T(!new)>(s: seq<T>, p: T -> bool)
    requires forall i :: 0 <= i < |s| ==> p(s[i])
    ensures Filter(s, p) == s
  {
    if |s| > 0 {
      FilterAll(s[1..], p);
    }
  }

  lemma {:induction false} FilterNone<T(!new)>(s: seq<T>, p: T -> bool)
    requires forall i :: 0 <= i < |s| ==> !p(s[i])
    ensures Filter(s, p) == []
  {
    if |s| > 0 {
      FilterNone(s[1..], p);
    }
  }

  /** A `.single()` lookup: the one element satisfying `p`, or nothing when none or several do. */
  function Single<T(!new)>(s: seq<T>, p: T -> bool): (r: Option<T>)
    ensures r.Some? <==> |Filter(s, p)| == 1
    ensures r.Some? ==> r.value in s && p(r.value)
  {
    var m := Filter(s, p);
    if |m| == 1 then Some(m[0]) else None
  }

  /** With exactly one element satisfying `p`, `Single` finds that element. */
  lemma {:induction false} SingleUnique<T(!new)>(s: seq<T>, p: T -> bool, k: nat)
    requires k < |s| && p(s[k])
    requires forall j :: 0 <= j < |s| && j != k ==> !p(s[j])
    ensures Single(s, p) == Some(s[k])
  {
    assert s == s[..k] + [s[k]] + s[k + 1..];
    FilterAppend(s[..k] + [s[k]], s[k + 1..], p);
    FilterAppend(s[..k], [s[k]], p);
    FilterNone(s[..k], p);
    var t := s[k + 1..];
    assert forall j :: 0 <= j < |t| ==> !p(t[j]) by {
      forall j | 0 <= j < |t| ensures !p(t[j]) {
        assert t[j] == s[k + 1 + j];
      }
    }
    FilterNone(s[k + 1..], p);
    assert Filter([s[k]], p) == [s[k]];
  }

  /** With no element satisfying `p`, `Single` finds nothing. */
  lemma SingleNone<T(!new)>(s: seq<T>, p: T -> bool)
    requires forall j :: 0 <= j < |s| ==> !p(s[j])
    ensures Single(s, p) == None
  {
    FilterNone(s, p);
  }

  lemma ConcatAssoc<T>(a: seq<T>, b: seq<T>, c: seq<T>)
    ensures a + b + c == a + (b + c)
  {
  }

  /** The first element satisfying `p` is the one `Find` reports. */
  lemma {:induction false} FindFirst<T>(s: seq<T>, p: T -> bool, i: nat)
    requires i < |s| && p(s[i])
    requires forall j :: 0 <= j < i ==> !p(s[j])
    ensures Find(s, p) == Some(i)
  {
    if i > 0 {
      var t := s[1..];
      assert t[i - 1] == s[i];
      forall j | 0 <= j < i - 1 ensures !p(t[j]) {
        assert t[j] == s[j + 1];
      }
      FindFirst(t, p, i - 1);
    }
  }

  /** In a sequence without repeats every element occurs at most once. */
  lemma {:induction false} NoDupCount<T>(s: seq<T>, x: T)
    requires NoDup(s)
    ensures multiset(s)[x] <= 1
  {
    if |s| > 0 {
      var t := s[1..];
      assert s == [s[0]] + t;
      assert NoDup(t) by {
        forall i, j | 0 <= i < j < |t| ensures t[i] != t[j] {
          assert t[i] == s[i + 1] && t[j] == s[j + 1];
        }
      }
      NoDupCount(t, x);
      if s[0] == x {
        assert x !in t by {
          forall j | 0 <= j < |t| ensures t[j] != x { assert t[j] == s[j + 1]; }
        }
      }
    }
  }

  /** A sequence in which every element occurs at most once has no repeats. */
  lemma {:induction false} CountNoDup<T>(s: seq<T>)
    requires forall x :: multiset(s)[x] <= 1
    ensures NoDup(s)
  {
    if |s| > 0 {
      var t := s[1..];
      assert s == [s[0]] + t;
      assert forall x :: multiset(t)[x] <= multiset(s)[x];
      CountNoDup(t);
      assert multiset(t)[s[0]] == 0;
      forall i, j | 0 <= i < j < |s| ensures s[i] != s[j] {
        assert s[j] == t[j - 1];
        if i > 0 { assert s[i] == t[i - 1]; }
      }
    }
  }

  /** Rearranging a sequence without repeats gives a sequence without repeats. */
  lemma PermutationNoDup<T>(a: seq<T>, b: seq<T>)
    requires multiset(a) == multiset(b) && NoDup(a)
    ensures NoDup(b)
  {
    forall x ensures multiset(b)[x] <= 1 {
      NoDupCount(a, x);
    }
    CountNoDup(b);
  }

  /** Appending one more element to the input of `AppendNew` appends it to the output unless already there. */
  lemma {:induction false} AppendNewSnoc<T(!new)>(acc: seq<T>, s: seq<T>, x: T)
    ensures AppendNew(acc, s + [x]) == if x in AppendNew(acc, s) then AppendNew(acc, s) else AppendNew(acc, s) + [x]
    decreases |s|
  {
    if |s| == 0 {
      assert s + [x] == [x];
      assert [x][1..] == [];
    } else {
      assert (s + [x])[0] == s[0];
      assert (s + [x])[1..] == s[1..] + [x];
      if s[0] in acc {
        AppendNewSnoc(acc, s[1..], x);
      } else {
        AppendNewSnoc(acc + [s[0]], s[1..], x);
      }
    }
  }

  /** `Dedup` of a sequence extended by one element. */
  lemma DedupSnoc<T(!new)>(s: seq<T>, x: T)
    ensures Dedup(s + [x]) == if x in s then Dedup(s) else Dedup(s) + [x]
  {
    AppendNewSnoc([], s, x);
  }

  /** Filtering with two tests that agree on every element gives the same result. */
  lemma {:induction false} FilterCongruent<T(!new)>(s: seq<T>, p: T -> bool, q: T -> bool)
    requires forall i :: 0 <= i < |s| ==> p(s[i]) == q(s[i])
    ensures Filter(s, p) == Filter(s, q)
  {
    if |s| > 0 {
      FilterCongruent(s[1..], p, q);
    }
  }

  /** Two elements that pass put at least two elements in the result. */
  lemma FilterAtLeastTwo<T(!new)>(s: seq<T>, p: T -> bool, i: nat, j: nat)
    requires i < j < |s| && p(s[i]) && p(s[j])
    ensures |Filter(s, p)| >= 2
  {
    assert s == s[..j] + s[j..];
    FilterAppend(s[..j], s[j..], p);
    assert s[..j][i] == s[i];
    assert s[j..][0] == s[j];
  }

  /** No two elements of `s` share a key. */
  predicate KeysUnique<T, K(==)>(s: seq<T>, key: T -> K) {
    forall i, j :: 0 <= i < j < |s| ==> key(s[i]) != key(s[j])
  }

  /** Filtering never makes two elements share a key. */
  lemma {:induction false} FilterKeysUnique<T(!new), K>(s: seq<T>, p: T -> bool, key: T -> K)
    requires KeysUnique(s, key)
    ensures KeysUnique(Filter(s, p), key)
  {
    if |s| > 0 {
      var t := s[1..];
      assert KeysUnique(t, key) by {
        forall i, j | 0 <= i < j < |t| ensures key(t[i]) != key(t[j]) {
          assert t[i] == s[i + 1] && t[j] == s[j + 1];
        }
      }
      FilterKeysUnique(t, p, key);
      if p(s[0]) {
        var rest := Filter(t, p);
        var r := [s[0]] + rest;
        forall j | 0 <= j < |rest| ensures key(s[0]) != key(rest[j]) {
          assert rest[j] in t;
          var k :| 0 <= k < |t| && t[k] == rest[j];
          assert t[k] == s[k + 1];
        }
        forall i, j | 0 <= i < j < |r| ensures key(r[i]) != key(r[j]) {
          assert r[j] == rest[j - 1];
          if i > 0 {
            assert r[i] == rest[i - 1];
          }
        }
      }
    }
  }

  /** Appending an element whose key is new keeps the keys unique. */
  lemma AppendKeysUnique<T, K>(s: seq<T>, x: T, key: T -> K)
    requires KeysUnique(s, key)
    requires forall i :: 0 <= i < |s| ==> key(s[i]) != key(x)
    ensures KeysUnique(s + [x], key)
  {
    var r := s + [x];
    forall i, j | 0 <= i < j < |r| ensures key(r[i]) != key(r[j]) {
      assert r[i] == s[i];
      if j < |s| {
        assert r[j] == s[j];
      }
    }
  }

  /** JavaScript `map(f)`: the element-wise image, in order. */
  function Map<T, U>(s: seq<T>, f: T -> U): (r: seq<U>)
    ensures |r| == |s| && forall i :: 0 <= i < |s| ==> r[i] == f(s[i])
  {
    if |s| == 0 then [] else [f(s[0])] + Map(s[1..], f)
  }

  /** JavaScript `reduce((sum, x) => sum + f(x), 0)`. */
  function SumOf<T>(s: seq<T>, f: T -> int): int {
    if |s| == 0 then 0 else f(s[0]) + SumOf(s[1..], f)
  }

  lemma {:induction false} SumOfAppend<T>(a: seq<T>, b: seq<T>, f: T -> int)
    ensures SumOf(a + b, f) == SumOf(a, f) + SumOf(b, f)
  {
    if |a| == 0 {
      assert a + b == b;
    } else {
      assert (a + b)[0] == a[0];
      assert (a + b)[1..] == a[1..] + b;
      SumOfAppend(a[1..], b, f);
    }
  }

  /** Replacing one element changes the sum by the difference of the two terms. */
  lemma SumOfUpdate<T>(s: seq<T>, k: nat, x: T, f: T -> int)
    requires k < |s|
    ensures SumOf(s[k := x], f) == SumOf(s, f) - f(s[k]) + f(x)
  {
    assert s == s[..k] + [s[k]] + s[k + 1..];
    assert s[k := x] == s[..k] + [x] + s[k + 1..];
    SumOfAppend(s[..k] + [s[k]], s[k + 1..], f);
    SumOfAppend(s[..k], [s[k]], f);
    SumOfAppend(s[..k] + [x], s[k + 1..], f);
    SumOfAppend(s[..k], [x], f);
  }

  /** Every earlier element is related to every later one. */
  predicate Pairwise<T>(s: seq<T>, rel: (T, T) -> bool) {
    forall i, j :: 0 <= i < j < |s| ==> rel(s[i], s[j])
  }

  /** Filtering keeps the order of what it keeps, so it keeps a pairwise relation. */
  lemma {:induction false} FilterPairwise<T(!new)>(s: seq<T>, p: T -> bool, rel: (T, T) -> bool)
    requires Pairwise(s, rel)
    ensures Pairwise(Filter(s, p), rel)
  {
    if |s| > 0 {
      var t := s[1..];
      assert Pairwise(t, rel) by {
        forall i, j | 0 <= i < j < |t| ensures rel(t[i], t[j]) {
          assert t[i] == s[i + 1] && t[j] == s[j + 1];
        }
      }
      FilterPairwise(t, p, rel);
      if p(s[0]) {
        var rest := Filter(t, p);
        var r := [s[0]] + rest;
        forall j | 0 <= j < |rest| ensures rel(s[0], rest[j]) {
          assert rest[j] in t;
          var k :| 0 <= k < |t| && t[k] == rest[j];
          assert t[k] == s[k + 1];
        }
        forall i, j | 0 <= i < j < |r| ensures rel(r[i], r[j]) {
          assert r[j] == rest[j - 1];
          if i > 0 {
            assert r[i] == rest[i - 1];
          }
        }
      }
    }
  }

  /** When exactly position `i` passes, filtering keeps just that element. */
  lemma {:induction false} FilterOnly<T(!new)>(s: seq<T>, p: T -> bool, i: nat)
    requires i < |s| && p(s[i])
    requires forall j :: 0 <= j < |s| && j != i ==> !p(s[j])
    ensures Filter(s, p) == [s[i]]
  {
    assert s == s[..i] + [s[i]] + s[i + 1..];
    var a, b := s[..i], s[i + 1..];
    forall j | 0 <= j < |a| ensures !p(a[j]) { assert a[j] == s[j]; }
    forall j | 0 <= j < |b| ensures !p(b[j]) { assert b[j] == s[i + 1 + j]; }
    FilterNone(a, p);
    FilterNone(b, p);
    FilterAppend(a + [s[i]], b, p);
    FilterAppend(a, [s[i]], p);
  }

  /** De-duplicating a concatenation keeps the de-duplicated first part as a prefix. */
  lemma {:induction false} DedupConcat<T(!new)>(a: seq<T>, b: seq<T>)
    ensures Dedup(a + b) == AppendNew(Dedup(a), b)
    decreases |b|
  {
    if |b| == 0 {
      assert a + b == a;
    } else {
      var b', x := b[..|b| - 1], b[|b| - 1];
      assert b == b' + [x];
      assert a + b == (a + b') + [x];
      DedupConcat(a, b');
      DedupSnoc(a + b', x);
      AppendNewSnoc(Dedup(a), b', x);
      DedupSpec(a);
    }
  }
}
