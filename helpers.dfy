/** The string helpers of `src/utils/helpers.ts`: `slugify`, `truncate` and `getImageUrl`. */
module Helpers {
  import opened Common
  import opened Text

  /** The characters the regular expression class `\w` matches: ASCII letters, digits and `_`. */
  predicate IsWordChar(c: char) {
    ('a' <= c <= 'z') || ('A' <= c <= 'Z') || ('0' <= c <= '9') || c == '_'
  }

  /** The characters `replace(/[^\w ]+/g, '')` leaves in place. */
  predicate Kept(c: char) {
    IsWordChar(c) || c == ' '
  }

  /** `replace(/[^\w ]+/g, '')`: every character other than a word character or a space is deleted. */
  function KeepWordAndSpace(s: string): (r: string)
    ensures forall i :: 0 <= i < |r| ==> IsWordChar(r[i]) || r[i] == ' '
    ensures |r| <= |s|
    ensures r == Filter(s, Kept)
  {
    if |s| == 0 then ""
    else if IsWordChar(s[0]) || s[0] == ' ' then [s[0]] + KeepWordAndSpace(s[1..])
    else KeepWordAndSpace(s[1..])
  }

  /** Drops the leading spaces of `s`. */
  function DropSpaces(s: string): (r: string)
    ensures |r| <= |s| && r == s[|s| - |r|..]
    ensures r == [] || r[0] != ' '
  {
    if |s| > 0 && s[0] == ' ' then DropSpaces(s[1..]) else s
  }

  /** `replace(/ +/g, '-')`: each maximal run of spaces becomes a single hyphen. */
  function CollapseSpaces(s: string): (r: string)
    decreases |s|
  {
    if |s| == 0 then ""
    else if s[0] == ' ' then "-" + CollapseSpaces(DropSpaces(s[1..]))
    else [s[0]] + CollapseSpaces(s[1..])
  }

  /** `slugify(text)`. */
  function Slugify(text: string): string {
    CollapseSpaces(KeepWordAndSpace(Lower(text)))
  }

  /** The characters a slug is made of. */
  predicate SlugChar(c: char) {
    ('a' <= c <= 'z') || ('0' <= c <= '9') || c == '_' || c == '-'
  }

  /** A slug: lower-case letters, digits, `_` and `-`, with no two hyphens in a row. */
  predicate IsSlug(r: string) {
    (forall i :: 0 <= i < |r| ==> SlugChar(r[i]))
    && (forall i :: 0 <= i < |r| - 1 ==> !(r[i] == '-' && r[i + 1] == '-'))
  }

  /** The characters left once a lower-cased text has lost everything but word characters and spaces. */
  predicate CleanChar(c: char) {
    ('a' <= c <= 'z') || ('0' <= c <= '9') || c == '_' || c == ' '
  }

  lemma {:induction false} KeepWordOfLower(s: string)
    requires forall i :: 0 <= i < |s| ==> !('A' <= s[i] <= 'Z')
    ensures forall i :: 0 <= i < |KeepWordAndSpace(s)| ==> CleanChar(KeepWordAndSpace(s)[i])
  {
    if |s| > 0 { KeepWordOfLower(s[1..]); }
  }

  /** Collapsing the spaces of a clean text leaves only slug characters. */
  lemma {:induction false} CollapseChars(s: string)
    requires forall i :: 0 <= i < |s| ==> CleanChar(s[i])
    ensures forall i :: 0 <= i < |CollapseSpaces(s)| ==> SlugChar(CollapseSpaces(s)[i])
    decreases |s|
  {
    if |s| > 0 {
      if s[0] == ' ' {
        CollapseChars(DropSpaces(s[1..]));
      } else {
        CollapseChars(s[1..]);
      }
    }
  }

  /** Collapsing the spaces of a hyphen-free text never puts two hyphens side by side, nor a hyphen first unless a space was. */
  lemma {:induction false} CollapseNoDoubleHyphen(s: string)
    requires '-' !in s
    ensures var r := CollapseSpaces(s);
      (forall i :: 0 <= i < |r| - 1 ==> !(r[i] == '-' && r[i + 1] == '-'))
      && (|r| > 0 && r[0] == '-' ==> s[0] == ' ')
      && ' ' !in r
    decreases |s|
  {
    if |s| > 0 {
      var t := if s[0] == ' ' then DropSpaces(s[1..]) else s[1..];
      assert '-' !in t;
      CollapseNoDoubleHyphen(t);
      var rest := CollapseSpaces(t);
      var r := CollapseSpaces(s);
      assert r == [if s[0] == ' ' then '-' else s[0]] + rest;
      forall i | 0 <= i < |r| - 1 ensures !(r[i] == '-' && r[i + 1] == '-') {
        if i > 0 {
          assert r[i] == rest[i - 1] && r[i + 1] == rest[i];
        } else if s[0] == ' ' {
          assert |rest| > 0 ==> t[0] != ' ' && rest[0] != '-';
        }
      }
    }
  }

  /** Every slug is lower-case, made of letters, digits, `_` and `-`, with no space and no `--`. */
  lemma SlugifyIsSlug(text: string)
    ensures IsSlug(Slugify(text))
    ensures ' ' !in Slugify(text)
  {
    var low := Lower(text);
    KeepWordOfLower(low);
    var kept := KeepWordAndSpace(low);
    CollapseChars(kept);
    assert '-' !in kept by {
      forall i | 0 <= i < |kept| ensures kept[i] != '-' { assert CleanChar(kept[i]); }
    }
    CollapseNoDoubleHyphen(kept);
  }

  /** A word a slug keeps as it is: lower-case letters, digits and `_`. */
  predicate SlugWord(w: string) {
    forall i :: 0 <= i < |w| ==> ('a' <= w[i] <= 'z') || ('0' <= w[i] <= '9') || w[i] == '_'
  }

  /** Collapsing spaces passes over a space-free prefix unchanged. */
  lemma {:induction false} CollapseWord(a: string, t: string)
    requires ' ' !in a
    ensures CollapseSpaces(a + t) == a + CollapseSpaces(t)
    decreases |a|
  {
    if |a| == 0 {
      assert a + t == t;
    } else {
      assert (a + t)[0] == a[0] && (a + t)[1..] == a[1..] + t;
      CollapseWord(a[1..], t);
    }
  }

  /** A text of slug words, spaces and hyphens is its own lower-case form. */
  lemma LowerOfClean(s: string)
    requires forall i :: 0 <= i < |s| ==> ('a' <= s[i] <= 'z') || ('0' <= s[i] <= '9') || s[i] == '_' || s[i] == ' ' || s[i] == '-'
    ensures Lower(s) == s
  {
  }

  /** A slug word is its own slug. */
  lemma SlugifyKeepsWord(w: string)
    requires SlugWord(w)
    ensures Slugify(w) == w
  {
    LowerOfClean(w);
    FilterAll(w, Kept);
    CollapseWord(w, "");
    assert w + "" == w;
  }

  /** The characters of `a + sep + b` for slug words `a`, `b` and a separator of spaces and hyphens. */
  lemma CleanJoin(a: string, sep: string, b: string)
    requires SlugWord(a) && SlugWord(b)
    ensures var s := a + sep + b;
      forall i :: 0 <= i < |s| ==> ('a' <= s[i] <= 'z') || ('0' <= s[i] <= '9') || s[i] == '_' || s[i] in sep
  {
    var s := a + sep + b;
    forall i | 0 <= i < |s|
      ensures ('a' <= s[i] <= 'z') || ('0' <= s[i] <= '9') || s[i] == '_' || s[i] in sep
    {
      if i < |a| {
        assert s[i] == a[i];
      } else if i < |a| + |sep| {
        assert s[i] == sep[i - |a|];
      } else {
        assert s[i] == b[i - |a| - |sep|];
      }
    }
  }

  /** A text of slug words around spaces loses nothing to lower-casing and the character filter. */
  lemma KeepsClean(s: string)
    requires forall i :: 0 <= i < |s| ==> ('a' <= s[i] <= 'z') || ('0' <= s[i] <= '9') || s[i] == '_' || s[i] == ' '
    ensures KeepWordAndSpace(Lower(s)) == s
  {
    LowerOfClean(s);
    FilterAll(s, Kept);
  }

  /** A space before a slug word becomes one hyphen. */
  lemma CollapseSpaceWord(b: string)
    requires SlugWord(b) && |b| > 0
    ensures CollapseSpaces(" " + b) == "-" + b
  {
    var t := " " + b;
    assert t[0] == ' ' && t[1..] == b;
    assert DropSpaces(b) == b;
    CollapseWord(b, "");
    assert b + "" == b;
  }

  /** Two slug words with one space between them are joined by one hyphen. */
  lemma SlugifyJoinsWords(a: string, b: string)
    requires SlugWord(a) && SlugWord(b) && |b| > 0
    ensures Slugify(a + " " + b) == a + "-" + b
  {
    var t := " " + b;
    var s := a + t;
    assert s == a + " " + b;
    forall i | 0 <= i < |s|
      ensures ('a' <= s[i] <= 'z') || ('0' <= s[i] <= '9') || s[i] == '_' || s[i] == ' '
    {
      if i < |a| {
        assert s[i] == a[i];
      } else if i > |a| {
        assert s[i] == b[i - |a| - 1];
      }
    }
    KeepsClean(s);
    assert Slugify(s) == CollapseSpaces(s);
    CollapseWord(a, t);
    CollapseSpaceWord(b);
  }

  /** The filter keeps a slug word whole. */
  lemma FilterWord(a: string)
    requires SlugWord(a)
    ensures Filter(a, Kept) == a
  {
    FilterAll(a, Kept);
  }

  /** The filter splits over the pieces of `a + "-" + b`. */
  lemma FilterAroundHyphen(a: string, b: string)
    ensures Filter(a + "-" + b, Kept) == Filter(a, Kept) + Filter("-", Kept) + Filter(b, Kept)
  {
    FilterAppend(a + "-", b, Kept);
    FilterAppend(a, "-", Kept);
  }

  /** The filter deletes the hyphen between two slug words. */
  lemma FilterHyphen(a: string, b: string)
    requires SlugWord(a) && SlugWord(b)
    ensures Filter(a + "-" + b, Kept) == a + b
  {
    FilterAroundHyphen(a, b);
    FilterWord(a);
    FilterWord(b);
    var h: string := "-";
    assert !Kept(h[0]) && h[1..] == [];
    assert Filter(h, Kept) == [];
    assert a + [] == a;
  }

  /** A hyphen in the text is deleted, not kept: two slug words around one hyphen run together. */
  lemma SlugifyDeletesHyphen(a: string, b: string)
    requires SlugWord(a) && SlugWord(b)
    ensures Slugify(a + "-" + b) == a + b
  {
    var s := a + "-" + b;
    CleanJoin(a, "-", b);
    LowerOfClean(s);
    FilterHyphen(a, b);
    assert ' ' !in a + b by {
      forall i | 0 <= i < |a + b| ensures (a + b)[i] != ' ' {
        if i < |a| { assert (a + b)[i] == a[i]; } else { assert (a + b)[i] == b[i - |a|]; }
      }
    }
    CollapseWord(a + b, "");
    assert a + b + "" == a + b;
  }

  /** `truncate(text, length)`; a negative length cuts to the empty prefix, as `substring` does. */
  function Truncate(text: string, length: int): (r: string)
    ensures |text| <= length ==> r == text
    ensures |text| > length ==>
      var n := if length < 0 then 0 else length;
      |r| == n + 3 && r[..n] == text[..n] && r[n..] == "..."
  {
    if |text| <= length then text
    else
      var n := if length < 0 then 0 else length;
      text[..n] + "..."
  }

  /** `getImageUrl(path, bucket)`: the Supabase storage URL, with `baseUrl` standing for the configured project URL. */
  function ImageUrl(baseUrl: string, path: string, bucket: Option<string>): (r: string)
    ensures StartsWith(path, "http") ==> r == path
    ensures !StartsWith(path, "http") ==>
      var b := if bucket.Some? then bucket.value else "products";
      r == baseUrl + "/storage/v1/object/public/" + b + "/" + path
  {
    if StartsWith(path, "http") then path
    else
      var b := match bucket case Some(x) => x case None => "products";
      baseUrl + "/storage/v1/object/public/" + b + "/" + path
  }

  /** A cut text is never longer than the cut length plus the three dots, keeps the part of the text that fits, and a result longer than the text ends with the dots. */
  lemma TruncateBound(text: string, length: int)
    ensures var n := if length < 0 then 0 else length;
      var r := Truncate(text, length);
      |r| <= n + 3 && (|text| > n ==> r[..n] == text[..n]) && (|r| > |text| ==> r[|r| - 3..] == "...")
  {
  }

  /** Whatever branch is taken, the URL ends with the path it was given. */
  lemma ImageUrlEndsWithPath(baseUrl: string, path: string, bucket: Option<string>)
    ensures var r := ImageUrl(baseUrl, path, bucket);
      |path| <= |r| && r[|r| - |path|..] == path
  {
  }
}
