/**
 * The product page (`src/pages/ProductDetailPage.tsx`): the image list it shows, the
 * variant it selects by default, the colour and size pickers, the quantity stepper, and
 * the price, stock and add-to-cart button derived from the selection.
 * `parseFloat`, `parseInt` and `localeCompare` are parameters.
 */
module ProductDetail {
  import opened Common
  import opened Text
  import opened Catalog
  import CartContext

  const Placeholder := "/placeholder-product.jpg"
  const ColorKey := "Color"
  const SizeKey := "Size"

  // ---------------------------------------------------------------- images

  /** `url.trim()` of every entry. */
  function Trims(s: seq<string>): (r: seq<string>)
    ensures |r| == |s|
    ensures forall i :: 0 <= i < |s| ==> r[i] == Trim(s[i])
  {
    if |s| == 0 then [] else [Trim(s[0])] + Trims(s[1..])
  }

  lemma {:induction false} TrimsAppend(a: seq<string>, b: seq<string>)
    ensures Trims(a + b) == Trims(a) + Trims(b)
  {
    if |a| == 0 {
      assert a + b == b;
    } else {
      assert (a + b)[1..] == a[1..] + b;
      TrimsAppend(a[1..], b);
    }
  }

  predicate NonEmpty(s: string) {
    s != ""
  }

  /** A gallery entry kept beside variant images: its trimmed form differs from the trimmed main image (`undefined` differs from every text). */
  predicate NotMain(url: string, main: Option<string>) {
    main.None? || Trim(url) != Trim(main.value)
  }

  /** `combined`: the variant images then the gallery without the main image, or else the main image and the gallery without falsy entries. */
  function Combined(variantImages: seq<string>, main: Option<string>, gallery: seq<string>): seq<string> {
    if |variantImages| > 0 then variantImages + Filter(gallery, (u: string) => NotMain(u, main))
    else Filter((if main.Some? then [main.value] else []) + gallery, NonEmpty)
  }

  /** The de-duplicated, trimmed, non-empty entries of `combined`, in first-occurrence order. */
  function Normalized(combined: seq<string>): seq<string> {
    Dedup(Filter(Trims(combined), NonEmpty))
  }

  /** What `getDisplayImages` returns. */
  function DisplayImages(variantImages: seq<string>, main: Option<string>, gallery: seq<string>): seq<string> {
    var d := Normalized(Combined(variantImages, main, gallery));
    if |d| > 0 then d else [Placeholder]
  }

  /** One more entry: its trimmed form is appended when it is non-empty and new. */
  lemma NormalizedSnoc(s: seq<string>, x: string)
    ensures Normalized(s + [x]) == if Trim(x) == "" || Trim(x) in Normalized(s) then Normalized(s) else Normalized(s) + [Trim(x)]
  {
    var t := Trim(x);
    var f := Filter(Trims(s), NonEmpty);
    TrimsAppend(s, [x]);
    assert Trims([x]) == [t];
    FilterAppend(Trims(s), [t], NonEmpty);
    if t == "" {
      assert Filter([t], NonEmpty) == [];
      assert f + [] == f;
    } else {
      assert Filter([t], NonEmpty) == [t];
      DedupSpec(f);
      DedupSnoc(f, t);
    }
  }

  /** The loop of `getDisplayImages`: each entry is trimmed and pushed when it is non-empty and not yet in `seen`. */
  method NormalizeUrls(combined: seq<string>) returns (result: seq<string>)
    ensures result == Normalized(combined)
  {
    var seen: set<string> := {};
    result := [];
    for i := 0 to |combined|
      invariant result == Normalized(combined[..i])
      invariant forall x :: x in seen <==> x in result
    {
      var normalized := Trim(combined[i]);
      NormalizeStep(combined, i);
      if normalized != "" && normalized !in seen {
        seen := seen + {normalized};
        result := result + [normalized];
      }
    }
    assert combined[..|combined|] == combined;
  }

  lemma NormalizeStep(combined: seq<string>, i: nat)
    requires i < |combined|
    ensures var t, n := Trim(combined[i]), Normalized(combined[..i]);
      Normalized(combined[..i + 1]) == if t != "" && t !in n then n + [t] else n
  {
    assert combined[..i + 1] == combined[..i] + [combined[i]];
    NormalizedSnoc(combined[..i], combined[i]);
  }

  /** `getDisplayImages`: the normalized `combined` list, or the placeholder when it is empty. */
  method GetDisplayImages(variantImages: seq<string>, main: Option<string>, gallery: seq<string>) returns (result: seq<string>)
    ensures result == DisplayImages(variantImages, main, gallery)
  {
    var combined := Combined(variantImages, main, gallery);
    result := NormalizeUrls(combined);
    if |result| == 0 {
      result := [Placeholder];
    }
  }

  /** `x` is the trimmed form of some entry of `s`. */
  predicate TrimOf(x: string, s: seq<string>) {
    exists y :: y in s && Trim(y) == x
  }

  lemma TrimsOnly(s: seq<string>, x: string)
    requires x in Trims(s)
    ensures TrimOf(x, s)
  {
    var i :| 0 <= i < |Trims(s)| && Trims(s)[i] == x;
    assert s[i] in s;
  }

  lemma TrimsAll(s: seq<string>, y: string)
    requires y in s
    ensures Trim(y) in Trims(s)
  {
    var i :| 0 <= i < |s| && s[i] == y;
    assert Trims(s)[i] == Trim(y);
  }

  lemma TrimsHas(s: seq<string>, x: string)
    ensures x in Trims(s) <==> TrimOf(x, s)
  {
    if x in Trims(s) {
      TrimsOnly(s, x);
    }
    if TrimOf(x, s) {
      var y :| y in s && Trim(y) == x;
      TrimsAll(s, y);
    }
  }

  lemma NormalizedHas(s: seq<string>, x: string)
    ensures x in Normalized(s) <==> x != "" && TrimOf(x, s)
  {
    var f := Filter(Trims(s), NonEmpty);
    DedupSpec(f);
    assert x in f <==> x in Trims(s) && x != "";
    TrimsHas(s, x);
  }

  /** The normalized list has no repeats, and its entries are trimmed and non-empty. */
  lemma NormalizedShape(s: seq<string>)
    ensures NoDup(Normalized(s))
    ensures forall x :: x in Normalized(s) ==> x != "" && Trim(x) == x
  {
    DedupSpec(Filter(Trims(s), NonEmpty));
    forall x | x in Normalized(s) ensures x != "" && Trim(x) == x {
      NormalizedHas(s, x);
      var y :| y in s && Trim(y) == x;
      TrimTrimmed(y);
    }
  }

  lemma PlaceholderTrimmed()
    ensures Trim(Placeholder) == Placeholder
  {
    assert !IsSpace(Placeholder[0]) && !IsSpace(Placeholder[|Placeholder| - 1]);
    assert TrimStart(Placeholder) == Placeholder;
  }

  /** The list is never empty, has no repeats, and every entry is trimmed and non-empty. */
  lemma DisplayImagesShape(variantImages: seq<string>, main: Option<string>, gallery: seq<string>)
    ensures var r := DisplayImages(variantImages, main, gallery);
      |r| >= 1 && NoDup(r) && forall x :: x in r ==> x != "" && Trim(x) == x
  {
    NormalizedShape(Combined(variantImages, main, gallery));
    PlaceholderTrimmed();
  }

  /** With nothing to show, the list is the placeholder alone. */
  lemma DisplayImagesPlaceholder(variantImages: seq<string>, main: Option<string>, gallery: seq<string>)
    requires forall y :: y in Combined(variantImages, main, gallery) ==> Trim(y) == ""
    ensures DisplayImages(variantImages, main, gallery) == [Placeholder]
  {
    var c := Combined(variantImages, main, gallery);
    forall x | x in Normalized(c) ensures false {
      NormalizedHas(c, x);
    }
  }

  /**
   * With variant images, their normalized list comes first; every later entry is a trimmed
   * gallery entry that differs from the trimmed main image.
   */
  lemma VariantImagesFirst(variantImages: seq<string>, main: Option<string>, gallery: seq<string>)
    requires |variantImages| > 0
    ensures var v := Normalized(variantImages); var r := DisplayImages(variantImages, main, gallery);
      |v| <= |r| && r[..|v|] == v
    ensures forall x :: x in Normalized(Combined(variantImages, main, gallery)) && x !in Normalized(variantImages) ==>
      TrimOf(x, gallery) && (main.None? || x != Trim(main.value))
  {
    var g := Filter(gallery, (u: string) => NotMain(u, main));
    var c := variantImages + g;
    assert c == Combined(variantImages, main, gallery);
    TrimsAppend(variantImages, g);
    FilterAppend(Trims(variantImages), Trims(g), NonEmpty);
    DedupConcat(Filter(Trims(variantImages), NonEmpty), Filter(Trims(g), NonEmpty));
    forall x | x in Normalized(c) && x !in Normalized(variantImages)
      ensures TrimOf(x, gallery) && (main.None? || x != Trim(main.value))
    {
      var fv, fg := Filter(Trims(variantImages), NonEmpty), Filter(Trims(g), NonEmpty);
      DedupSpec(fv);
      assert x in AppendNew(Dedup(fv), fg);
      assert x in fg;
      DedupSpec(fg);
      NormalizedHas(g, x);
      var y :| y in g && Trim(y) == x;
    }
  }

  /** The first entry of a non-empty list survives de-duplication in first place. */
  lemma DedupHead(s: seq<string>)
    requires |s| > 0
    ensures |Dedup(s)| > 0 && Dedup(s)[0] == s[0]
  {
    var r := AppendNew([s[0]], s[1..]);
    assert r[..1] == [s[0]];
  }

  /** Without variant images, the main image, when it has text, comes first. */
  lemma MainImageFirst(main: Option<string>, gallery: seq<string>)
    requires main.Some? && Trim(main.value) != ""
    ensures DisplayImages([], main, gallery)[0] == Trim(main.value)
  {
    var m := main.value;
    assert m != "" by { assert Trim("") == ""; }
    var all := [m] + gallery;
    assert all[0] == m;
    var c := Filter(all, NonEmpty);
    assert c == Combined([], main, gallery);
    assert c[0] == m;
    var t := Trims(c);
    assert t[0] == Trim(m);
    var f := Filter(t, NonEmpty);
    assert f[0] == Trim(m);
    DedupHead(f);
  }

  /** Filtering out empty entries does not change which non-empty trimmed forms occur. */
  lemma TrimOfNonEmpty(x: string, s: seq<string>)
    requires x != ""
    ensures TrimOf(x, Filter(s, NonEmpty)) <==> TrimOf(x, s)
  {
    assert Trim("") == "";
    if TrimOf(x, s) {
      var y :| y in s && Trim(y) == x;
      assert y in Filter(s, NonEmpty);
    }
  }

  /** Without variant images, the entries are exactly the non-empty trimmed forms of the main image and of the gallery entries (or the placeholder). */
  lemma MainAndGalleryEntries(main: Option<string>, gallery: seq<string>)
    ensures forall x :: x in DisplayImages([], main, gallery) && x != Placeholder ==>
      (main.Some? && Trim(main.value) == x) || TrimOf(x, gallery)
    ensures forall x :: x != "" && ((main.Some? && Trim(main.value) == x) || TrimOf(x, gallery)) ==> x in DisplayImages([], main, gallery)
  {
    var all := (if main.Some? then [main.value] else []) + gallery;
    var c := Combined([], main, gallery);
    assert c == Filter(all, NonEmpty);
    forall x | x != "" ensures x in Normalized(c) <==> (main.Some? && Trim(main.value) == x) || TrimOf(x, gallery) {
      NormalizedHas(c, x);
      TrimOfNonEmpty(x, all);
      if TrimOf(x, all) {
        var y :| y in all && Trim(y) == x;
        if main.None? || y != main.value {
          assert y in gallery;
        }
      }
      if main.Some? && Trim(main.value) == x {
        assert main.value in all;
      }
      if TrimOf(x, gallery) {
        var y :| y in gallery && Trim(y) == x;
        assert y in all;
      }
    }
    forall x | x in DisplayImages([], main, gallery) && x != Placeholder
      ensures (main.Some? && Trim(main.value) == x) || TrimOf(x, gallery)
    {
      NormalizedShape(c);
    }
  }

  // ---------------------------------------------------------------- attributes

  /** `keys[i]` is the first key with a non-empty value. */
  predicate FirstSetAt(attrs: map<string, string>, keys: seq<string>, i: nat) {
    i < |keys| && keys[i] in attrs && attrs[keys[i]] != "" &&
    forall j :: 0 <= j < i ==> keys[j] !in attrs || attrs[keys[j]] == ""
  }

  /** The first non-empty value among `keys`, or the empty text: `attrs[k1] || attrs[k2] || ...` as the page uses it. */
  function FirstAttr(attrs: map<string, string>, keys: seq<string>): (r: string)
    ensures r != "" ==> exists i :: 0 <= i < |keys| && keys[i] in attrs && attrs[keys[i]] == r
    ensures forall i: nat :: FirstSetAt(attrs, keys, i) ==> r == attrs[keys[i]]
  {
    if |keys| == 0 then ""
    else if keys[0] in attrs && attrs[keys[0]] != "" then attrs[keys[0]]
    else FirstAttr(attrs, keys[1..])
  }

  /** `key.charAt(0).toUpperCase() + key.slice(1).toLowerCase()`. */
  function Capitalize(key: string): string {
    if |key| == 0 then "" else Upper(key[..1]) + Lower(key[1..])
  }

  /** `getVariantAttr` of `loadProduct`: the key as given, lower-cased, then capitalized. */
  function VariantAttr(v: Variant, key: string): string {
    FirstAttr(v.attributes, [key, Lower(key), Capitalize(key)])
  }

  /** `getAttr` of the pickers: the key as given, then lower-cased. */
  function GetAttr(v: Variant, key: string): string {
    FirstAttr(v.attributes, [key, Lower(key)])
  }

  /** For an already capitalized key such as `Color` or `Size` both lookups agree. */
  lemma AttrLookupsAgree(v: Variant, key: string)
    requires Capitalize(key) == key
    ensures VariantAttr(v, key) == GetAttr(v, key)
  {
    var a := v.attributes;
    if key in a && a[key] != "" {
    } else if Lower(key) in a && a[Lower(key)] != "" {
      assert FirstAttr(a, [key, Lower(key), key]) == FirstAttr(a, [Lower(key), key]);
    } else {
      assert FirstAttr(a, [key, Lower(key), key]) == FirstAttr(a, [Lower(key), key]) == FirstAttr(a, [key]);
      assert FirstAttr(a, [key, Lower(key)]) == FirstAttr(a, [Lower(key)]) == FirstAttr(a, []);
    }
  }

  lemma CapitalizedKeys()
    ensures Capitalize(ColorKey) == "Color" && Capitalize(SizeKey) == "Size"
  {
    assert Upper("C") == "C" && Lower("olor") == "olor";
    assert Upper("S") == "S" && Lower("ize") == "ize";
  }

  // ---------------------------------------------------------------- default variant

  /** `['white', 'black'].indexOf(colour)`. */
  function ColorPriority(lowerColor: string): Option<nat> {
    if lowerColor == "white" then Some(0) else if lowerColor == "black" then Some(1) else None
  }

  /** White 0, black 1, every other colour 2. */
  function Rank(v: Variant): nat {
    match ColorPriority(Lower(VariantAttr(v, ColorKey)))
    case Some(k) => k
    case None => 2
  }

  const SizeTable: seq<string> := ["XXS", "XS", "S", "M", "L", "XL", "XXL", "2XL", "3XL", "4XL"]

  function Sign(x: real): int {
    if x < 0.0 then -1 else if x > 0.0 then 1 else 0
  }

  /**
   * The size comparison: numeric when both sizes parse, else by the table when both are in
   * it, else `localeCompare`. Only the sign of the result is used.
   */
  function CompareSizes(a: string, b: string, parse: string -> Option<real>, locale: (string, string) -> int): (r: int)
    ensures parse(a).Some? && parse(b).Some? ==> (r < 0 <==> parse(a).value < parse(b).value) && (r == 0 <==> parse(a).value == parse(b).value)
    ensures !(parse(a).Some? && parse(b).Some?) && Find(SizeTable, (t: string) => t == Upper(a)).Some? && Find(SizeTable, (t: string) => t == Upper(b)).Some? ==>
      r == Find(SizeTable, (t: string) => t == Upper(a)).value - Find(SizeTable, (t: string) => t == Upper(b)).value
    ensures !(parse(a).Some? && parse(b).Some?) && !(Find(SizeTable, (t: string) => t == Upper(a)).Some? && Find(SizeTable, (t: string) => t == Upper(b)).Some?) ==>
      r == locale(a, b)
  {
    var na, nb := parse(a), parse(b);
    if na.Some? && nb.Some? then Sign(na.value - nb.value)
    else
      var ia, ib := Find(SizeTable, (t: string) => t == Upper(a)), Find(SizeTable, (t: string) => t == Upper(b));
      if ia.Some? && ib.Some? then ia.value - ib.value else locale(a, b)
  }

  /** The comparator of the default-variant sort: colour rank first; equal ranks fall through to the sizes. */
  function CompareVariants(a: Variant, b: Variant, parse: string -> Option<real>, locale: (string, string) -> int): (r: int)
    ensures Rank(a) < Rank(b) ==> r < 0
    ensures Rank(a) > Rank(b) ==> r > 0
    ensures Rank(a) == Rank(b) ==> r == CompareSizes(VariantAttr(a, SizeKey), VariantAttr(b, SizeKey), parse, locale)
  {
    var pa, pb := ColorPriority(Lower(VariantAttr(a, ColorKey))), ColorPriority(Lower(VariantAttr(b, ColorKey)));
    if pa.Some? && pb.None? then -1
    else if pa.None? && pb.Some? then 1
    else if pa.Some? && pb.Some? && pa != pb then pa.value - pb.value
    else CompareSizes(VariantAttr(a, SizeKey), VariantAttr(b, SizeKey), parse, locale)
  }

  /** The position of the first element that no later one beats under `less`, scanning left to right. */
  function BestIndex<T>(s: seq<T>, less: (T, T) -> bool): (r: nat)
    requires |s| > 0
    ensures r < |s|
  {
    if |s| == 1 then 0
    else
      var b := BestIndex(s[..|s| - 1], less);
      if less(s[|s| - 1], s[b]) then |s| - 1 else b
  }

  /** When `less` agrees with a rank (a lower rank always beats, a win never has a higher rank), the scan ends on a lowest rank. */
  lemma {:induction false} BestIndexRank<T>(s: seq<T>, less: (T, T) -> bool, rank: T -> int)
    requires |s| > 0
    requires forall x, y :: rank(x) < rank(y) ==> less(x, y)
    requires forall x, y :: less(x, y) ==> rank(x) <= rank(y)
    ensures forall j :: 0 <= j < |s| ==> rank(s[BestIndex(s, less)]) <= rank(s[j])
  {
    if |s| > 1 {
      var p := s[..|s| - 1];
      assert forall j :: 0 <= j < |p| ==> p[j] == s[j];
      BestIndexRank(p, less, rank);
    }
  }

  /**
   * When `less` is a strict order `before` by a key, the scan ends on a least element, and on
   * the first one: every earlier element comes strictly after it.
   */
  lemma {:induction false} BestIndexLeast<T>(s: seq<T>, less: (T, T) -> bool, before: (T, T) -> bool)
    requires |s| > 0
    requires forall i, j :: 0 <= i < |s| && 0 <= j < |s| ==> less(s[i], s[j]) == before(s[i], s[j])
    requires forall x :: !before(x, x)
    requires forall x, y, z :: !before(x, y) && before(z, y) ==> before(z, x) && !before(x, z)
    ensures forall j :: 0 <= j < |s| ==> !before(s[j], s[BestIndex(s, less)])
    ensures forall j :: 0 <= j < BestIndex(s, less) ==> before(s[BestIndex(s, less)], s[j])
  {
    if |s| > 1 {
      var p := s[..|s| - 1];
      assert forall j :: 0 <= j < |p| ==> p[j] == s[j];
      BestIndexLeast(p, less, before);
      var b := BestIndex(p, less);
      var n := |s| - 1;
      assert less(s[n], s[b]) == before(s[n], s[b]);
      if before(s[n], s[b]) {
        assert BestIndex(s, less) == n;
        forall j | 0 <= j < n ensures before(s[n], s[j]) && !before(s[j], s[n]) {
          assert !before(p[j], p[b]);
        }
      } else {
        assert BestIndex(s, less) == b;
      }
    }
  }

  /**
   * `sortedVariants[0]`: the position of the first variant that no later one beats, scanning
   * left to right; for a consistent order this is the first element of a stable sort.
   */
  function DefaultIndex(vs: seq<Variant>, parse: string -> Option<real>, locale: (string, string) -> int): (r: nat)
    requires |vs| > 0
    ensures r < |vs|
  {
    BestIndex(vs, (a: Variant, b: Variant) => CompareVariants(a, b, parse, locale) < 0)
  }

  /** The comparator puts a lower colour rank first, and never puts a higher one first. */
  lemma CompareRank(parse: string -> Option<real>, locale: (string, string) -> int)
    ensures forall a, b :: Rank(a) < Rank(b) ==> CompareVariants(a, b, parse, locale) < 0
    ensures forall a, b :: CompareVariants(a, b, parse, locale) < 0 ==> Rank(a) <= Rank(b)
  {
  }

  /** The default variant has the best colour rank present: white if any variant is white, else black if any is black. */
  lemma DefaultHasBestRank(vs: seq<Variant>, parse: string -> Option<real>, locale: (string, string) -> int)
    requires |vs| > 0
    ensures forall j :: 0 <= j < |vs| ==> Rank(vs[DefaultIndex(vs, parse, locale)]) <= Rank(vs[j])
  {
    var less := (a: Variant, b: Variant) => CompareVariants(a, b, parse, locale) < 0;
    var rank := (v: Variant) => Rank(v) as int;
    CompareRank(parse, locale);
    assert forall x, y :: rank(x) < rank(y) ==> less(x, y);
    assert forall x, y :: less(x, y) ==> rank(x) <= rank(y);
    BestIndexRank(vs, less, rank);
  }

  function SizeNumber(v: Variant, parse: string -> Option<real>): real {
    match parse(VariantAttr(v, SizeKey))
    case Some(x) => x
    case None => 0.0
  }

  predicate NumericSizes(vs: seq<Variant>, parse: string -> Option<real>) {
    forall i :: 0 <= i < |vs| ==> parse(VariantAttr(vs[i], SizeKey)).Some?
  }

  /** `a` comes before `b` in the (colour rank, numeric size) order. */
  predicate Before(a: Variant, b: Variant, parse: string -> Option<real>) {
    Rank(a) < Rank(b) || (Rank(a) == Rank(b) && SizeNumber(a, parse) < SizeNumber(b, parse))
  }

  /** With numeric sizes the comparator is negative exactly when `a` comes before `b`. */
  lemma CompareNumeric(a: Variant, b: Variant, parse: string -> Option<real>, locale: (string, string) -> int)
    requires parse(VariantAttr(a, SizeKey)).Some? && parse(VariantAttr(b, SizeKey)).Some?
    ensures CompareVariants(a, b, parse, locale) < 0 <==> Before(a, b, parse)
  {
  }

  /** `Before` is a strict order by a key: `z` before `y`, and `x` not before `y`, puts `z` before `x`. */
  lemma BeforeOrder(parse: string -> Option<real>)
    ensures forall x :: !Before(x, x, parse)
    ensures forall x, y, z :: !Before(x, y, parse) && Before(z, y, parse) ==> Before(z, x, parse) && !Before(x, z, parse)
  {
  }

  /**
   * When every size is a number, the default variant is the smallest size of the best colour,
   * and it is the first such variant: every earlier variant comes strictly after it.
   */
  lemma DefaultIsSmallest(vs: seq<Variant>, parse: string -> Option<real>, locale: (string, string) -> int)
    requires |vs| > 0 && NumericSizes(vs, parse)
    ensures forall j :: 0 <= j < |vs| ==> !Before(vs[j], vs[DefaultIndex(vs, parse, locale)], parse)
    ensures forall j :: 0 <= j < DefaultIndex(vs, parse, locale) ==> Before(vs[DefaultIndex(vs, parse, locale)], vs[j], parse)
  {
    var less := (a: Variant, b: Variant) => CompareVariants(a, b, parse, locale) < 0;
    var before := (a: Variant, b: Variant) => Before(a, b, parse);
    forall i, j | 0 <= i < |vs| && 0 <= j < |vs| ensures less(vs[i], vs[j]) == before(vs[i], vs[j]) {
      CompareNumeric(vs[i], vs[j], parse, locale);
    }
    BeforeOrder(parse);
    assert forall x :: !before(x, x);
    assert forall x, y, z :: !before(x, y) && before(z, y) ==> before(z, x) && !before(x, z);
    BestIndexLeast(vs, less, before);
  }

  // ---------------------------------------------------------------- pickers and stock

  /** `stock_quantity ?? 0`. */
  function StockOf(v: Variant): int {
    NumOr(v.stockQuantity, 0)
  }

  /** `hasColor`: some variant has a colour. */
  predicate HasColor(vs: seq<Variant>) {
    exists i :: 0 <= i < |vs| && GetAttr(vs[i], ColorKey) != ""
  }

  /** `availableVariants`: the variants of the selected colour, or all of them when no colour applies. */
  function Available(vs: seq<Variant>, color: Option<string>): (r: seq<Variant>)
    ensures HasColor(vs) && color.Some? && color.value != "" ==> forall v :: v in r <==> v in vs && GetAttr(v, ColorKey) == color.value
    ensures !(HasColor(vs) && color.Some? && color.value != "") ==> r == vs
  {
    if HasColor(vs) && color.Some? && color.value != "" then Filter(vs, (v: Variant) => GetAttr(v, ColorKey) == color.value) else vs
  }

  /** The non-empty values of attribute `key` over `vs`, each once, in first-use order. */
  function DistinctAttr(vs: seq<Variant>, key: string): (r: seq<string>)
    ensures NoDup(r)
    ensures forall a :: a in r <==> a != "" && exists i :: 0 <= i < |vs| && GetAttr(vs[i], key) == a
  {
    var all := seq(|vs|, i requires 0 <= i < |vs| => GetAttr(vs[i], key));
    var f := Filter(all, NonEmpty);
    DedupSpec(f);
    forall a ensures a in f <==> a != "" && exists i :: 0 <= i < |vs| && GetAttr(vs[i], key) == a {
      if a in f {
        var i :| 0 <= i < |all| && all[i] == a;
      }
      if a != "" && exists i :: 0 <= i < |vs| && GetAttr(vs[i], key) == a {
        var i :| 0 <= i < |vs| && GetAttr(vs[i], key) == a;
        assert all[i] == a;
      }
    }
    Dedup(f)
  }

  /** The colour buttons: every colour some variant has, each once (their display order is left to the sort). */
  function Colors(vs: seq<Variant>): (r: seq<string>)
    ensures NoDup(r)
    ensures forall c :: c in r <==> c != "" && exists i :: 0 <= i < |vs| && GetAttr(vs[i], ColorKey) == c
  {
    DistinctAttr(vs, ColorKey)
  }

  /** The size buttons: every size an available variant has, each once. */
  function Sizes(available: seq<Variant>): (r: seq<string>)
    ensures NoDup(r)
    ensures forall z :: z in r <==> z != "" && exists i :: 0 <= i < |available| && GetAttr(available[i], SizeKey) == z
  {
    DistinctAttr(available, SizeKey)
  }

  /** `available[i]` is the first variant of size `size`. */
  predicate FirstOfSize(available: seq<Variant>, size: string, i: nat) {
    i < |available| && GetAttr(available[i], SizeKey) == size &&
    forall j :: 0 <= j < i ==> GetAttr(available[j], SizeKey) != size
  }

  /** `isOutOfStock` of a size button: true without a variant of that size, else whether the first one has no stock. */
  function SizeOutOfStock(available: seq<Variant>, size: string): (r: bool)
    ensures (forall i :: 0 <= i < |available| ==> GetAttr(available[i], SizeKey) != size) ==> r
    ensures forall i: nat :: FirstOfSize(available, size, i) ==> (r <==> StockOf(available[i]) == 0)
  {
    match Find(available, (v: Variant) => GetAttr(v, SizeKey) == size)
    case None => true
    case Some(i) => StockOf(available[i]) == 0
  }

  // ---------------------------------------------------------------- price, stock, cart button

  /** `currentPrice`: the selected variant's price, else `price || regular_price || 0`. */
  function CurrentPrice(p: Product, v: Option<Variant>): (r: int)
    ensures v.Some? && Truthy(v.value.price) ==> r == v.value.price.v
    ensures !(v.Some? && Truthy(v.value.price)) && Truthy(p.price) ==> r == p.price.v
    ensures !(v.Some? && Truthy(v.value.price)) && !Truthy(p.price) && Truthy(p.regularPrice) ==> r == p.regularPrice.v
    ensures !(v.Some? && Truthy(v.value.price)) && !Truthy(p.price) && !Truthy(p.regularPrice) ==> r == 0
  {
    var xs := [p.price, p.regularPrice];
    var basePrice := FirstTruthy(xs, 0);
    assert xs[0] == p.price && xs[1] == p.regularPrice;
    if v.Some? && Truthy(v.value.price) then v.value.price.v else basePrice
  }

  /** `currentStock`: `variant?.stock_quantity ?? product.stock_quantity ?? 0`; a stock of 0 is kept, not skipped. */
  function CurrentStock(p: Product, v: Option<Variant>): (r: int)
    ensures v.Some? && v.value.stockQuantity.Val? ==> r == v.value.stockQuantity.v
    ensures !(v.Some? && v.value.stockQuantity.Val?) && p.stockQuantity.Val? ==> r == p.stockQuantity.v
    ensures !(v.Some? && v.value.stockQuantity.Val?) && !p.stockQuantity.Val? ==> r == 0
  {
    NumOr(Coalesce(if v.Some? then v.value.stockQuantity else Undef, p.stockQuantity), 0)
  }

  /** The add-to-cart button is disabled without stock, or for a product with variants when none is selected. */
  predicate AddDisabled(p: Product, v: Option<Variant>) {
    CurrentStock(p, v) == 0 || (|p.variants| > 0 && v.None?)
  }

  datatype CartLabel = OutOfStock | UpdateCart | AddToCart

  /** The button label as written: the cart is asked with `String(product.id)` and `String(variant.id)`. */
  function LabelAsWritten(items: seq<CartContext.CartItem>, p: Product, v: Option<Variant>): (r: CartLabel)
    ensures r == OutOfStock <==> CurrentStock(p, v) == 0
  {
    if CurrentStock(p, v) == 0 then OutOfStock
    else
      var vid := if v.Some? && IdTruthy(v.value.id) then Some(Str(IdText(v.value.id))) else None;
      if CartContext.IsInCart(items, Str(IdText(p.id)), vid) then UpdateCart else AddToCart
  }

  /** The button label with the ids the cart stores. */
  function Label(items: seq<CartContext.CartItem>, p: Product, v: Option<Variant>): (r: CartLabel)
    ensures r == OutOfStock <==> CurrentStock(p, v) == 0
  {
    if CurrentStock(p, v) == 0 then OutOfStock
    else if CartContext.IsInCart(items, p.id, CartContext.VariantIdOf(v)) then UpdateCart
    else AddToCart
  }

  /** With numeric ids, a line added from this page never turns the written label into "Update Cart". */
  lemma LabelAsWrittenMissesNumericIds(items: seq<CartContext.CartItem>, p: Product, v: Option<Variant>)
    requires p.id.Num?
    requires forall i :: 0 <= i < |items| ==> items[i].productId.Num?
    ensures LabelAsWritten(items, p, v) != UpdateCart
  {
    var vid := if v.Some? && IdTruthy(v.value.id) then Some(Str(IdText(v.value.id))) else None;
    assert !CartContext.IsInCart(items, Str(IdText(p.id)), vid);
  }

  /** A product with numeric id 7 in the cart: the label as written still offers "Add to Cart". */
  lemma LabelAsWrittenCounterexample(p: Product, now: string)
    requires p.id == Num(7) && p.stockQuantity == Val(3)
    ensures var items := CartContext.AddLocal([], p, None, 1, now);
      LabelAsWritten(items, p, None) == AddToCart && Label(items, p, None) == UpdateCart
  {
    var items := CartContext.AddLocal([], p, None, 1, now);
    CartContext.IsInCartAfterAdd([], p, None, 1, now);
    LabelAsWrittenMissesNumericIds(items, p, None);
  }

  /** The corrected label says "Update Cart" exactly when the selected pair is in the cart and there is stock. */
  lemma LabelSpec(items: seq<CartContext.CartItem>, p: Product, v: Option<Variant>)
    ensures Label(items, p, v) == UpdateCart <==>
      CurrentStock(p, v) != 0 && exists i :: 0 <= i < |items| && items[i].productId == p.id && items[i].variantId == CartContext.VariantIdOf(v)
  {
  }

  // ---------------------------------------------------------------- quantity

  /** The minus button: never below 1. */
  function Decrement(q: int): (r: int)
    ensures r >= 1 && (q > 1 ==> r == q - 1) && (q <= 1 ==> r == 1)
  {
    if q - 1 > 1 then q - 1 else 1
  }

  /** The typed quantity: `Math.max(1, parseInt(value) || 1)`; no number, or 0, gives 1. */
  function TypedQuantity(parsed: Option<int>): (r: int)
    ensures r >= 1
    ensures parsed.Some? && parsed.value >= 1 ==> r == parsed.value
    ensures parsed.None? || parsed.value < 1 ==> r == 1
  {
    var n := if parsed.Some? && parsed.value != 0 then parsed.value else 1;
    if n > 1 then n else 1
  }

  /** The plus button: `Math.min(currentStock || 1, quantity + 1)`. */
  function Increment(q: int, stock: int): (r: int)
    ensures r <= q + 1 && r <= (if stock != 0 then stock else 1)
    ensures r == q + 1 || r == (if stock != 0 then stock else 1)
  {
    var cap := if stock != 0 then stock else 1;
    if cap < q + 1 then cap else q + 1
  }

  /** While the plus button is enabled (`quantity < currentStock`), it adds exactly one. */
  lemma IncrementEnabled(q: int, stock: int)
    requires stock != 0 && q < stock
    ensures Increment(q, stock) == q + 1
  {
  }

  // ---------------------------------------------------------------- the page

  const NotFound := "Product not found"
  const LoadFailed := "Error loading product details"

  /** The page state: the loaded product and the shopper's selection. */
  class ProductPage {
    var product: Option<Product>
    var error: Option<string>
    var loading: bool
    var selectedVariant: Option<Variant>
    var selectedColor: Option<string>
    var selectedSize: Option<string>
    var quantity: int

    /** The quantity is at least 1 and the chosen colour and size, when set, are non-empty. */
    ghost predicate Valid()
      reads this
    {
      quantity >= 1 && (selectedColor.Some? ==> selectedColor.value != "") && (selectedSize.Some? ==> selectedSize.value != "")
    }

    constructor()
      ensures Valid() && product.None? && error.None? && loading
      ensures selectedVariant.None? && selectedColor.None? && selectedSize.None? && quantity == 1
    {
      product := None;
      error := None;
      loading := true;
      selectedVariant := None;
      selectedColor := None;
      selectedSize := None;
      quantity := 1;
    }

    /** The default variant `d` is selected, with its colour and size when they have text. */
    method SelectDefault(d: Variant)
      requires Valid()
      modifies this
      ensures Valid() && product == old(product) && error == old(error) && loading == old(loading) && quantity == old(quantity)
      ensures selectedVariant == Some(d)
      ensures selectedColor == (if VariantAttr(d, ColorKey) != "" then Some(VariantAttr(d, ColorKey)) else old(selectedColor))
      ensures selectedSize == (if VariantAttr(d, SizeKey) != "" then Some(VariantAttr(d, SizeKey)) else old(selectedSize))
    {
      selectedVariant := Some(d);
      var colorVal := VariantAttr(d, ColorKey);
      var sizeVal := VariantAttr(d, SizeKey);
      if colorVal != "" {
        selectedColor := Some(colorVal);
      }
      if sizeVal != "" {
        selectedSize := Some(sizeVal);
      }
    }

    /**
     * `loadProduct` with the result of `getProductById`: an error or a missing product sets
     * the message; a product with variants selects the default variant and takes its colour
     * and size when they have text.
     */
    method LoadProduct(fetched: Result<Option<Product>>, parse: string -> Option<real>, locale: (string, string) -> int)
      requires Valid()
      modifies this
      ensures Valid() && !loading && quantity == old(quantity)
      ensures fetched.Err? ==> error == Some(LoadFailed) && product == old(product)
      ensures fetched == Ok(None) ==> error == Some(NotFound) && product == old(product)
      ensures fetched.Ok? && fetched.value.Some? ==> product == fetched.value && error == old(error)
      ensures fetched.Ok? && fetched.value.Some? && |fetched.value.value.variants| > 0 ==>
        var vs := fetched.value.value.variants;
        var d := vs[DefaultIndex(vs, parse, locale)];
        selectedVariant == Some(d) &&
        selectedColor == (if VariantAttr(d, ColorKey) != "" then Some(VariantAttr(d, ColorKey)) else old(selectedColor)) &&
        selectedSize == (if VariantAttr(d, SizeKey) != "" then Some(VariantAttr(d, SizeKey)) else old(selectedSize))
      ensures !(fetched.Ok? && fetched.value.Some? && |fetched.value.value.variants| > 0) ==>
        selectedVariant == old(selectedVariant) && selectedColor == old(selectedColor) && selectedSize == old(selectedSize)
    {
      loading := false;
      match fetched
      case Err(_) =>
        error := Some(LoadFailed);
      case Ok(None) =>
        error := Some(NotFound);
      case Ok(Some(p)) =>
        product := Some(p);
        if |p.variants| > 0 {
          SelectDefault(p.variants[DefaultIndex(p.variants, parse, locale)]);
        }
    }

    /**
     * A colour button: the colour is chosen; when a variant has that colour and the current
     * size, the first one is selected and the size kept; otherwise size and variant are cleared.
     */
    method SelectColor(color: string)
      requires Valid() && product.Some? && color != ""
      modifies this
      ensures Valid() && selectedColor == Some(color) && product == old(product) && quantity == old(quantity)
      ensures var vs := product.value.variants;
        var m := Find(vs, (v: Variant) => old(selectedSize).Some? && GetAttr(v, ColorKey) == color && GetAttr(v, SizeKey) == old(selectedSize).value);
        (m.Some? ==> selectedVariant == Some(vs[m.value]) && selectedSize == old(selectedSize)) &&
        (m.None? ==> selectedVariant.None? && selectedSize.None?)
      ensures selectedVariant.Some? ==> GetAttr(selectedVariant.value, ColorKey) == color && Some(GetAttr(selectedVariant.value, SizeKey)) == selectedSize
    {
      var vs := product.value.variants;
      var currentSize := selectedSize;
      selectedColor := Some(color);
      var m := Find(vs, (v: Variant) => currentSize.Some? && GetAttr(v, ColorKey) == color && GetAttr(v, SizeKey) == currentSize.value);
      if m.None? {
        selectedSize := None;
        selectedVariant := None;
      } else {
        selectedVariant := Some(vs[m.value]);
      }
    }

    /** `availableVariants` for the current colour. */
    function AvailableNow(): seq<Variant>
      reads this
      requires product.Some?
    {
      Available(product.value.variants, selectedColor)
    }

    /** A size button; a size that is out of stock is disabled and does nothing. */
    method SelectSize(size: string)
      requires Valid() && product.Some? && size != ""
      modifies this
      ensures Valid() && product == old(product) && selectedColor == old(selectedColor) && quantity == old(quantity)
      ensures SizeOutOfStock(AvailableNow(), size) ==> selectedSize == old(selectedSize) && selectedVariant == old(selectedVariant)
      ensures !SizeOutOfStock(AvailableNow(), size) ==>
        var av := AvailableNow();
        var m := Find(av, (v: Variant) => GetAttr(v, SizeKey) == size);
        selectedSize == Some(size) && m.Some? && selectedVariant == Some(av[m.value]) && StockOf(av[m.value]) != 0
    {
      var av := Available(product.value.variants, selectedColor);
      if SizeOutOfStock(av, size) {
        return;
      }
      selectedSize := Some(size);
      var m := Find(av, (v: Variant) => GetAttr(v, SizeKey) == size);
      if m.Some? {
        selectedVariant := Some(av[m.value]);
      }
    }

    function Stock(): int
      reads this
      requires product.Some?
    {
      CurrentStock(product.value, selectedVariant)
    }

    /** A button of the plain variant list, shown when no variant has a colour or a size. */
    method SelectListed(v: Variant)
      requires Valid() && product.Some?
      modifies this
      ensures Valid() && selectedVariant == Some(v)
      ensures product == old(product) && selectedColor == old(selectedColor) && selectedSize == old(selectedSize) && quantity == old(quantity)
    {
      selectedVariant := Some(v);
    }

    /** The minus button, disabled without stock. */
    method Minus()
      requires Valid() && product.Some?
      modifies this
      ensures product == old(product) && selectedVariant == old(selectedVariant) && selectedColor == old(selectedColor) && selectedSize == old(selectedSize)
      ensures Valid() && quantity == (if Stock() == 0 then old(quantity) else Decrement(old(quantity)))
    {
      if CurrentStock(product.value, selectedVariant) != 0 {
        quantity := Decrement(quantity);
      }
    }

    /** Typing into the quantity box (disabled without stock); `parsed` is what `parseInt` read. */
    method Type(parsed: Option<int>)
      requires Valid() && product.Some?
      modifies this
      ensures product == old(product) && selectedVariant == old(selectedVariant) && selectedColor == old(selectedColor) && selectedSize == old(selectedSize)
      ensures Valid() && quantity == (if Stock() == 0 then old(quantity) else TypedQuantity(parsed))
    {
      if CurrentStock(product.value, selectedVariant) != 0 {
        quantity := TypedQuantity(parsed);
      }
    }

    /** The plus button, disabled at or above the stock and without stock; when it fires the quantity stays within the stock. */
    method Plus()
      requires Valid() && product.Some?
      modifies this
      ensures product == old(product) && selectedVariant == old(selectedVariant) && selectedColor == old(selectedColor) && selectedSize == old(selectedSize)
      ensures Valid()
      ensures old(quantity) >= Stock() || Stock() == 0 ==> quantity == old(quantity)
      ensures !(old(quantity) >= Stock() || Stock() == 0) ==> quantity == Increment(old(quantity), Stock()) == old(quantity) + 1 && quantity <= Stock()
    {
      var stock := CurrentStock(product.value, selectedVariant);
      if !(quantity >= stock || stock == 0) {
        IncrementEnabled(quantity, stock);
        quantity := Increment(quantity, stock);
      }
    }

    /** `handleAddToCart`: the selection and quantity go to the cart, unless the button is disabled. */
    method AddSelectionToCart(cart: CartContext.Cart, now: string)
      requires Valid() && product.Some?
      modifies cart
      ensures AddDisabled(product.value, selectedVariant) ==> cart.items == old(cart.items)
      ensures !AddDisabled(product.value, selectedVariant) ==>
        cart.items == CartContext.AddLocal(old(cart.items), product.value, selectedVariant, quantity, now) &&
        Label(cart.items, product.value, selectedVariant) == UpdateCart
    {
      if !AddDisabled(product.value, selectedVariant) {
        cart.AddToLocalCart(product.value, selectedVariant, quantity, now);
      }
    }
  }
}
