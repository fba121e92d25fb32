/**
 * The shop page (`src/pages/ShopPage.tsx`): resolving the `category`/`subcategory` URL
 * parameters to a category id, the category checkboxes and the pagination arithmetic.
 * A missing URL parameter is the empty text.
 */
module ShopPage {
  import opened Common
  import opened Text
  import opened Catalog
  import opened Sorting
  import Products

  const ProductsPerPage: nat := 12

  // ---------------------------------------------------------------------------
  // Category slug resolver
  // ---------------------------------------------------------------------------

  /** The category slug followed by its one synonym, if it has one. */
  function ParentSlugs(cat: string): (r: seq<string>)
    ensures |r| >= 1 && r[0] == cat
    ensures cat == "men" ==> r == ["men", "mens"]
    ensures cat == "mens" ==> r == ["mens", "men"]
    ensures cat == "ladies" ==> r == ["ladies", "woman"]
    ensures cat == "woman" ==> r == ["woman", "ladies"]
    ensures cat != "men" && cat != "mens" && cat != "ladies" && cat != "woman" ==> r == [cat]
  {
    if cat == "men" then ["men", "mens"]
    else if cat == "mens" then ["mens", "men"]
    else if cat == "ladies" then ["ladies", "woman"]
    else if cat == "woman" then ["woman", "ladies"]
    else [cat]
  }

  /** The gendered suffix form `{sub}-man` / `{sub}-woman`; every category but `men` gets `woman`. */
  function GenderSuffix(cat: string): string {
    if cat == "men" then "man" else "woman"
  }

  /** The lower-cased row slug has one of the subcategory slug forms. */
  predicate SubslugMatch(slug: string, cat: string, sub: string) {
    var ps := ParentSlugs(cat);
    slug == sub
    || (exists i :: 0 <= i < |ps| && (slug == Lower(ps[i]) + "-" + Lower(sub) || slug == Lower(sub) + "-" + Lower(ps[i])))
    || slug == sub + "-" + GenderSuffix(cat)
  }

  /** The position of the row with this id, if any (`cats.find(p => p.id === parentId)`). */
  function RowWithId(cats: seq<CategoryRow>, id: Id): (r: Option<nat>)
    ensures r.Some? ==> r.value < |cats| && cats[r.value].id == id
    ensures r.Some? ==> forall j :: 0 <= j < r.value ==> cats[j].id != id
    ensures r.None? ==> forall j :: 0 <= j < |cats| ==> cats[j].id != id
  {
    Find(cats, (c: CategoryRow) => c.id == id)
  }

  /** The row's parent row, when its parent id is truthy and names an existing row. */
  function ParentOf(cats: seq<CategoryRow>, c: CategoryRow): (r: Option<nat>)
    ensures r.Some? ==> c.parent.Some? && r.value < |cats| && cats[r.value].id == c.parent.value
    ensures r.None? && c.parent.Some? && IdTruthy(c.parent.value) ==> forall j :: 0 <= j < |cats| ==> cats[j].id != c.parent.value
  {
    if c.parent.Some? && IdTruthy(c.parent.value) then RowWithId(cats, c.parent.value) else None
  }

  predicate SlugIsSynonym(slug: string, cat: string) {
    var ps := ParentSlugs(cat);
    exists i :: 0 <= i < |ps| && Lower(slug) == Lower(ps[i])
  }

  predicate SlugMentionsSynonym(slug: string, cat: string) {
    var ps := ParentSlugs(cat);
    exists i :: 0 <= i < |ps| && Contains(slug, Lower(ps[i]))
  }

  /**
   * A matching row is accepted when its parent row's slug is a synonym; a row without a
   * parent, or with a dangling one, when its own slug mentions a synonym.
   */
  predicate Accepted(cats: seq<CategoryRow>, c: CategoryRow, cat: string, sub: string) {
    var slug := Lower(c.slug);
    SubslugMatch(slug, cat, sub) &&
    match ParentOf(cats, c)
    case Some(p) => SlugIsSynonym(cats[p].slug, cat)
    case None => SlugMentionsSynonym(slug, cat)
  }

  /** The row whose name picks the category's gendered child of a subcategory row. */
  predicate SpecificChild(c: CategoryRow, parentId: Id, cat: string) {
    var name := Lower(c.name);
    c.parent == Some(parentId) &&
    (Contains(name, Lower(cat)) || (cat == "men" && Contains(name, "mens")) || (cat == "ladies" && Contains(name, "woman")))
  }

  /** `[id]` of the row at `i`, or nothing. */
  function IdsAt(cats: seq<CategoryRow>, i: Option<nat>): (r: seq<Id>)
    requires i.Some? ==> i.value < |cats|
    ensures |r| <= 1
    ensures i.Some? <==> |r| == 1
    ensures i.Some? ==> r == [cats[i.value].id]
  {
    if i.Some? then [cats[i.value].id] else []
  }

  /** The subcategory stage: the first accepted row, else the first row slugged as the subcategory or its specific child. */
  function SubcategoryStage(cats: seq<CategoryRow>, cat: string, sub: string): (r: seq<Id>)
    ensures |r| <= 1
    ensures |r| == 1 ==> exists i :: 0 <= i < |cats| && cats[i].id == r[0]
  {
    match Find(cats, (c: CategoryRow) => Accepted(cats, c, cat, sub))
    case Some(i) => [cats[i].id]
    case None =>
      match Find(cats, (c: CategoryRow) => Lower(c.slug) == Lower(sub))
      case None => []
      case Some(j) =>
        match Find(cats, (c: CategoryRow) => SpecificChild(c, cats[j].id, cat))
        case Some(k) => [cats[k].id]
        case None => [cats[j].id]
  }

  predicate MainMatch(c: CategoryRow, cat: string) {
    var slug := Lower(c.slug);
    slug == Lower(cat) || (cat == "men" && slug == "mens") || (cat == "ladies" && slug == "woman")
  }

  /** The main-category fallback: the first row slugged as the category, with the one-way aliases men→mens, ladies→woman. */
  function MainFallback(cats: seq<CategoryRow>, cat: string): (r: seq<Id>)
    ensures |r| <= 1
    ensures |r| == 1 ==> exists i :: 0 <= i < |cats| && cats[i].id == r[0] && MainMatch(cats[i], cat)
    ensures |r| == 0 <==> forall i :: 0 <= i < |cats| ==> !MainMatch(cats[i], cat)
  {
    IdsAt(cats, Find(cats, (c: CategoryRow) => MainMatch(c, cat)))
  }

  /** The ids `loadCategories` selects for the URL parameters; empty when nothing resolves. */
  function ShopTargetIds(cats: seq<CategoryRow>, cat: string, sub: string): seq<Id> {
    if cat == "" then []
    else
      var t := if sub != "" then SubcategoryStage(cats, cat, sub) else [];
      if |t| == 0 then MainFallback(cats, cat) else t
  }

  /** The resolver yields at most one id, and only an id of some row. */
  lemma TargetShape(cats: seq<CategoryRow>, cat: string, sub: string)
    ensures |ShopTargetIds(cats, cat, sub)| <= 1
    ensures forall x :: x in ShopTargetIds(cats, cat, sub) ==> exists i :: 0 <= i < |cats| && cats[i].id == x
  {
  }

  /** The first accepted row in list order is the one resolved. */
  lemma FirstAcceptedWins(cats: seq<CategoryRow>, cat: string, sub: string, i: nat)
    requires cat != "" && sub != ""
    requires i < |cats| && Accepted(cats, cats[i], cat, sub)
    requires forall j :: 0 <= j < i ==> !Accepted(cats, cats[j], cat, sub)
    ensures ShopTargetIds(cats, cat, sub) == [cats[i].id]
  {
    FindFirst(cats, (c: CategoryRow) => Accepted(cats, c, cat, sub), i);
  }

  /**
   * With no accepted row, the first row slugged as the subcategory decides: its first specific
   * child if it has one, else the row itself.
   */
  lemma SubcategoryParentFallback(cats: seq<CategoryRow>, cat: string, sub: string, j: nat)
    requires cat != "" && sub != ""
    requires forall i :: 0 <= i < |cats| ==> !Accepted(cats, cats[i], cat, sub)
    requires j < |cats| && Lower(cats[j].slug) == Lower(sub)
    requires forall i :: 0 <= i < j ==> Lower(cats[i].slug) != Lower(sub)
    ensures (forall k :: 0 <= k < |cats| ==> !SpecificChild(cats[k], cats[j].id, cat)) ==> ShopTargetIds(cats, cat, sub) == [cats[j].id]
    ensures forall k :: (0 <= k < |cats| && SpecificChild(cats[k], cats[j].id, cat) &&
      (forall m :: 0 <= m < k ==> !SpecificChild(cats[m], cats[j].id, cat))) ==> ShopTargetIds(cats, cat, sub) == [cats[k].id]
  {
    FindSlugRow(cats, sub, j);
    var child := (c: CategoryRow) => SpecificChild(c, cats[j].id, cat);
    forall k | 0 <= k < |cats| && child(cats[k]) && (forall m :: 0 <= m < k ==> !child(cats[m]))
      ensures Find(cats, child) == Some(k)
    {
      FindFirst(cats, child, k);
    }
  }

  lemma FindSlugRow(cats: seq<CategoryRow>, sub: string, j: nat)
    requires j < |cats| && Lower(cats[j].slug) == Lower(sub)
    requires forall i :: 0 <= i < j ==> Lower(cats[i].slug) != Lower(sub)
    ensures Find(cats, (c: CategoryRow) => Lower(c.slug) == Lower(sub)) == Some(j)
  {
    FindFirst(cats, (c: CategoryRow) => Lower(c.slug) == Lower(sub), j);
  }

  /** The main-category fallback is consulted only when the subcategory stage resolves nothing. */
  lemma MainFallbackOnlyWhenUnresolved(cats: seq<CategoryRow>, cat: string, sub: string)
    requires cat != ""
    ensures sub != "" && |SubcategoryStage(cats, cat, sub)| == 1 ==> ShopTargetIds(cats, cat, sub) == SubcategoryStage(cats, cat, sub)
    ensures (sub == "" || |SubcategoryStage(cats, cat, sub)| == 0) ==> ShopTargetIds(cats, cat, sub) == MainFallback(cats, cat)
  {
  }

  /** `{sub}-woman` is a subcategory form for every category other than `men`, `kids` included. */
  lemma WomanFormForOtherCategories(cat: string, sub: string)
    requires cat != "men"
    ensures SubslugMatch(sub + "-woman", cat, sub)
    ensures SubslugMatch(sub + "-man", "men", sub)
  {
  }

  /** A subcategory row whose parent row exists is accepted exactly when that parent's slug is a synonym. */
  lemma AcceptedWithParent(cats: seq<CategoryRow>, c: CategoryRow, cat: string, sub: string, p: nat)
    requires SubslugMatch(Lower(c.slug), cat, sub)
    requires c.parent.Some? && IdTruthy(c.parent.value)
    requires p < |cats| && cats[p].id == c.parent.value
    requires forall q :: 0 <= q < p ==> cats[q].id != c.parent.value
    ensures Accepted(cats, c, cat, sub) <==> SlugIsSynonym(cats[p].slug, cat)
  {
    FindFirst(cats, (c': CategoryRow) => c'.id == c.parent.value, p);
  }

  /** A subcategory row with no parent, or a dangling one, is accepted exactly when its slug mentions a synonym. */
  lemma AcceptedWithoutParent(cats: seq<CategoryRow>, c: CategoryRow, cat: string, sub: string)
    requires SubslugMatch(Lower(c.slug), cat, sub)
    requires c.parent.None? || !IdTruthy(c.parent.value) || forall q :: 0 <= q < |cats| ==> cats[q].id != c.parent.value
    ensures Accepted(cats, c, cat, sub) <==> SlugMentionsSynonym(Lower(c.slug), cat)
  {
  }

  // ---------------------------------------------------------------------------
  // Category checkboxes
  // ---------------------------------------------------------------------------

  /** The ids of every row with this name, in list order, empty-product rows included. */
  function IdsNamed(cats: seq<CategoryRow>, name: string): (r: seq<Id>)
    ensures |r| <= |cats|
    ensures forall x :: x in r <==> exists i :: 0 <= i < |cats| && cats[i].name == name && cats[i].id == x
  {
    if |cats| == 0 then []
    else (if cats[0].name == name then [cats[0].id] else []) + IdsNamed(cats[1..], name)
  }

  /** Checking a name: the current selection followed by the ids not yet in it. */
  function Check(sel: seq<Id>, ids: seq<Id>): seq<Id> {
    Dedup(sel + ids)
  }

  /** Unchecking a name: the selection without those ids, in order. */
  function Uncheck(sel: seq<Id>, ids: seq<Id>): seq<Id> {
    Filter(sel, (x: Id) => x !in ids)
  }

  lemma CheckSpec(sel: seq<Id>, ids: seq<Id>)
    ensures NoDup(Check(sel, ids))
    ensures forall x :: x in Check(sel, ids) <==> x in sel || x in ids
  {
    DedupSpec(sel + ids);
    var r := Check(sel, ids);
    forall x ensures x in r <==> x in sel || x in ids {
      if x in sel {
        var i :| 0 <= i < |sel| && sel[i] == x;
        assert (sel + ids)[i] == x;
      } else if x in ids {
        var i :| 0 <= i < |ids| && ids[i] == x;
        assert (sel + ids)[|sel| + i] == x;
      }
      if x in r {
        var i :| 0 <= i < |r| && r[i] == x;
        assert x in sel + ids;
      }
    }
  }

  /** Checking keeps a duplicate-free selection as a prefix and adds only ids of the name. */
  lemma CheckKeepsSelection(sel: seq<Id>, ids: seq<Id>)
    requires NoDup(sel)
    ensures |sel| <= |Check(sel, ids)| && Check(sel, ids)[..|sel|] == sel
    ensures forall i :: |sel| <= i < |Check(sel, ids)| ==> Check(sel, ids)[i] in ids && Check(sel, ids)[i] !in sel
  {
    DedupAppend(sel, ids);
    AppendNewNoDup(sel, ids);
    var r := Check(sel, ids);
    forall i | |sel| <= i < |r| ensures r[i] in ids && r[i] !in sel {
      forall k | 0 <= k < |sel| ensures sel[k] != r[i] {
        assert sel[k] == r[k];
      }
    }
  }

  lemma UncheckSpec(sel: seq<Id>, ids: seq<Id>)
    ensures forall x :: x in Uncheck(sel, ids) <==> x in sel && x !in ids
  {
  }

  /** Unchecking right after checking restores a duplicate-free selection that held none of the name's ids. */
  lemma UncheckAfterCheck(sel: seq<Id>, ids: seq<Id>)
    requires NoDup(sel)
    requires forall x :: x in sel ==> x !in ids
    ensures Uncheck(Check(sel, ids), ids) == sel
  {
    CheckKeepsSelection(sel, ids);
    var r := Check(sel, ids);
    var keep := (x: Id) => x !in ids;
    assert r == sel + r[|sel|..];
    FilterAppend(sel, r[|sel|..], keep);
    FilterAll(sel, keep);
    var extra := r[|sel|..];
    forall i | 0 <= i < |extra| ensures !keep(extra[i]) {
      assert extra[i] == r[|sel| + i];
    }
    FilterNone(extra, keep);
    assert sel + [] == sel;
  }

  /** The checkbox of a name is ticked when any of its ids is selected. */
  predicate IsChecked(cats: seq<CategoryRow>, name: string, sel: seq<Id>) {
    var ids := IdsNamed(cats, name);
    exists i :: 0 <= i < |ids| && ids[i] in sel
  }

  function NamesWithProducts(cats: seq<CategoryRow>): (r: seq<string>)
    ensures forall n :: n in r <==> exists i :: 0 <= i < |cats| && cats[i].productCount > 0 && cats[i].name == n
  {
    if |cats| == 0 then []
    else (if cats[0].productCount > 0 then [cats[0].name] else []) + NamesWithProducts(cats[1..])
  }

  /** The names listed as checkboxes: each name of a row with products, once, in code-unit order. */
  function DisplayNames(cats: seq<CategoryRow>): seq<string> {
    SortByKey(Dedup(NamesWithProducts(cats)), Codes)
  }

  lemma DisplayNamesSpec(cats: seq<CategoryRow>)
    ensures SortedBy(DisplayNames(cats), Codes)
    ensures NoDup(DisplayNames(cats))
    ensures forall n :: n in DisplayNames(cats) <==> exists i :: 0 <= i < |cats| && cats[i].productCount > 0 && cats[i].name == n
  {
    var d := Dedup(NamesWithProducts(cats));
    DedupSpec(NamesWithProducts(cats));
    SortByKeySpec(d, Codes);
    PermutationNoDup(d, DisplayNames(cats));
    var names := NamesWithProducts(cats);
    forall n ensures n in d <==> n in names {
      if n in d {
        var i :| 0 <= i < |d| && d[i] == n;
      }
      if n in names {
        var i :| 0 <= i < |names| && names[i] == n;
      }
    }
  }

  // ---------------------------------------------------------------------------
  // Pagination
  // ---------------------------------------------------------------------------

  /** `Math.ceil(total / 12)`. */
  function TotalPages(total: nat): (r: nat)
    ensures (r - 1) * ProductsPerPage < total <= r * ProductsPerPage || (total == 0 && r == 0)
  {
    (total + ProductsPerPage - 1) / ProductsPerPage
  }

  /** The pages listed: 1, the last page, and the pages next to the current one. */
  predicate Shown(page: int, totalPages: int, current: int) {
    page == 1 || page == totalPages || (current - 1 <= page <= current + 1)
  }

  /** The shown pages among `from..totalPages`, in increasing order. */
  function ShownFrom(from: int, totalPages: int, current: int): (r: seq<int>)
    ensures forall p :: p in r <==> from <= p <= totalPages && Shown(p, totalPages, current)
    ensures forall i :: 0 <= i < |r| ==> from <= r[i]
    ensures forall i, j :: 0 <= i < j < |r| ==> r[i] < r[j]
    decreases totalPages - from
  {
    if from > totalPages then []
    else
      var rest := ShownFrom(from + 1, totalPages, current);
      if Shown(from, totalPages, current) then [from] + rest else rest
  }

  function ShownPages(totalPages: int, current: int): seq<int> {
    ShownFrom(1, totalPages, current)
  }

  /** An ellipsis is drawn before the shown page at `index` when the previous shown page is not its predecessor. */
  predicate Ellipsis(shown: seq<int>, index: int)
    requires 0 <= index < |shown|
  {
    index > 0 && shown[index - 1] != shown[index] - 1
  }

  /** An ellipsis marks exactly the places where some page is skipped. */
  lemma EllipsisIffSkipped(totalPages: int, current: int, index: nat)
    requires index < |ShownPages(totalPages, current)|
    ensures var s := ShownPages(totalPages, current);
      Ellipsis(s, index) <==> index > 0 && exists p :: s[index - 1] < p < s[index] && !Shown(p, totalPages, current)
  {
    var s := ShownPages(totalPages, current);
    if index > 0 && Ellipsis(s, index) {
      var p := s[index - 1] + 1;
      forall k | 0 <= k < |s| ensures s[k] != p {
        if k < index { assert s[k] <= s[index - 1]; } else { assert s[index] <= s[k]; }
      }
      assert s[index - 1] in s && s[index] in s;
      assert p !in s;
      assert !Shown(p, totalPages, current);
    }
  }

  // ---------------------------------------------------------------------------
  // Page state
  // ---------------------------------------------------------------------------

  /** The page's state fields that the modelled handlers read and update. */
  class ShopPageState {
    var categories: seq<CategoryRow>
    var selectedCategories: seq<Id>
    var minPrice: int
    var maxPrice: int
    var sortBy: Products.SortBy
    var currentPage: int
    var totalProducts: nat

    constructor()
      ensures categories == [] && selectedCategories == []
      ensures minPrice == 0 && maxPrice == 1000 && sortBy == Products.ByName
      ensures currentPage == 1 && totalProducts == 0
    {
      categories := [];
      selectedCategories := [];
      minPrice := 0;
      maxPrice := 1000;
      sortBy := Products.ByName;
      currentPage := 1;
      totalProducts := 0;
    }

    function TotalPagesNow(): nat
      reads this
    {
      TotalPages(totalProducts)
    }

    /** A new category selection also takes the page back to 1. */
    method SetSelected(ids: seq<Id>)
      modifies this
      ensures selectedCategories == ids && currentPage == 1
      ensures categories == old(categories) && minPrice == old(minPrice) && maxPrice == old(maxPrice)
      ensures sortBy == old(sortBy) && totalProducts == old(totalProducts)
    {
      selectedCategories := ids;
      currentPage := 1;
    }

    /** `loadCategories`: store the rows, then select the resolved id if one resolved. */
    method LoadCategories(cats: seq<CategoryRow>, cat: string, sub: string)
      modifies this
      ensures categories == cats
      ensures var t := ShopTargetIds(cats, cat, sub);
        if |t| > 0 then selectedCategories == t && currentPage == 1
        else selectedCategories == old(selectedCategories) && currentPage == old(currentPage)
      ensures minPrice == old(minPrice) && maxPrice == old(maxPrice)
      ensures sortBy == old(sortBy) && totalProducts == old(totalProducts)
    {
      categories := cats;
      if cat != "" {
        var targetCatIds: seq<Id> := [];
        if sub != "" {
          targetCatIds := SubcategoryStage(cats, cat, sub);
        }
        if |targetCatIds| == 0 {
          targetCatIds := MainFallback(cats, cat);
        }
        if |targetCatIds| > 0 {
          SetSelected(targetCatIds);
        }
      }
    }

    /**
     * The minimum-price input. React drops a state update to an equal value, so the effect that
     * takes the page back to 1 runs only when the value changes.
     */
    method SetMinPrice(v: int)
      modifies this
      ensures minPrice == v
      ensures currentPage == if v != old(minPrice) then 1 else old(currentPage)
      ensures categories == old(categories) && selectedCategories == old(selectedCategories) && maxPrice == old(maxPrice)
      ensures sortBy == old(sortBy) && totalProducts == old(totalProducts)
    {
      if v != minPrice {
        minPrice := v;
        currentPage := 1;
      }
    }

    /**
     * The maximum-price input. React drops a state update to an equal value, so the effect that
     * takes the page back to 1 runs only when the value changes.
     */
    method SetMaxPrice(v: int)
      modifies this
      ensures maxPrice == v
      ensures currentPage == if v != old(maxPrice) then 1 else old(currentPage)
      ensures categories == old(categories) && selectedCategories == old(selectedCategories) && minPrice == old(minPrice)
      ensures sortBy == old(sortBy) && totalProducts == old(totalProducts)
    {
      if v != maxPrice {
        maxPrice := v;
        currentPage := 1;
      }
    }

    /** The sort select; a change of filter takes the page back to 1. */
    method SetSortBy(v: Products.SortBy)
      modifies this
      ensures sortBy == v && currentPage == 1
      ensures categories == old(categories) && selectedCategories == old(selectedCategories)
      ensures minPrice == old(minPrice) && maxPrice == old(maxPrice) && totalProducts == old(totalProducts)
    {
      sortBy := v;
      currentPage := 1;
    }

    /** The Reset Filters button: no categories and the price range 0..1000; the sort order is kept. */
    method ResetFilters()
      modifies this
      ensures selectedCategories == [] && minPrice == 0 && maxPrice == 1000 && currentPage == 1
      ensures categories == old(categories) && sortBy == old(sortBy) && totalProducts == old(totalProducts)
    {
      SetSelected([]);
      SetMinPrice(0);
      SetMaxPrice(1000);
    }

    /** The change handler of the checkbox for `name`. */
    method ToggleName(name: string, checked: bool)
      modifies this
      ensures var ids := IdsNamed(categories, name);
        selectedCategories == (if checked then Check(old(selectedCategories), ids) else Uncheck(old(selectedCategories), ids))
      ensures currentPage == 1
      ensures categories == old(categories) && minPrice == old(minPrice) && maxPrice == old(maxPrice)
      ensures sortBy == old(sortBy) && totalProducts == old(totalProducts)
    {
      var ids := IdsNamed(categories, name);
      if checked {
        SetSelected(Dedup(selectedCategories + ids));
      } else {
        SetSelected(Filter(selectedCategories, (x: Id) => x !in ids));
      }
    }

    /** `goToPage`: only pages 1..totalPages are accepted. */
    method GoToPage(page: int)
      modifies this
      ensures 1 <= page <= TotalPages(totalProducts) ==> currentPage == page
      ensures !(1 <= page <= TotalPages(totalProducts)) ==> currentPage == old(currentPage)
      ensures categories == old(categories) && selectedCategories == old(selectedCategories)
      ensures minPrice == old(minPrice) && maxPrice == old(maxPrice)
      ensures sortBy == old(sortBy) && totalProducts == old(totalProducts)
    {
      if page >= 1 && page <= TotalPages(totalProducts) {
        currentPage := page;
      }
    }

    /** The count `getProductsCount` reported for the current filters. */
    method ReceiveCount(count: nat)
      modifies this
      ensures totalProducts == count
      ensures categories == old(categories) && selectedCategories == old(selectedCategories)
      ensures minPrice == old(minPrice) && maxPrice == old(maxPrice)
      ensures sortBy == old(sortBy) && currentPage == old(currentPage)
    {
      totalProducts := count;
    }

    /** The filters `loadProducts` sends. */
    function Filters(): Products.ProductFilters
      reads this
    {
      PageFilters(selectedCategories, minPrice, maxPrice, sortBy, currentPage)
    }
  }

  /** The filters object for a page: a non-positive maximum price is left out, 12 per page. */
  function PageFilters(sel: seq<Id>, minPrice: int, maxPrice: int, sortBy: Products.SortBy, page: int): (r: Products.ProductFilters)
    ensures r.limit == Some(ProductsPerPage as int) && r.offset == Some((page - 1) * ProductsPerPage)
    ensures r.minPrice == Some(minPrice)
    ensures r.maxPrice == (if maxPrice > 0 then Some(maxPrice) else None)
    ensures r.categoryIds == Some(sel) && r.sortBy == Some(sortBy)
    ensures r.search.None? && r.stockStatus.None? && r.isFeatured.None?
  {
    Products.NoFilters.(minPrice := Some(minPrice), maxPrice := if maxPrice > 0 then Some(maxPrice) else None,
      sortBy := Some(sortBy), categoryIds := Some(sel), limit := Some(ProductsPerPage as int),
      offset := Some((page - 1) * ProductsPerPage))
  }

  /** Page 1 asks for the first 12 rows with no range; page p > 1 asks for rows (p−1)·12 .. p·12 − 1. */
  lemma PageWindow(sel: seq<Id>, minPrice: int, maxPrice: int, sortBy: Products.SortBy, page: int)
    ensures var f := PageFilters(sel, minPrice, maxPrice, sortBy, page);
      Products.PageClauses(f) ==
        [Products.Limit(12)] + (if page != 1 then [Products.Range((page - 1) * 12, page * 12 - 1)] else [])
  {
  }
}
