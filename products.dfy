/**
 * The product queries of `src/services/products.ts`, as the list of PostgREST clauses
 * that `getProducts` and `getProductsCount` chain onto the query, in order, and the
 * single-product lookups by slug and by id over the product table.
 */
module Products {
  import opened Common
  import opened Text
  import opened Catalog

  datatype SortBy = ByName | PriceAsc | PriceDesc | Newest

  /** `ProductFilters`; `None` stands for a missing field. */
  datatype ProductFilters = ProductFilters(
    categoryIds: Option<seq<Id>>,
    search: Option<string>,
    minPrice: Option<int>,
    maxPrice: Option<int>,
    stockStatus: Option<string>,
    isFeatured: Option<bool>,
    sortBy: Option<SortBy>,
    limit: Option<int>,
    offset: Option<int>)

  datatype Value = VStr(s: string) | VBool(b: bool)

  /** The columns of the `products` table the queries filter or order on. */
  datatype Column = Status | StockStatus | IsFeatured | Price | ProductName | CreatedAt

  function ColumnName(c: Column): string {
    match c
    case Status => "status"
    case StockStatus => "stock_status"
    case IsFeatured => "is_featured"
    case Price => "price"
    case ProductName => "name"
    case CreatedAt => "created_at"
  }

  /** One call chained onto the query builder. */
  datatype Clause =
    | Eq(column: Column, value: Value)
    | AnyOf(expr: string)
    | Gte(column: Column, bound: int)
    | Lte(column: Column, bound: int)
    | OrderBy(column: Column, ascending: bool)
    | Limit(count: int)
    | Range(from: int, to: int)

  /** JavaScript truthiness of an optional number or text. */
  predicate NumSet(x: Option<int>) { x.Some? && x.value != 0 }
  predicate TextSet(x: Option<string>) { x.Some? && x.value != "" }

  const Published: Clause := Eq(Status, VStr("published"))

  /** The containment test for one category id. */
  function CategoryTerm(id: Id): string {
    "categories.cs.[{\"id\":\"" + IdText(id) + "\"}]"
  }

  /** The terms for `ids`, joined by commas. */
  function CategoryFilter(ids: seq<Id>): (r: string)
    ensures |ids| == 1 ==> r == CategoryTerm(ids[0])
  {
    if |ids| == 0 then ""
    else if |ids| == 1 then CategoryTerm(ids[0])
    else CategoryTerm(ids[0]) + [','] + CategoryFilter(ids[1..])
  }

  function CategoryTerms(ids: seq<Id>): (r: seq<string>)
    ensures |r| == |ids| && forall i :: 0 <= i < |ids| ==> r[i] == CategoryTerm(ids[i])
  {
    if |ids| == 0 then [] else [CategoryTerm(ids[0])] + CategoryTerms(ids[1..])
  }

  lemma {:induction false} CategoryFilterIsJoin(ids: seq<Id>)
    ensures CategoryFilter(ids) == Join(CategoryTerms(ids), ',')
  {
    if |ids| > 1 {
      CategoryFilterIsJoin(ids[1..]);
      assert CategoryTerms(ids)[1..] == CategoryTerms(ids[1..]);
    }
  }

  lemma CategoryTermNoComma(id: Id)
    requires ',' !in IdText(id)
    ensures ',' !in CategoryTerm(id)
  {
    var t := CategoryTerm(id);
    var pre := "categories.cs.[{\"id\":\"";
    assert t == pre + IdText(id) + "\"}]";
    forall i | 0 <= i < |t| ensures t[i] != ',' {
      if i < |pre| { assert t[i] == pre[i]; }
      else if i < |pre| + |IdText(id)| { assert t[i] == IdText(id)[i - |pre|]; }
      else { assert t[i] == "\"}]"[i - |pre| - |IdText(id)|]; }
    }
  }

  /** When no id contains a comma, the filter splits back into one term per id, in order. */
  lemma CategoryFilterSplits(ids: seq<Id>)
    requires |ids| > 0
    requires forall i :: 0 <= i < |ids| ==> ',' !in IdText(ids[i])
    ensures Split(CategoryFilter(ids), ',') == CategoryTerms(ids)
  {
    CategoryFilterIsJoin(ids);
    forall i | 0 <= i < |ids| ensures ',' !in CategoryTerms(ids)[i] {
      CategoryTermNoComma(ids[i]);
    }
    SplitJoin(CategoryTerms(ids), ',');
  }

  function SearchFilter(s: string): string {
    "name.ilike.%" + s + "%,description.ilike.%" + s + "%"
  }

  /** The category filter: present exactly when some ids are given. */
  function CategoryClauses(f: ProductFilters): (r: seq<Clause>)
    ensures |r| <= 1
    ensures |r| == 1 <==> f.categoryIds.Some? && |f.categoryIds.value| > 0
    ensures |r| == 1 ==> r[0] == AnyOf(CategoryFilter(f.categoryIds.value))
  {
    if f.categoryIds.Some? && |f.categoryIds.value| > 0 then [AnyOf(CategoryFilter(f.categoryIds.value))] else []
  }

  /** The text search over name and description: present exactly when the term is non-empty. */
  function SearchClauses(f: ProductFilters): (r: seq<Clause>)
    ensures |r| == (if TextSet(f.search) then 1 else 0)
    ensures |r| == 1 ==> r[0] == AnyOf(SearchFilter(f.search.value))
  {
    if TextSet(f.search) then [AnyOf(SearchFilter(f.search.value))] else []
  }

  /** Price bounds apply whenever they are given, 0 included. */
  function PriceClauses(f: ProductFilters): (r: seq<Clause>)
    ensures forall m :: Gte(Price, m) in r <==> f.minPrice == Some(m)
    ensures forall m :: Lte(Price, m) in r <==> f.maxPrice == Some(m)
    ensures forall c :: c in r ==> (c.Gte? || c.Lte?) && c.column == Price
  {
    (if f.minPrice.Some? then [Gte(Price, f.minPrice.value)] else [])
    + (if f.maxPrice.Some? then [Lte(Price, f.maxPrice.value)] else [])
  }

  function StockClauses(f: ProductFilters): (r: seq<Clause>)
    ensures |r| == (if TextSet(f.stockStatus) then 1 else 0)
    ensures |r| == 1 ==> r[0] == Eq(StockStatus, VStr(f.stockStatus.value))
  {
    if TextSet(f.stockStatus) then [Eq(StockStatus, VStr(f.stockStatus.value))] else []
  }

  function FeaturedClauses(f: ProductFilters): (r: seq<Clause>)
    ensures |r| == (if f.isFeatured.Some? then 1 else 0)
    ensures |r| == 1 ==> r[0] == Eq(IsFeatured, VBool(f.isFeatured.value))
  {
    if f.isFeatured.Some? then [Eq(IsFeatured, VBool(f.isFeatured.value))] else []
  }

  /** The single ordering clause; newest-first is also what a missing sort gets. */
  function SortClause(s: Option<SortBy>): (r: Clause)
    ensures r.OrderBy?
    ensures r.column == ProductName ==> r.ascending
    ensures s != Some(ByName) && s != Some(PriceAsc) && s != Some(PriceDesc) ==> r == OrderBy(CreatedAt, false)
  {
    match s
    case Some(ByName) => OrderBy(ProductName, true)
    case Some(PriceAsc) => OrderBy(Price, true)
    case Some(PriceDesc) => OrderBy(Price, false)
    case _ => OrderBy(CreatedAt, false)
  }

  /** The page size paging uses: `limit || 10`. */
  function PageSize(f: ProductFilters): int {
    if NumSet(f.limit) then f.limit.value else 10
  }

  /** `limit` when truthy, and the inclusive row range of one page when the offset is truthy. */
  function PageClauses(f: ProductFilters): (r: seq<Clause>)
    ensures forall n :: Limit(n) in r <==> NumSet(f.limit) && n == f.limit.value
    ensures forall a, b :: Range(a, b) in r <==> NumSet(f.offset) && a == f.offset.value && b - a + 1 == PageSize(f)
    ensures forall c :: c in r ==> c.Limit? || c.Range?
  {
    (if NumSet(f.limit) then [Limit(f.limit.value)] else [])
    + (if NumSet(f.offset) then [Range(f.offset.value, f.offset.value + PageSize(f) - 1)] else [])
  }

  /** The filtering clauses `getProducts` and `getProductsCount` share. */
  function SharedClauses(f: ProductFilters): seq<Clause> {
    [Published] + CategoryClauses(f) + SearchClauses(f) + PriceClauses(f)
  }

  // The methods below follow the service's `query = query...` reassignments one by one; the
  // clause functions above are their specification, which the count query and the lemmas use.

  /** The filters `getProducts` and `getProductsCount` both apply, in the order they apply them. */
  method ApplySharedFilters(f: ProductFilters) returns (q: seq<Clause>)
    ensures q == SharedClauses(f)
  {
    q := [Published];
    if f.categoryIds.Some? && |f.categoryIds.value| > 0 {
      q := q + [AnyOf(CategoryFilter(f.categoryIds.value))];
    }
    if TextSet(f.search) {
      q := q + [AnyOf(SearchFilter(f.search.value))];
    }
    assert q == [Published] + CategoryClauses(f) + SearchClauses(f);
    if f.minPrice.Some? {
      q := q + [Gte(Price, f.minPrice.value)];
    }
    if f.maxPrice.Some? {
      q := q + [Lte(Price, f.maxPrice.value)];
    }
  }

  /** The `switch (sortBy)` of `getProducts`: one ordering clause. */
  method ApplySort(q0: seq<Clause>, s: Option<SortBy>) returns (q: seq<Clause>)
    ensures q == q0 + [SortClause(s)]
  {
    match s {
      case Some(ByName) => q := q0 + [OrderBy(ProductName, true)];
      case Some(PriceAsc) => q := q0 + [OrderBy(Price, true)];
      case Some(PriceDesc) => q := q0 + [OrderBy(Price, false)];
      case Some(Newest) => q := q0 + [OrderBy(CreatedAt, false)];
      case None => q := q0 + [OrderBy(CreatedAt, false)];
    }
  }

  /** The paging of `getProducts`: `limit`, then the row range of the page. */
  method ApplyPaging(q0: seq<Clause>, f: ProductFilters) returns (q: seq<Clause>)
    ensures q == q0 + PageClauses(f)
  {
    q := q0;
    var lim := if NumSet(f.limit) then [Limit(f.limit.value)] else [];
    var rng := if NumSet(f.offset) then [Range(f.offset.value, f.offset.value + PageSize(f) - 1)] else [];
    if NumSet(f.limit) {
      q := q + [Limit(f.limit.value)];
    }
    assert q == q0 + lim;
    if NumSet(f.offset) {
      q := q + [Range(f.offset.value, f.offset.value + PageSize(f) - 1)];
    }
    assert q == q0 + lim + rng;
    ConcatAssoc(q0, lim, rng);
  }

  /** `getProducts(filters)`: the clauses chained onto the query, in order. */
  method ProductsQuery(f: ProductFilters) returns (q: seq<Clause>)
    ensures q == SharedClauses(f) + StockClauses(f) + FeaturedClauses(f) + [SortClause(f.sortBy)] + PageClauses(f)
  {
    q := ApplySharedFilters(f);
    if TextSet(f.stockStatus) {
      q := q + [Eq(StockStatus, VStr(f.stockStatus.value))];
    }
    if f.isFeatured.Some? {
      q := q + [Eq(IsFeatured, VBool(f.isFeatured.value))];
    }
    assert q == SharedClauses(f) + StockClauses(f) + FeaturedClauses(f);
    q := ApplySort(q, f.sortBy);
    q := ApplyPaging(q, f);
  }

  /** `getProductsCount(filters)`: the shared filters and the featured flag; stock status, sorting and paging are not applied. */
  method CountQuery(f: ProductFilters) returns (q: seq<Clause>)
    ensures q == SharedClauses(f) + FeaturedClauses(f)
  {
    q := ApplySharedFilters(f);
    if f.isFeatured.Some? {
      q := q + [Eq(IsFeatured, VBool(f.isFeatured.value))];
    }
  }

  /** The clauses the count query leaves out: the stock-status filter, ordering and paging. */
  predicate ListingOnly(c: Clause) {
    c.OrderBy? || c.Limit? || c.Range? || (c.Eq? && c.column == StockStatus)
  }

  const KeptByCount: Clause -> bool := (c: Clause) => !ListingOnly(c)

  lemma SharedKept(f: ProductFilters)
    ensures Filter(SharedClauses(f), KeptByCount) == SharedClauses(f)
  {
    var sh := SharedClauses(f);
    forall i | 0 <= i < |sh| ensures KeptByCount(sh[i]) {
      assert sh[i] in sh;
    }
    FilterAll(sh, KeptByCount);
  }

  lemma ListingDropped(f: ProductFilters)
    ensures Filter(StockClauses(f), KeptByCount) == []
    ensures Filter([SortClause(f.sortBy)], KeptByCount) == []
    ensures Filter(PageClauses(f), KeptByCount) == []
  {
    var pg := PageClauses(f);
    forall i | 0 <= i < |pg| ensures !KeptByCount(pg[i]) {
      assert pg[i] in pg;
    }
    FilterNone(pg, KeptByCount);
    FilterNone(StockClauses(f), KeptByCount);
    FilterNone([SortClause(f.sortBy)], KeptByCount);
  }

  lemma FeaturedKept(f: ProductFilters)
    ensures Filter(FeaturedClauses(f), KeptByCount) == FeaturedClauses(f)
  {
    FilterAll(FeaturedClauses(f), KeptByCount);
  }

  /** Dropping the listing-only clauses from the products query gives exactly the count query. */
  lemma CountQueryDropsListingClauses(f: ProductFilters)
    ensures Filter(SharedClauses(f) + StockClauses(f) + FeaturedClauses(f) + [SortClause(f.sortBy)] + PageClauses(f), KeptByCount)
         == SharedClauses(f) + FeaturedClauses(f)
  {
    var sh, st, fe, so, pg := SharedClauses(f), StockClauses(f), FeaturedClauses(f), [SortClause(f.sortBy)], PageClauses(f);
    SharedKept(f);
    ListingDropped(f);
    FeaturedKept(f);
    KeepFirstAndThird(sh, st, fe, so, pg, KeptByCount);
  }

  /** Filtering five consecutive parts, of which `p` keeps the first and third whole and drops the rest. */
  lemma KeepFirstAndThird<T(!new)>(a: seq<T>, b: seq<T>, c: seq<T>, d: seq<T>, e: seq<T>, p: T -> bool)
    requires Filter(a, p) == a && Filter(b, p) == [] && Filter(c, p) == c && Filter(d, p) == [] && Filter(e, p) == []
    ensures Filter(a + b + c + d + e, p) == a + c
  {
    FilterAppend(a, b, p);
    assert a + [] == a;
    assert Filter(a + b, p) == a;
    FilterAppend(a + b, c, p);
    assert Filter(a + b + c, p) == a + c;
    FilterAppend(a + b + c, d, p);
    assert (a + c) + [] == a + c;
    assert Filter(a + b + c + d, p) == a + c;
    FilterAppend(a + b + c + d, e, p);
  }

  /** `count || 0`, and 0 when the count query fails. */
  function CountResult(count: JsNum, failed: bool): (r: int)
    ensures failed || !Truthy(count) ==> r == 0
    ensures !failed && Truthy(count) ==> r == count.v
  {
    if failed then 0 else NumOr(Or(count, Val(0)), 0)
  }

  const NoFilters: ProductFilters := ProductFilters(None, None, None, None, None, None, None, None, None)

  /** `getFeaturedProducts(limit = 8)`. */
  function FeaturedFilters(limit: Option<int>): ProductFilters {
    NoFilters.(isFeatured := Some(true), limit := Some(if limit.Some? then limit.value else 8), sortBy := Some(Newest))
  }

  /** `searchProducts(query, limit = 20)`. */
  function SearchFilters(query: string, limit: Option<int>): ProductFilters {
    NoFilters.(search := Some(query), limit := Some(if limit.Some? then limit.value else 20))
  }

  /** The featured listing: published featured products, newest first, at most `limit` of them, with no other filter. */
  lemma FeaturedQuery(limit: Option<int>)
    ensures var f := FeaturedFilters(limit);
      var l := if limit.Some? then limit.value else 8;
      SharedClauses(f) + StockClauses(f) + FeaturedClauses(f) + [SortClause(f.sortBy)] + PageClauses(f)
        == [Published, Eq(IsFeatured, VBool(true)), OrderBy(CreatedAt, false)] + (if l != 0 then [Limit(l)] else [])
  {
  }

  /** The search listing: published products whose name or description matches, default order, at most `limit`. */
  lemma SearchQuery(query: string, limit: Option<int>)
    requires query != ""
    ensures var f := SearchFilters(query, limit);
      var l := if limit.Some? then limit.value else 20;
      SharedClauses(f) + StockClauses(f) + FeaturedClauses(f) + [SortClause(f.sortBy)] + PageClauses(f)
        == [Published, AnyOf(SearchFilter(query)), OrderBy(CreatedAt, false)] + (if l != 0 then [Limit(l)] else [])
  {
  }

  /** A row of the `products` table: the product with the slug and publication status it is looked up by. */
  datatype StoredProduct = StoredProduct(slug: string, status: string, product: Product)

  function StoredSlug(x: StoredProduct): string {
    x.slug
  }

  /** The single published row with that slug, as `getProductBySlug` asks for it. */
  predicate SlugMatch(x: StoredProduct, slug: string) {
    x.slug == slug && x.status == "published"
  }

  /** `.eq('id', id)`: the database compares the id's text, so `5` and `"5"` select the same row. */
  predicate IdMatch(x: StoredProduct, id: Id) {
    IdText(x.product.id) == IdText(id)
  }

  /** `getProductBySlug(slug)`: null when the lookup fails; otherwise the single published product with that slug. */
  function ProductBySlug(table: seq<StoredProduct>, slug: string, failed: bool): (r: Option<Product>)
    ensures failed ==> r.None?
    ensures r.Some? ==> exists x :: x in table && SlugMatch(x, slug) && x.product == r.value
  {
    if failed then None
    else match Single(table, (x: StoredProduct) => SlugMatch(x, slug))
      case Some(x) => Some(x.product)
      case None => None
  }

  /** `getProductById(id)`: null when the lookup fails; otherwise the single product with that id, whatever its status. */
  function ProductById(table: seq<StoredProduct>, id: Id, failed: bool): (r: Option<Product>)
    ensures failed ==> r.None?
    ensures r.Some? ==> exists x :: x in table && IdMatch(x, id) && x.product == r.value
  {
    if failed then None
    else match Single(table, (x: StoredProduct) => IdMatch(x, id))
      case Some(x) => Some(x.product)
      case None => None
  }

  /** With unique slugs, a slug finds its product exactly when that product is published. */
  lemma ProductBySlugSpec(table: seq<StoredProduct>, k: nat)
    requires KeysUnique(table, StoredSlug) && k < |table|
    ensures ProductBySlug(table, table[k].slug, false) == (if table[k].status == "published" then Some(table[k].product) else None)
  {
    var p := (x: StoredProduct) => SlugMatch(x, table[k].slug);
    forall j | 0 <= j < |table| && j != k ensures !p(table[j]) {
      if j < k { assert StoredSlug(table[j]) != StoredSlug(table[k]); } else { assert StoredSlug(table[k]) != StoredSlug(table[j]); }
    }
    if table[k].status == "published" {
      SingleUnique(table, p, k);
    } else {
      SingleNone(table, p);
    }
  }

  /** The id lookup does not filter on status: a draft product is found by id but not by slug. */
  lemma DraftFoundOnlyById(x: StoredProduct)
    requires x.status != "published"
    ensures ProductById([x], x.product.id, false) == Some(x.product)
    ensures ProductBySlug([x], x.slug, false) == None
  {
    SingleUnique([x], (y: StoredProduct) => IdMatch(y, x.product.id), 0);
    SingleNone([x], (y: StoredProduct) => SlugMatch(y, x.slug));
  }
}
