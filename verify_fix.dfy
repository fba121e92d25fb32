/**
 * The resolver check script (`dev/verify_fix.ts`): a copy of the shop page's subcategory
 * stage, run over a list of test cases, without the main-category fallback.
 */
module VerifyFix {
  import opened Common
  import opened Text
  import opened Catalog
  import opened ShopPage

  datatype TestCase = TestCase(category: string, subcategory: string)

  /** The script's resolver: the subcategory stage only; nothing when either slug is empty. */
  function DevTargetIds(cats: seq<CategoryRow>, cat: string, sub: string): (r: seq<Id>)
    ensures |r| <= 1
    ensures cat == "" || sub == "" ==> r == []
  {
    if cat != "" && sub != "" then SubcategoryStage(cats, cat, sub) else []
  }

  /** `cats.find(c => c.id === id)?.name` for every resolved id. */
  function ResultNames(cats: seq<CategoryRow>, ids: seq<Id>): (r: seq<Option<string>>)
    ensures |r| == |ids|
    ensures forall i :: 0 <= i < |ids| ==>
      match RowWithId(cats, ids[i])
      case Some(k) => r[i] == Some(cats[k].name)
      case None => r[i] == None
  {
    if |ids| == 0 then []
    else
      var first := match RowWithId(cats, ids[0]) case Some(k) => Some(cats[k].name) case None => None;
      [first] + ResultNames(cats, ids[1..])
  }

  /** The resolved ids of every test case, in order. */
  function Resolved(cats: seq<CategoryRow>, cases: seq<TestCase>): (r: seq<seq<Id>>)
    ensures |r| == |cases|
    ensures forall i :: 0 <= i < |cases| ==> r[i] == DevTargetIds(cats, cases[i].category, cases[i].subcategory)
  {
    if |cases| == 0 then []
    else
      var prefix, last := cases[..|cases| - 1], cases[|cases| - 1];
      assert forall i :: 0 <= i < |prefix| ==> prefix[i] == cases[i];
      Resolved(cats, prefix) + [DevTargetIds(cats, last.category, last.subcategory)]
  }

  /** The looked-up names of every resolved id list, in order. */
  function AllNames(cats: seq<CategoryRow>, results: seq<seq<Id>>): (r: seq<seq<Option<string>>>)
    ensures |r| == |results|
    ensures forall i :: 0 <= i < |results| ==> r[i] == ResultNames(cats, results[i])
  {
    if |results| == 0 then []
    else AllNames(cats, results[..|results| - 1]) + [ResultNames(cats, results[|results| - 1])]
  }

  /** One test case of `testLogic`: both slugs set, then the subcategory stage. */
  method ResolveCase(cats: seq<CategoryRow>, test: TestCase) returns (targetCatIds: seq<Id>)
    ensures targetCatIds == DevTargetIds(cats, test.category, test.subcategory)
  {
    var categorySlug := test.category;
    var subcategorySlug := test.subcategory;
    targetCatIds := [];
    if categorySlug != "" {
      if subcategorySlug != "" {
        targetCatIds := SubcategoryStage(cats, categorySlug, subcategorySlug);
      }
    }
  }

  /** `testLogic`: resolve every test case in turn and look up the resolved names. */
  method TestLogic(cats: seq<CategoryRow>, cases: seq<TestCase>) returns (results: seq<seq<Id>>, names: seq<seq<Option<string>>>)
    ensures results == Resolved(cats, cases)
    ensures names == AllNames(cats, results)
  {
    results := [];
    names := [];
    for n := 0 to |cases|
      invariant results == Resolved(cats, cases[..n])
      invariant names == AllNames(cats, results)
    {
      var targetCatIds := ResolveCase(cats, cases[n]);
      assert cases[..n + 1][..n] == cases[..n];
      assert (results + [targetCatIds])[..n] == results;
      results := results + [targetCatIds];
      names := names + [ResultNames(cats, targetCatIds)];
    }
    assert cases[..|cases|] == cases;
  }

  /** Whenever the script resolves an id, the shop page resolves the same one. */
  lemma DevAgreesWhenResolved(cats: seq<CategoryRow>, cat: string, sub: string)
    requires |DevTargetIds(cats, cat, sub)| == 1
    ensures ShopTargetIds(cats, cat, sub) == DevTargetIds(cats, cat, sub)
  {
  }

  /** When the script resolves nothing, the shop page's answer is its main-category fallback alone. */
  lemma DevEmptyMeansShopFallback(cats: seq<CategoryRow>, cat: string, sub: string)
    requires cat != ""
    requires DevTargetIds(cats, cat, sub) == []
    ensures ShopTargetIds(cats, cat, sub) == MainFallback(cats, cat)
  {
  }

  /**
   * The script lacks the fallback: a category row slugged `men` is found by the shop page
   * but not by the script when no row matches the subcategory.
   */
  lemma DevLacksMainFallback(cats: seq<CategoryRow>, sub: string, i: nat)
    requires sub != ""
    requires forall k :: 0 <= k < |cats| ==> !Accepted(cats, cats[k], "men", sub) && Lower(cats[k].slug) != Lower(sub)
    requires i < |cats| && MainMatch(cats[i], "men")
    ensures DevTargetIds(cats, "men", sub) == []
    ensures |ShopTargetIds(cats, "men", sub)| == 1
  {
  }
}
