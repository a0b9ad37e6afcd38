/**
 * The recipe list page (`RecipeList`): the records and categories fetched
 * from the backend, and the records shown for the chosen category and the
 * search term.
 */
module RecipeListView {
  import opened Text
  import opened Records

  const AllLabel: string := "All"

  /** The category test: "All" passes everything; otherwise a case-sensitive substring of a non-empty category. */
  predicate CategoryMatch(r: Recipe, activeCategory: string) {
    activeCategory == AllLabel || (Field(r, "category") != "" && Contains(Field(r, "category"), activeCategory))
  }

  /** The search test: the lower-cased title contains the lower-cased search term. */
  predicate SearchMatch(r: Recipe, searchTerm: string) {
    Contains(Lower(Field(r, "title")), Lower(searchTerm))
  }

  /** `filteredRecipes`: never more records than fetched, each passing both tests. */
  function FilteredRecipes(recipes: seq<Recipe>, activeCategory: string, searchTerm: string): (shown: seq<Recipe>)
    ensures |shown| <= |recipes|
    ensures forall i :: 0 <= i < |shown| ==>
      shown[i] in recipes && CategoryMatch(shown[i], activeCategory) && SearchMatch(shown[i], searchTerm)
  {
    Keep(recipes, r => CategoryMatch(r, activeCategory) && SearchMatch(r, searchTerm))
  }

  /** The shown records are, in order, exactly those passing both tests. */
  lemma FilteredRecipesKeeps(recipes: seq<Recipe>, activeCategory: string, searchTerm: string)
    ensures SubsequenceOf(FilteredRecipes(recipes, activeCategory, searchTerm), recipes)
    ensures forall r :: r in FilteredRecipes(recipes, activeCategory, searchTerm) <==>
      r in recipes && CategoryMatch(r, activeCategory) && SearchMatch(r, searchTerm)
  {
    KeepIsSubsequence(recipes, r => CategoryMatch(r, activeCategory) && SearchMatch(r, searchTerm));
  }

  /** Every string contains the empty string. */
  lemma ContainsEmpty(s: string)
    ensures Contains(s, "")
  {
    assert s[..0] == "";
  }

  /** An empty search term keeps every record that passes the category test. */
  lemma EmptySearchFiltersByCategoryOnly(recipes: seq<Recipe>, activeCategory: string)
    ensures FilteredRecipes(recipes, activeCategory, "") == Keep(recipes, r => CategoryMatch(r, activeCategory))
  {
    assert Lower("") == "";
    forall i | 0 <= i < |recipes| ensures SearchMatch(recipes[i], "") {
      ContainsEmpty(Lower(Field(recipes[i], "title")));
    }
    KeepAgreeing(recipes, r => CategoryMatch(r, activeCategory) && SearchMatch(r, ""),
                 r => CategoryMatch(r, activeCategory));
  }

  /** With "All" and no search term, every record is shown. */
  lemma NothingFilteredAtStart(recipes: seq<Recipe>)
    ensures FilteredRecipes(recipes, AllLabel, "") == recipes
  {
    EmptySearchFiltersByCategoryOnly(recipes, AllLabel);
    KeepAll(recipes, r => CategoryMatch(r, AllLabel));
  }

  /** What the two requests of `fetchAllData` gave: either failed, or both returned these lists. */
  datatype ListFetch = FetchFailed | Fetched(recipes: seq<Recipe>, categories: seq<string>)

  /** The page's state. */
  class RecipeListState {
    var recipes: seq<Recipe>
    var categories: seq<string>
    var activeCategory: string
    var loading: bool
    var searchTerm: string

    constructor ()
      ensures recipes == [] && categories == [] && activeCategory == AllLabel
      ensures loading && searchTerm == ""
    {
      recipes := [];
      categories := [];
      activeCategory := AllLabel;
      loading := true;
      searchTerm := "";
    }

    /** The records the page shows. */
    function Shown(): seq<Recipe>
      reads this
    {
      FilteredRecipes(recipes, activeCategory, searchTerm)
    }

    /**
     * `fetchAllData`: loading while the requests run; then the fetched
     * records and "All" before the fetched categories, or no records and
     * only "All" when a request failed; loading ends either way.
     */
    method FetchAllData(outcome: ListFetch)
      modifies this
      ensures !loading
      ensures |categories| >= 1 && categories[0] == AllLabel
      ensures outcome.Fetched? ==> recipes == outcome.recipes && categories == [AllLabel] + outcome.categories
      ensures outcome.FetchFailed? ==> recipes == [] && categories == [AllLabel]
      ensures activeCategory == old(activeCategory) && searchTerm == old(searchTerm)
    {
      loading := true;
      match outcome {
        case Fetched(fetchedRecipes, fetchedCategories) =>
          recipes := fetchedRecipes;
          categories := [AllLabel] + fetchedCategories;
        case FetchFailed =>
          recipes := [];
          categories := [AllLabel];
      }
      loading := false;
    }

    method SetActiveCategory(category: string)
      modifies this
      ensures activeCategory == category
      ensures recipes == old(recipes) && categories == old(categories) && searchTerm == old(searchTerm)
      ensures loading == old(loading)
    {
      activeCategory := category;
    }

    method SetSearchTerm(term: string)
      modifies this
      ensures searchTerm == term
      ensures recipes == old(recipes) && categories == old(categories) && activeCategory == old(activeCategory)
      ensures loading == old(loading)
    {
      searchTerm := term;
    }
  }
}
