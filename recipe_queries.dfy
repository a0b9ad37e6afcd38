/**
 * The read side of the backend: the category list (`get_all_categories`),
 * the recipe list with its case-insensitive category filter and optional
 * translation (`get_all_recipes`), and the single-recipe lookup
 * (`get_recipe_by_id`).
 *
 * The store is given as the records it lists (for the list endpoints) or as
 * a map from id to metadata (for the lookup). The translator is an opaque
 * function of the text and the target language.
 */
module RecipeQueries {
  import opened Text
  import opened Records

  // ---------------------------------------------------------------------
  // Ordering of strings
  // ---------------------------------------------------------------------

  /** Python's `<` on strings: lexicographic by character code, a proper prefix first. */
  predicate Below(a: string, b: string) {
    b != [] && (a == [] || a[0] < b[0] || (a[0] == b[0] && Below(a[1..], b[1..])))
  }

  lemma {:induction false} BelowIrreflexive(a: string)
    ensures !Below(a, a)
  {
    if a != [] {
      BelowIrreflexive(a[1..]);
    }
  }

  lemma {:induction false} BelowTransitive(a: string, b: string, c: string)
    requires Below(a, b) && Below(b, c)
    ensures Below(a, c)
  {
    if a != [] && a[0] == b[0] && b[0] == c[0] {
      BelowTransitive(a[1..], b[1..], c[1..]);
    }
  }

  lemma {:induction false} BelowTotal(a: string, b: string)
    requires a != b
    ensures Below(a, b) || Below(b, a)
  {
    if a != [] && b != [] && a[0] == b[0] {
      BelowTotal(a[1..], b[1..]);
    }
  }

  /** Strictly increasing, hence sorted and without duplicates. */
  predicate StrictlySorted(s: seq<string>) {
    forall i, j :: 0 <= i < j < |s| ==> Below(s[i], s[j])
  }

  /** Adds `x` to a strictly sorted list at its place, unless it is already there. */
  function Insert(x: string, s: seq<string>): (r: seq<string>)
    requires StrictlySorted(s)
    ensures StrictlySorted(r)
    ensures forall y :: y in r <==> y == x || y in s
  {
    if s == [] then [x]
    else if x == s[0] then s
    else if Below(x, s[0]) then
      assert forall j :: 0 < j < |s| ==> Below(x, s[j]) by {
        forall j | 0 < j < |s| ensures Below(x, s[j]) {
          BelowTransitive(x, s[0], s[j]);
        }
      }
      [x] + s
    else
      BelowTotal(x, s[0]);
      var rest := Insert(x, s[1..]);
      assert forall y :: y in rest ==> Below(s[0], y);
      [s[0]] + rest
  }

  /** `sorted(set(xs))` */
  function SortedUnique(xs: seq<string>): (r: seq<string>)
    ensures StrictlySorted(r)
    ensures forall y :: y in r <==> y in xs
  {
    if xs == [] then [] else Insert(xs[0], SortedUnique(xs[1..]))
  }

  // ---------------------------------------------------------------------
  // Categories
  // ---------------------------------------------------------------------

  /** The stripped `/`-pieces of a category value. */
  function CategoryPieces(category: string): seq<string> {
    StripAll(Split(category, '/'))
  }

  /** The pieces of every non-empty category, record by record. */
  function AllPieces(metadatas: seq<map<string, string>>): seq<string> {
    if metadatas == [] then []
    else
      var category := Get(metadatas[0], "category");
      (if category != "" then CategoryPieces(category) else []) + AllPieces(metadatas[1..])
  }

  /** `get_all_categories` over the stored metadata. */
  function AllCategories(metadatas: seq<map<string, string>>): (r: seq<string>)
    ensures StrictlySorted(r)
  {
    SortedUnique(AllPieces(metadatas))
  }

  /**
   * A category is listed exactly when it is a stripped piece of the
   * non-empty category of some record.
   */
  lemma {:induction false} CategoriesListed(metadatas: seq<map<string, string>>, x: string)
    ensures x in AllCategories(metadatas) <==>
      exists i :: 0 <= i < |metadatas| && Get(metadatas[i], "category") != ""
        && x in CategoryPieces(Get(metadatas[i], "category"))
  {
    PiecesListed(metadatas, x);
  }

  lemma {:induction false} PiecesListed(metadatas: seq<map<string, string>>, x: string)
    ensures x in AllPieces(metadatas) <==>
      exists i :: 0 <= i < |metadatas| && Get(metadatas[i], "category") != ""
        && x in CategoryPieces(Get(metadatas[i], "category"))
  {
    if metadatas != [] {
      PiecesListed(metadatas[1..], x);
      if x in AllPieces(metadatas[1..]) {
        var i :| 0 <= i < |metadatas[1..]| && Get(metadatas[1..][i], "category") != ""
          && x in CategoryPieces(Get(metadatas[1..][i], "category"));
        assert metadatas[i + 1] == metadatas[1..][i];
      }
      if (exists i :: 0 <= i < |metadatas| && Get(metadatas[i], "category") != ""
                      && x in CategoryPieces(Get(metadatas[i], "category"))) {
        var i :| 0 <= i < |metadatas| && Get(metadatas[i], "category") != ""
          && x in CategoryPieces(Get(metadatas[i], "category"));
        if i > 0 {
          assert metadatas[1..][i - 1] == metadatas[i];
        }
      }
    }
  }

  /** The last piece of a string ending in the separator is empty. */
  lemma {:induction false} TrailingSeparator(s: string, c: char)
    ensures var parts := Split(s + [c], c);
      |parts| >= 2 && parts[|parts| - 1] == ""
  {
    var t := s + [c];
    if s == [] {
      assert t[..|[c]|] == [c] && t[|[c]|..] == [];
      assert Split(t, c) == [""] + Split([], c);
    } else {
      TrailingSeparator(s[1..], c);
      assert t[1..] == s[1..] + [c];
      if t[..1] == [c] {
        assert t[|[c]|..] == t[1..];
      }
    }
  }

  /** A category that ends in `/` contributes the empty category. */
  lemma TrailingSlashListsEmpty(metadatas: seq<map<string, string>>, i: nat, category: string)
    requires i < |metadatas| && Get(metadatas[i], "category") == category + "/"
    ensures "" in AllCategories(metadatas)
  {
    var parts := Split(category + "/", '/');
    TrailingSeparator(category, '/');
    var pieces := CategoryPieces(category + "/");
    StripAllAt(parts, |parts| - 1);
    assert pieces[|parts| - 1] == "";
    CategoriesListed(metadatas, "");
  }

  // ---------------------------------------------------------------------
  // The recipe list
  // ---------------------------------------------------------------------

  /** A query parameter that is present and not empty. */
  predicate Given(p: Option<string>) {
    p.Some? && p.value != ""
  }

  /** The record's category is not empty and contains the query, both lower-cased. */
  predicate InCategory(r: Recipe, query: string) {
    Field(r, "category") != "" && Contains(Lower(Field(r, "category")), Lower(query))
  }

  /** The category filter of `get_all_recipes`; no filter when no category is given. */
  function FilterByCategory(recipes: seq<Recipe>, category: Option<string>): (kept: seq<Recipe>)
    ensures |kept| <= |recipes|
    ensures !Given(category) ==> kept == recipes
  {
    if Given(category) then Keep(recipes, r => InCategory(r, category.value)) else recipes
  }

  /**
   * The filter keeps, in order, exactly the records whose category contains
   * the query, and keeps everything when no category is given.
   */
  lemma FilterByCategoryKeeps(recipes: seq<Recipe>, category: Option<string>)
    ensures SubsequenceOf(FilterByCategory(recipes, category), recipes)
    ensures forall r :: r in FilterByCategory(recipes, category) <==>
      r in recipes && (!Given(category) || InCategory(r, category.value))
  {
    if Given(category) {
      KeepIsSubsequence(recipes, r => InCategory(r, category.value));
    } else {
      SubsequenceOfItself(recipes);
    }
  }

  lemma {:induction false} SubsequenceOfItself<T>(s: seq<T>)
    ensures SubsequenceOf(s, s)
  {
    if s != [] {
      SubsequenceOfItself(s[1..]);
    }
  }

  lemma LowerTwice(s: string)
    ensures Lower(Lower(s)) == Lower(s)
  {
  }

  /** The query's case does not matter. */
  lemma FilterIgnoresQueryCase(recipes: seq<Recipe>, query: string)
    ensures FilterByCategory(recipes, Some(Lower(query))) == FilterByCategory(recipes, Some(query))
  {
    LowerTwice(query);
    if query != "" {
      KeepAgreeing(recipes, r => InCategory(r, Lower(query)), r => InCategory(r, query));
    }
  }

  // ---------------------------------------------------------------------
  // Translation
  // ---------------------------------------------------------------------

  /** `language and language.lower() != "english"` */
  predicate TranslationWanted(language: Option<string>) {
    Given(language) && Lower(language.value) != "english"
  }

  /** Replaces a field by its translation when it is not empty. */
  function TranslateIfSet(fields: map<string, string>, key: string, language: string,
                          translate: (string, string) -> string): map<string, string> {
    if Get(fields, key) != "" then fields[key := translate(fields[key], language)] else fields
  }

  /**
   * A record translated: the title always, ingredients, instructions and
   * nutrition only when they are not empty; the id and the other fields as
   * they were.
   */
  function TranslateRecipe(r: Recipe, language: string, translate: (string, string) -> string): (t: Recipe)
    ensures t.id == r.id
    ensures forall k :: k in t.fields <==> k in r.fields || k == "title"
  {
    var fields := r.fields["title" := translate(Get(r.fields, "title"), language)];
    var fields := TranslateIfSet(fields, "ingredients", language, translate);
    var fields := TranslateIfSet(fields, "instructions", language, translate);
    var fields := TranslateIfSet(fields, "nutrition", language, translate);
    Recipe(r.id, fields)
  }

  /** The fields translation touches. */
  const TranslatedFields: set<string> := {"title", "ingredients", "instructions", "nutrition"}

  /** Translation leaves the id and every other field as it was, and empty fields empty. */
  lemma TranslationTouchesOnlyText(r: Recipe, language: string, translate: (string, string) -> string)
    ensures var t := TranslateRecipe(r, language, translate);
      && t.id == r.id
      && Field(t, "title") == translate(Field(r, "title"), language)
      && (forall k :: k !in TranslatedFields ==> (k in t.fields <==> k in r.fields) && Field(t, k) == Field(r, k))
      && (forall k :: k in TranslatedFields && k != "title" ==>
            Field(t, k) == if Field(r, k) != "" then translate(Field(r, k), language) else Field(r, k))
  {
    var t := TranslateRecipe(r, language, translate);
    forall k | k in TranslatedFields && k != "title"
      ensures Field(t, k) == if Field(r, k) != "" then translate(Field(r, k), language) else Field(r, k)
    {
      assert k == "ingredients" || k == "instructions" || k == "nutrition";
    }
  }

  /** With a translator that changes nothing, a record with a title comes back unchanged. */
  lemma IdentityTranslation(r: Recipe, language: string)
    requires "title" in r.fields
    ensures TranslateRecipe(r, language, (text, lang) => text) == r
  {
    var t := TranslateRecipe(r, language, (text, lang) => text);
    assert t.fields == r.fields;
  }

  /** "English" in any letter case is not translated. */
  lemma EnglishNotTranslated(language: string)
    requires Lower(language) == "english"
    ensures !TranslationWanted(Some(language))
  {
  }

  /**
   * `get_all_recipes`: the listed records, filtered by category, then
   * translated in place when a language other than English is asked for.
   */
  method GetAllRecipes(listing: seq<Recipe>, category: Option<string>, language: Option<string>,
                       translate: (string, string) -> string) returns (result: seq<Recipe>)
    ensures var kept := FilterByCategory(listing, category);
      && |result| == |kept|
      && forall i :: 0 <= i < |result| ==>
        result[i] == if TranslationWanted(language) then TranslateRecipe(kept[i], language.value, translate) else kept[i]
  {
    var recipes := FilterByCategory(listing, category);
    var list := new Recipe[|recipes|](i requires 0 <= i < |recipes| => recipes[i]);
    if TranslationWanted(language) {
      var lang := language.value;
      var i := 0;
      while i < list.Length
        invariant 0 <= i <= list.Length
        invariant forall j :: 0 <= j < i ==> list[j] == TranslateRecipe(recipes[j], lang, translate)
        invariant forall j :: i <= j < list.Length ==> list[j] == recipes[j]
      {
        var r := list[i];
        var fields := r.fields;
        fields := fields["title" := translate(Get(fields, "title"), lang)];
        if Get(fields, "ingredients") != "" {
          fields := fields["ingredients" := translate(fields["ingredients"], lang)];
        }
        if Get(fields, "instructions") != "" {
          fields := fields["instructions" := translate(fields["instructions"], lang)];
        }
        if Get(fields, "nutrition") != "" {
          fields := fields["nutrition" := translate(fields["nutrition"], lang)];
        }
        assert Recipe(r.id, fields) == TranslateRecipe(recipes[i], lang, translate);
        ghost var prev := list[..];
        list[i] := Recipe(r.id, fields);
        assert list[..] == prev[i := Recipe(r.id, fields)];
        i := i + 1;
      }
    }
    result := list[..];
  }

  /**
   * `get_recipe_by_id`: the stored record under the id, translated as in the
   * list, or `None` when the store has no such id.
   */
  function GetRecipeById(store: map<string, map<string, string>>, id: string, language: Option<string>,
                         translate: (string, string) -> string): (r: Option<Recipe>)
    ensures r.Some? <==> id in store
    ensures r.Some? ==> r.value.id == id
  {
    if id !in store then None
    else
      var recipe := Recipe(id, store[id]);
      Some(if TranslationWanted(language) then TranslateRecipe(recipe, language.value, translate) else recipe)
  }

  /**
   * With a language other than English, the lookup returns the stored record
   * with its title translated, its ingredients, instructions and nutrition
   * translated when not empty, and every other field as stored.
   */
  lemma LookupTranslated(store: map<string, map<string, string>>, id: string, language: Option<string>,
                         translate: (string, string) -> string)
    requires id in store && TranslationWanted(language)
    ensures GetRecipeById(store, id, language, translate).Some?
    ensures var r := GetRecipeById(store, id, language, translate).value;
      && r.id == id
      && Field(r, "title") == translate(Get(store[id], "title"), language.value)
      && (forall k :: k !in TranslatedFields ==> (k in r.fields <==> k in store[id]) && Field(r, k) == Get(store[id], k))
      && (forall k :: k in TranslatedFields && k != "title" ==>
            Field(r, k) == if Get(store[id], k) != "" then translate(Get(store[id], k), language.value) else Get(store[id], k))
  {
    TranslationTouchesOnlyText(Recipe(id, store[id]), language.value, translate);
  }

  /** Without a language other than English, the lookup returns the stored record as it is. */
  lemma LookupUntranslated(store: map<string, map<string, string>>, id: string, language: Option<string>,
                           translate: (string, string) -> string)
    requires id in store && !TranslationWanted(language)
    ensures GetRecipeById(store, id, language, translate) == Some(Recipe(id, store[id]))
  {
  }
}
