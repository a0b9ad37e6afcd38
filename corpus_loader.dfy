/**
 * The corpus loader of the backend (`load_recipes_if_needed`): at start-up,
 * an empty store is seeded from the recipe file. The file's content is split
 * into blocks on the separator line, each block is parsed, blocks without a
 * title are skipped, and the rest are written to the store in one upsert
 * with three aligned lists: ids, searchable documents and metadata maps.
 *
 * The store is modelled as a map from id to (document, metadata) with a
 * count and a last-writer-wins upsert; the embedding and similarity search
 * behind it are not modelled. The file's content is a parameter (`None`
 * when the file is missing).
 */
module CorpusLoader {
  import opened Text
  import opened Records
  import opened RecipeParser

  /** The literal line between two recipe blocks: 45 dashes. */
  const RecipeSeparator: string := "---------------------------------------------"

  const ByteOrderMark: char := '\U{FEFF}'

  const IdPrefix: string := "recipe_"

  /** What the store holds under one id. */
  datatype Entry = Entry(document: string, metadata: map<string, string>)

  /**
   * The effect of one upsert on an empty store: each id takes the entry at
   * its position, a later position overwriting an earlier one.
   */
  function Batch(ids: seq<string>, documents: seq<string>, metadatas: seq<map<string, string>>): map<string, Entry>
    requires |ids| == |documents| == |metadatas|
  {
    if ids == [] then map[]
    else
      var n := |ids| - 1;
      Batch(ids[..n], documents[..n], metadatas[..n])[ids[n] := Entry(documents[n], metadatas[n])]
  }

  /** The ids of a batch are exactly the keys it writes. */
  lemma {:induction false} BatchKeys(ids: seq<string>, documents: seq<string>, metadatas: seq<map<string, string>>)
    requires |ids| == |documents| == |metadatas|
    ensures Batch(ids, documents, metadatas).Keys == set i | 0 <= i < |ids| :: ids[i]
  {
    if ids != [] {
      var n := |ids| - 1;
      BatchKeys(ids[..n], documents[..n], metadatas[..n]);
      assert (set i | 0 <= i < |ids| :: ids[i]) == (set i | 0 <= i < n :: ids[..n][i]) + {ids[n]};
    }
  }

  /** Last writer wins: an id holds the entry at its last position in the batch. */
  lemma {:induction false} BatchLastWriterWins(ids: seq<string>, documents: seq<string>, metadatas: seq<map<string, string>>, j: nat)
    requires |ids| == |documents| == |metadatas| && j < |ids|
    requires forall k :: j < k < |ids| ==> ids[k] != ids[j]
    ensures ids[j] in Batch(ids, documents, metadatas)
    ensures Batch(ids, documents, metadatas)[ids[j]] == Entry(documents[j], metadatas[j])
  {
    var n := |ids| - 1;
    if j < n {
      BatchLastWriterWins(ids[..n], documents[..n], metadatas[..n], j);
    }
  }

  /** The external store's collection, keyed by id. */
  class Store {
    var records: map<string, Entry>

    constructor ()
      ensures records == map[]
    {
      records := map[];
    }

    /** `collection.count()` */
    function Count(): (n: nat)
      reads this
      ensures n == 0 <==> records == map[]
    {
      |records|
    }

    /** `collection.upsert(ids=..., documents=..., metadatas=...)`: replaces existing ids, adds new ones. */
    method Upsert(ids: seq<string>, documents: seq<string>, metadatas: seq<map<string, string>>)
      requires |ids| == |documents| == |metadatas|
      modifies this
      ensures records == old(records) + Batch(ids, documents, metadatas)
    {
      var i := 0;
      while i < |ids|
        invariant 0 <= i <= |ids|
        invariant records == old(records) + Batch(ids[..i], documents[..i], metadatas[..i])
      {
        assert ids[..i + 1][..i] == ids[..i];
        assert documents[..i + 1][..i] == documents[..i];
        assert metadatas[..i + 1][..i] == metadatas[..i];
        records := records[ids[i] := Entry(documents[i], metadatas[i])];
        i := i + 1;
      }
      assert ids[..i] == ids && documents[..i] == documents && metadatas[..i] == metadatas;
    }
  }

  /** `re.sub(r'\W+', '', s)`: every non-word character deleted. */
  function DeleteNonWord(s: string): (r: string)
    ensures forall i :: 0 <= i < |r| ==> IsWordChar(r[i])
  {
    if s == [] then []
    else (if IsWordChar(s[0]) then [s[0]] else []) + DeleteNonWord(s[1..])
  }

  /** Deleting characters keeps only characters of the input. */
  lemma {:induction false} DeleteNonWordKeeps(s: string)
    ensures forall i :: 0 <= i < |DeleteNonWord(s)| ==> DeleteNonWord(s)[i] in s
  {
    if s != [] {
      DeleteNonWordKeeps(s[1..]);
    }
  }

  /**
   * The id of a recipe: `recipe_` followed by the lower-cased title with every
   * non-word character deleted (not replaced). It always starts with the
   * prefix, so it is never empty and the random fallback never applies.
   */
  function RecipeId(title: string): (id: string)
    ensures |id| >= |IdPrefix| && id[..|IdPrefix|] == IdPrefix
    ensures forall i :: |IdPrefix| <= i < |id| ==> IsWordChar(id[i]) && !('A' <= id[i] <= 'Z')
  {
    LowerHasNoUpper(title);
    DeleteNonWordKeeps(Lower(title));
    IdPrefix + DeleteNonWord(Lower(title))
  }

  /** `content.lstrip('\ufeff')`: every leading byte-order mark removed. */
  function TrimByteOrderMarks(s: string): (r: string)
    ensures r == [] || r[0] != ByteOrderMark
    ensures |r| <= |s| && s == seq(|s| - |r|, _ => ByteOrderMark) + r
  {
    if s != [] && s[0] == ByteOrderMark then TrimByteOrderMarks(s[1..]) else s
  }

  /** The searchable document stored beside a recipe's metadata: title, region, category, tags, ingredients, instructions and nutrition. */
  function DocumentText(recipe: map<string, string>): (doc: string)
    ensures var head := "Title: " + Get(recipe, "title");
      |head| <= |doc| && doc[..|head|] == head
    ensures var tail := "\n\nNutrition:\n" + Get(recipe, "nutrition");
      |tail| <= |doc| && doc[|doc| - |tail|..] == tail
  {
    var head := "Title: " + Get(recipe, "title");
    var tail := "\n\nNutrition:\n" + Get(recipe, "nutrition");
    var doc := head + DocumentMiddle(recipe) + tail;
    assert doc[..|head|] == head;
    assert doc[|doc| - |tail|..] == tail;
    doc
  }

  /** The document between the title and the nutrition: region, category, tags, ingredients and instructions. */
  function DocumentMiddle(recipe: map<string, string>): string {
    "\nRegion: " + Get(recipe, "region") + "\nCategory: " + Get(recipe, "category")
    + "\nTags: " + Get(recipe, "tags")
    + "\n\nIngredients:\n" + Get(recipe, "ingredients")
    + "\n\nInstructions:\n" + Get(recipe, "instructions")
  }

  /** The blocks of the file: its content without leading byte-order marks, split on the separator. */
  function Blocks(content: string): (blocks: seq<string>)
    ensures |blocks| >= 1
    ensures Join(RecipeSeparator, blocks) == TrimByteOrderMarks(content)
    ensures forall i :: 0 <= i < |blocks| ==> !Contains(blocks[i], RecipeSeparator)
  {
    JoinSplitOn(TrimByteOrderMarks(content), RecipeSeparator);
    SplitOnPiecesFree(TrimByteOrderMarks(content), RecipeSeparator);
    SplitOn(TrimByteOrderMarks(content), RecipeSeparator)
  }

  /** The blocks, each parsed, in file order. */
  function ParseBlocks(blocks: seq<string>): (parsed: seq<map<string, string>>)
    ensures |parsed| == |blocks|
  {
    if blocks == [] then []
    else
      var n := |blocks| - 1;
      ParseBlocks(blocks[..n]) + [ParsedRecipe(blocks[n])]
  }

  /** Parsing one more block appends its parse. */
  lemma ParseBlocksSnoc(blocks: seq<string>, i: nat)
    requires i < |blocks|
    ensures ParseBlocks(blocks[..i + 1]) == ParseBlocks(blocks[..i]) + [ParsedRecipe(blocks[i])]
  {
    assert blocks[..i + 1][..i] == blocks[..i];
  }

  /**
   * A parsed block is loaded when its title is not empty. A blank block is
   * skipped before it is parsed, and it would parse to no title anyway.
   */
  predicate Loaded(recipe: map<string, string>) {
    Get(recipe, "title") != ""
  }

  /** The three aligned lists handed to the upsert. */
  datatype SeedLists = SeedLists(ids: seq<string>, documents: seq<string>, metadatas: seq<map<string, string>>)

  /** The lists with one more loaded recipe at the end. */
  function Append(prev: SeedLists, recipe: map<string, string>): SeedLists {
    SeedLists(prev.ids + [RecipeId(Get(recipe, "title"))], prev.documents + [DocumentText(recipe)],
              prev.metadatas + [recipe])
  }

  /** The lists after one more block: its recipe appended when the block is loaded. */
  function Next(seed: SeedLists, recipe: map<string, string>): (next: SeedLists)
    ensures |next.ids| == |seed.ids| + (if Loaded(recipe) then 1 else 0)
    ensures |next.documents| == |seed.documents| + (if Loaded(recipe) then 1 else 0)
    ensures |next.metadatas| == |seed.metadatas| + (if Loaded(recipe) then 1 else 0)
    ensures next.ids[..|seed.ids|] == seed.ids && next.documents[..|seed.documents|] == seed.documents
    ensures next.metadatas[..|seed.metadatas|] == seed.metadatas
    ensures Loaded(recipe) ==> next.metadatas[|seed.metadatas|] == recipe && next.ids[|seed.ids|] == RecipeId(Get(recipe, "title"))
  {
    if Loaded(recipe) then Append(seed, recipe) else seed
  }

  /** The lists built from the parsed blocks, in file order. */
  function Seed(parsed: seq<map<string, string>>): (seed: SeedLists)
    ensures |seed.ids| == |seed.documents| == |seed.metadatas| <= |parsed|
  {
    if parsed == [] then SeedLists([], [], [])
    else
      var n := |parsed| - 1;
      Next(Seed(parsed[..n]), parsed[n])
  }

  /** What an upsert of the seed lists writes. */
  function Seeded(seed: SeedLists): map<string, Entry>
    requires |seed.ids| == |seed.documents| == |seed.metadatas|
  {
    Batch(seed.ids, seed.documents, seed.metadatas)
  }

  /** A seeded triple: a recipe with a title, keyed by the title's slug, with its document. */
  predicate Consistent(id: string, document: string, metadata: map<string, string>) {
    && Get(metadata, "title") != ""
    && id == RecipeId(Get(metadata, "title"))
    && document == DocumentText(metadata)
  }

  /** The lists are aligned and every triple is consistent. */
  predicate AllConsistent(seed: SeedLists) {
    && |seed.ids| == |seed.documents| == |seed.metadatas|
    && forall i :: 0 <= i < |seed.ids| ==> Consistent(seed.ids[i], seed.documents[i], seed.metadatas[i])
  }

  /**
   * Every seeded entry is a recipe with a
   * non-empty title, its id is the title's slug, and its document is built
   * from it.
   */
  lemma {:induction false} SeedWellFormed(parsed: seq<map<string, string>>)
    ensures AllConsistent(Seed(parsed))
  {
    if parsed != [] {
      var n := |parsed| - 1;
      SeedWellFormed(parsed[..n]);
      if Loaded(parsed[n]) {
        AppendConsistent(Seed(parsed[..n]), parsed[n]);
      }
    }
  }

  /** Appending a recipe with a title keeps every triple consistent. */
  lemma AppendConsistent(prev: SeedLists, recipe: map<string, string>)
    requires AllConsistent(prev)
    requires Get(recipe, "title") != ""
    ensures AllConsistent(Append(prev, recipe))
  {
    var seed := Append(prev, recipe);
    forall i | 0 <= i < |seed.ids|
      ensures Consistent(seed.ids[i], seed.documents[i], seed.metadatas[i])
    {
      if i < |prev.ids| {
        assert seed.ids[i] == prev.ids[i] && seed.documents[i] == prev.documents[i] && seed.metadatas[i] == prev.metadatas[i];
      }
    }
  }

  /** What one parsed block adds to the seeded recipes. */
  function Contribution(recipe: map<string, string>): (r: seq<map<string, string>>)
    ensures |r| <= 1
  {
    if Loaded(recipe) then [recipe] else []
  }

  /** The recipes of the loaded blocks, in order: an independent statement of the filter. */
  function LoadedRecipes(parsed: seq<map<string, string>>): seq<map<string, string>> {
    Gather(parsed, Contribution)
  }

  /** The lists hold the loaded blocks, in file order, and nothing else. */
  lemma {:induction false} SeedIsLoadedBlocks(parsed: seq<map<string, string>>)
    ensures Seed(parsed).metadatas == LoadedRecipes(parsed)
  {
    if parsed != [] {
      var n := |parsed| - 1;
      SeedIsLoadedBlocks(parsed[..n]);
      GatherSnoc(parsed[..n], parsed[n], Contribution);
      assert parsed[..n] + [parsed[n]] == parsed;
    }
  }

  /** Seeding from one more block moves the lists on by that block. */
  lemma SeedSnoc(blocks: seq<string>, i: nat)
    requires i < |blocks|
    ensures Seed(ParseBlocks(blocks[..i + 1])) == Next(Seed(ParseBlocks(blocks[..i])), ParsedRecipe(blocks[i]))
  {
    ParseBlocksSnoc(blocks, i);
    var parsed := ParseBlocks(blocks[..i + 1]);
    assert parsed[..i] == ParseBlocks(blocks[..i]);
  }

  /** One more block loaded onto the lists of the blocks before it gives the lists of the longer prefix. */
  lemma LoadStep(blocks: seq<string>, i: nat, before: SeedLists, after: SeedLists)
    requires i < |blocks| && before == Seed(ParseBlocks(blocks[..i]))
    requires after == Next(before, ParsedRecipe(blocks[i]))
    ensures after == Seed(ParseBlocks(blocks[..i + 1]))
  {
    SeedSnoc(blocks, i);
  }

  /**
   * The body of the loader's loop for one block: a blank block and a block
   * without a title are skipped; otherwise the slug, the document and the
   * parsed recipe are appended to the three lists.
   */
  method LoadBlock(recipeText: string, ids: seq<string>, documents: seq<string>, metadatas: seq<map<string, string>>)
    returns (ids': seq<string>, documents': seq<string>, metadatas': seq<map<string, string>>)
    ensures SeedLists(ids', documents', metadatas') == Next(SeedLists(ids, documents, metadatas), ParsedRecipe(recipeText))
  {
    ids', documents', metadatas' := ids, documents, metadatas;
    if Strip(recipeText) == "" {
      BlankBlockIsEmpty(recipeText, "title");
      return;
    }
    var parsedRecipe := ParseRecipeText(recipeText);
    var title := Get(parsedRecipe, "title");
    if title == "" {
      return;
    }
    var recipeId := RecipeId(title);
    documents' := documents + [DocumentText(parsedRecipe)];
    metadatas' := metadatas + [parsedRecipe];
    ids' := ids + [recipeId];
  }

  /**
   * The loop of `load_recipes_if_needed`: each block in file order is parsed
   * and, when it has a title, appended to the three lists.
   */
  method SeedFromBlocks(rawRecipes: seq<string>) returns (seed: SeedLists)
    ensures seed == Seed(ParseBlocks(rawRecipes))
  {
    var documents: seq<string> := [];
    var metadatas: seq<map<string, string>> := [];
    var ids: seq<string> := [];
    var i := 0;
    while i < |rawRecipes|
      invariant 0 <= i <= |rawRecipes|
      invariant SeedLists(ids, documents, metadatas) == Seed(ParseBlocks(rawRecipes[..i]))
    {
      ghost var before := SeedLists(ids, documents, metadatas);
      ids, documents, metadatas := LoadBlock(rawRecipes[i], ids, documents, metadatas);
      LoadStep(rawRecipes, i, before, SeedLists(ids, documents, metadatas));
      i := i + 1;
    }
    assert rawRecipes[..i] == rawRecipes;
    seed := SeedLists(ids, documents, metadatas);
  }

  /**
   * `load_recipes_if_needed`: nothing happens when there is no store, when
   * the store already holds records or when the file is missing; otherwise
   * the loaded blocks are upserted once, if there is at least one.
   */
  method LoadRecipesIfNeeded(store: Store?, file: Option<string>)
    modifies store
    ensures store != null && (old(store.Count()) > 0 || file.None?) ==> store.records == old(store.records)
    ensures store != null && old(store.Count()) == 0 && file.Some? ==>
      store.records == Seeded(Seed(ParseBlocks(Blocks(file.value))))
  {
    if store == null || store.Count() > 0 {
      return;
    }
    if file.None? {
      return;
    }
    var rawRecipes := Blocks(file.value);
    var seed := SeedFromBlocks(rawRecipes);
    if |seed.documents| > 0 {
      store.Upsert(seed.ids, seed.documents, seed.metadatas);
      EmptyUnion(Seeded(seed));
    }
  }

  lemma EmptyUnion(m: map<string, Entry>)
    ensures map[] + m == m
  {
  }

  /**
   * After seeding, the store is keyed by slug: every record holds a parsed
   * recipe with a non-empty title whose slug is its id.
   */
  lemma SeededStoreKeyedBySlug(parsed: seq<map<string, string>>, id: string)
    requires id in Seeded(Seed(parsed))
    ensures var entry := Seeded(Seed(parsed))[id];
      Get(entry.metadata, "title") != ""
      && id == RecipeId(Get(entry.metadata, "title")) && entry.document == DocumentText(entry.metadata)
  {
    var seed := Seed(parsed);
    BatchKeys(seed.ids, seed.documents, seed.metadatas);
    var j := LastPosition(seed.ids, id);
    BatchLastWriterWins(seed.ids, seed.documents, seed.metadatas, j);
    SeedWellFormed(parsed);
    assert Consistent(seed.ids[j], seed.documents[j], seed.metadatas[j]);
  }

  /** The last position at which a value occurs in a sequence. */
  lemma {:induction false} LastPosition(s: seq<string>, x: string) returns (j: nat)
    requires x in s
    ensures j < |s| && s[j] == x
    ensures forall k :: j < k < |s| ==> s[k] != x
  {
    var n := |s| - 1;
    if s[n] == x {
      j := n;
    } else {
      var i :| 0 <= i < |s| && s[i] == x;
      assert s[..n][i] == x;
      j := LastPosition(s[..n], x);
    }
  }

  /** Seeding with at least one loaded block leaves a non-empty store, so a second run does nothing. */
  lemma SeedingIsOnce(parsed: seq<map<string, string>>)
    requires Seed(parsed).ids != []
    ensures |Seeded(Seed(parsed))| > 0
  {
    var seed := Seed(parsed);
    BatchKeys(seed.ids, seed.documents, seed.metadatas);
    assert seed.ids[0] in Seeded(seed);
  }

  lemma LowerHasNoUpper(s: string)
    ensures forall c :: c in Lower(s) ==> !('A' <= c <= 'Z')
  {
    forall c | c in Lower(s) ensures !('A' <= c <= 'Z') {
      var i :| 0 <= i < |s| && Lower(s)[i] == c;
    }
  }

  /** Titles that differ only in case give the same id. */
  lemma RecipeIdIgnoresCase(title: string)
    ensures RecipeId(Lower(title)) == RecipeId(title)
  {
    assert Lower(Lower(title)) == Lower(title);
  }

  /**
   * A non-word character in a title is deleted, not replaced: `Masala Chai`
   * and `MasalaChai` share the id `recipe_masalachai`.
   */
  lemma RecipeIdDeletesNonWord(a: string, c: char, b: string)
    requires !IsWordChar(c)
    ensures RecipeId(a + [c] + b) == RecipeId(a + b)
  {
    DeletedBeforeSlug(a, c, b);
  }

  lemma DeletedBeforeSlug(a: string, c: char, b: string)
    requires !IsWordChar(c)
    ensures DeleteNonWord(Lower(a + [c] + b)) == DeleteNonWord(Lower(a + b))
  {
    var la, lb := Lower(a), Lower(b);
    calc {
      DeleteNonWord(Lower(a + [c] + b));
      { LowerAppend(a + [c], b); LowerAppend(a, [c]); assert Lower([c]) == [c]; }
      DeleteNonWord(la + [c] + lb);
      { assert la + [c] + lb == la + ([c] + lb); DeleteNonWordAppend(la, [c] + lb); }
      DeleteNonWord(la) + DeleteNonWord([c] + lb);
      { DeleteNonWordAppend([c], lb); assert DeleteNonWord([c]) == []; }
      DeleteNonWord(la) + DeleteNonWord(lb);
      { DeleteNonWordAppend(la, lb); LowerAppend(a, b); }
      DeleteNonWord(Lower(a + b));
    }
  }

  lemma LowerAppend(x: string, y: string)
    ensures Lower(x + y) == Lower(x) + Lower(y)
  {
    assert forall i :: 0 <= i < |x + y| ==> Lower(x + y)[i] == (Lower(x) + Lower(y))[i];
  }

  lemma {:induction false} DeleteNonWordAppend(x: string, y: string)
    ensures DeleteNonWord(x + y) == DeleteNonWord(x) + DeleteNonWord(y)
  {
    if x == [] {
      assert x + y == y;
    } else {
      DeleteNonWordAppend(x[1..], y);
      assert (x + y)[1..] == x[1..] + y;
    }
  }
}
