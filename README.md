# ShoreChef core in Dafny

ShoreChef is a recipe browser with a step-by-step cooking chat. Its backend
(FastAPI) seeds a vector store from a text file of recipes, serves the
recipes and their categories, and answers chat turns by asking a language
model for one step of the recipe. Its frontend (React) lists the recipes,
shows a card per recipe, and runs the chat.

This project models the logic of that core and proves properties about it:

- `text.dfy` (`Text`): the string operations both halves use: strip/trim,
  ASCII lower-casing, `split` on a separator, `join`, substring tests. It
  also proves the split/join round trip and idempotence facts.
- `records.dfy` (`Records`): optional values, metadata maps, the recipe
  record, and the order-preserving filter shared by both list filters.
- `recipe_parser.dfy` (`RecipeParser`): `parse_recipe_text`. It is a loop
  (`ParseRecipeText`) proved against a pure scan (`ScanLines`, `Step`,
  `Flush`), followed by the projection onto eleven fields.
- `corpus_loader.dfy` (`CorpusLoader`): `load_recipes_if_needed`. The store
  is a class holding a map from id to (document, metadata), with `count`
  and a last-writer-wins `upsert`. The file's content is a parameter.
- `chat_service.dfy` (`ChatService`): `chat_endpoint` and
  `get_gemini_response`. This covers message normalisation, the step
  navigator, the missing-context guard, and the context round trip. The
  completion call is an abstract outcome.
- `recipe_queries.dfy` (`RecipeQueries`): `get_all_categories` (split,
  strip, deduplicate, sort), the case-insensitive category filter and the
  translation gating of `get_all_recipes` and `get_recipe_by_id`. The
  translator is an opaque function.
- `chatbot.dfy` (`ChatbotClient`): the `Chatbot` component's state
  (messages, input, context) and `handleSendMessage`.
- `recipe_list.dfy` (`RecipeListView`): `filteredRecipes` and the state
  updates of `fetchAllData`.
- `recipe_card.dfy` (`RecipeCardView`): the tag line, the image source and
  the link target.

The recipe id follows the code: every non-word character of the lower-cased
title is deleted, so "Masala Chai" becomes `recipe_masalachai`. The `uuid`
fallback cannot be reached, because the id always starts with `recipe_`.

## Model

| member | source | states |
|---|---|---|
| RecipeParser.LabelRun | backend/main.py:487 | the label is the longest prefix of characters of `[\w\s/]` |
| RecipeParser.IsLabelLine | backend/main.py:487-491 | a line is a label line exactly when a non-empty prefix of `[\w\s/]` characters is followed by `:` |
| RecipeParser.LabelRunOnlyCandidate | backend/main.py:487 | a prefix of class characters followed by `:` is exactly the greedy run, since `:` is not in the class |
| RecipeParser.Key | backend/main.py:494 | a section key holds no space and no `/` |
| RecipeParser.Value | backend/main.py:487-496 | the first line of a section, what follows the label's colon, is stripped and shorter than the line |
| RecipeParser.Flush | backend/main.py:492-493 | storing the open section keeps every stored key and adds no key except the open section's, and that one only when the section is open with a non-empty key and content |
| RecipeParser.Step | backend/main.py:489-498 | a line changes the stored sections only when a section is open, and once a section has been opened one stays open |
| RecipeParser.ScanLines | backend/main.py:489-498 | scanning more lines never loses a stored key and never leaves the state with no section |
| RecipeParser.Project | backend/main.py:503-516 | the final dictionary has no key besides the eleven field names |
| RecipeParser.ParsedRecipe | backend/main.py:482-516 | a parsed block has no key besides the eleven field names |
| RecipeParser.ProjectKeys | backend/main.py:503-516 | the parsed recipe has exactly the eleven field names as keys |
| RecipeParser.ProjectField | backend/main.py:503-515 | each field is the section stored under its key (`recipe_title` for the title, `imageurl` for the image, the field's own name otherwise), or "" when there is none |
| RecipeParser.ParseRecipeText | backend/main.py:482-516 | the loop over lines computes the pure scan of the stripped, newline-split block, and its result has exactly the eleven fields |
| RecipeParser.ScanSnoc | backend/main.py:489-498 | scanning one more line is one more step of the loop |
| RecipeParser.ScanAppend | backend/main.py:489-498 | scanning a concatenation of lines is scanning the parts in turn |
| RecipeParser.LeadingLinesDropped | backend/main.py:497-498 | lines before the first label line belong to no section |
| RecipeParser.ScanContinuation | backend/main.py:497-498 | non-label lines are appended, stripped, to the open section |
| RecipeParser.StoredSectionKept | backend/main.py:491-493 | a stored section survives later lines unless a later label has its key |
| RecipeParser.SectionValue | backend/main.py:489-501 | a section's value comes from its last label line: the label's remainder plus the continuation lines up to the next label line, joined by newlines and stripped |
| RecipeParser.CloseSection | backend/main.py:491-493 | the next label line, or the end of the block, stores the open section |
| RecipeParser.AbsentSection | backend/main.py:491-501 | a key that no label line normalises to has no section |
| RecipeParser.EmptyKeyNeverStored | backend/main.py:492-500 | a label whose key normalises to "" stores nothing, and its continuation lines are discarded |
| RecipeParser.TitleFromLastLabel | backend/main.py:504 | the title is the `recipe_title` section from the last label line with that key |
| RecipeParser.FieldDefaultsToEmpty | backend/main.py:503-515 | a field whose key no label line produces is "" |
| RecipeParser.BlankBlockIsEmpty | backend/main.py:482-516 | a blank block parses to every field "", so the loader skipping it before parsing changes nothing |
| RecipeParser.InstructionsClosedByStepLine | backend/main.py:491-512 | `Instructions:` followed directly by a label-shaped line such as `Step 1: Boil water.` gives empty instructions |
| RecipeParser.UnderscoreKeyNeedsUnderscoreLabel | backend/main.py:494 | normalisation never creates `_`, so a key has `_` only if its label does |
| RecipeParser.SpacedLabelsMissUnderscoreFields | backend/main.py:494-510 | labels written without `_` (`Cooking Time:`) never fill title, cooking_time or diet_type |
| CorpusLoader.BatchKeys | backend/main.py:556 | an upsert writes exactly the ids of the batch |
| CorpusLoader.BatchLastWriterWins | backend/main.py:556 | an id holds the entry at its last position in the batch |
| CorpusLoader.Store.Count | backend/main.py:519 | the count is zero exactly when the store holds no record |
| CorpusLoader.Store.Upsert | backend/main.py:556 | the records after the upsert are the old records overwritten by the batch |
| CorpusLoader.RecipeId | backend/main.py:545-547 | the id starts with `recipe_`, so it is never empty; after the prefix it holds only lower-case word characters |
| CorpusLoader.RecipeIdIgnoresCase | backend/main.py:545 | titles that differ only in letter case get the same id |
| CorpusLoader.RecipeIdDeletesNonWord | backend/main.py:545 | a non-word character in the title is deleted, not replaced |
| CorpusLoader.TrimByteOrderMarks | backend/main.py:526 | the content is a run of byte-order marks followed by the result, and the result does not start with one: exactly the leading marks are removed |
| CorpusLoader.DocumentText | backend/main.py:550 | the document starts with `Title: ` and the title, and ends with the `Nutrition:` section holding the nutrition |
| Text.JoinSplitOn | backend/main.py:531 | joining the pieces of a split with its separator gives the string back |
| Text.SplitOnPiecesFree | backend/main.py:531 | no piece of a split contains the separator |
| CorpusLoader.Blocks | backend/main.py:526-531 | there is at least one block, no block contains the separator, and joining the blocks with the separator gives back the content without its leading byte-order marks |
| CorpusLoader.Next | backend/main.py:535-553 | a block with a titled recipe adds one entry to each of the three lists and an untitled one adds none; earlier entries stay as they were; the new entry is the recipe and its slug |
| CorpusLoader.Seed | backend/main.py:532-553 | the three lists stay aligned and are no longer than the list of blocks |
| CorpusLoader.SeedWellFormed | backend/main.py:537-553 | every seeded triple has a non-empty title, is keyed by the title's slug, and has its document built from the recipe |
| CorpusLoader.SeedSnoc | backend/main.py:534-553 | each block moves the lists on by its parse: appended to all three lists when it has a title, nothing added otherwise |
| CorpusLoader.LoadStep | backend/main.py:534-553 | the lists after one more pass of the loop are the seed lists of the longer prefix of blocks |
| CorpusLoader.LoadBlock | backend/main.py:534-551 | the loop body: a blank block or a block without a title leaves the lists as they were; otherwise the slug, the document and the parsed recipe are appended |
| CorpusLoader.SeedIsLoadedBlocks | backend/main.py:534-552 | the metadata list is the parsed, titled blocks in file order (an independent front-to-back statement of the filter) |
| CorpusLoader.SeedFromBlocks | backend/main.py:532-553 | the loop over the blocks builds exactly the seed lists of their parses, in file order |
| CorpusLoader.LoadRecipesIfNeeded | backend/main.py:518-557 | nothing changes when the store holds records or the file is missing; otherwise the store becomes exactly the upsert of the seed lists built from the parsed blocks of the file |
| CorpusLoader.SeededStoreKeyedBySlug | backend/main.py:545-556 | after seeding, every record holds a titled recipe whose slug is its id, and the document built from it |
| CorpusLoader.SeedingIsOnce | backend/main.py:519-556 | seeding at least one recipe leaves a non-empty store, so a later start-up does nothing |
| ChatService.GetGeminiResponse | backend/main.py:574-585 | text is returned exactly on "success", and then it is the non-empty stripped concatenation of the parts; returned parts whose stripped text is not empty always give "success"; each error status matches its own outcome |
| ChatService.FirstDigitPos | backend/main.py:696 | the position of the first digit, with no digit before it |
| ChatService.LeadingDigits | backend/main.py:697 | the longest all-digit prefix |
| ChatService.FirstNumber | backend/main.py:696-698 | the first `\d+` match is non-empty exactly when the message has a digit |
| ChatService.FirstNumberIsFirstRun | backend/main.py:697-698 | the number taken is a maximal digit run with no digit before it |
| ChatService.Decimal | backend/main.py:698 | `int` of a digit string is 0 exactly when every digit is `0` |
| ChatService.LeadingZeroIgnored | backend/main.py:698 | leading zeros do not change the value, as with `int` |
| ChatService.Normalized | backend/main.py:681 | the normalised message is no longer than the input, has no upper-case letter, and neither starts nor ends with whitespace |
| ChatService.WhatsNextHasNext | backend/main.py:693 | a message with "what's next" also contains "next", so the first rule's second keyword never decides anything |
| ChatService.Navigate | backend/main.py:693-700 | a message containing "next" moves one step on; a step that was not negative never becomes negative, and becomes at least 1 when the message has no digit; a digit with none of the keywords goes to the first number in the message |
| ChatService.NavigateRules | backend/main.py:694-700 | without "next": "previous" or "go back" gives `max(1, step - 1)`; otherwise "start" or "first step" gives 1; with no keyword and no digit the step is held as `max(1, step)` |
| ChatService.PreviousUndoesNext | backend/main.py:693-694 | from step 1 on, "previous" after "next" returns to the step it started from |
| ChatService.StepNumberNavigates | backend/main.py:681-698 | "step " plus digits goes to that number, whatever the current step; there is no floor, so "step 0" gives 0 |
| ChatService.Request | backend/main.py:683-708 | a completion is requested exactly when title and instructions are present and non-empty, and it carries them unchanged |
| ChatService.NextContext | backend/main.py:713-718 | the returned context carries the navigated step and a nutrition value, and passes the guard when title and instructions are non-empty |
| ChatService.ChatEndpoint | backend/main.py:679-721 | the source is `error_no_context` exactly when the guard fires; a context comes back exactly when the guard passes and the completion succeeds, and then the source is `rag_step_by_step` |
| ChatService.NoContextIgnoresOutcome | backend/main.py:685-691 | without context, the reply is the fixed apology whatever the completion service would say |
| ChatService.ContextRoundTrip | backend/main.py:686-718 | a successful turn returns the same title and instructions, nutrition defaulted to "", and the navigated step; the next turn with that context passes the guard and starts from that step |
| ChatService.FailedTurnHasNoContext | backend/main.py:719-721 | a failed completion returns the fixed apology, the status as the source, and no context |
| ChatService.SuccessfulReply | backend/main.py:578-580 | a successful reply is the stripped text of the completion |
| RecipeQueries.BelowTransitive | backend/main.py:624 | the string order used by `sorted` is transitive |
| RecipeQueries.BelowTotal | backend/main.py:624 | the string order is total on distinct strings |
| RecipeQueries.Insert | backend/main.py:623-624 | inserting into a strictly sorted list keeps it strictly sorted and adds `x` when absent |
| RecipeQueries.SortedUnique | backend/main.py:624 | `sorted(set(xs))` is strictly increasing, with exactly the values of `xs` |
| RecipeQueries.AllCategories | backend/main.py:619-624 | the category list is strictly sorted, so it has no duplicates |
| RecipeQueries.CategoriesListed | backend/main.py:623-624 | a category is listed exactly when it is a stripped `/`-piece of some record's non-empty category |
| RecipeQueries.TrailingSlashListsEmpty | backend/main.py:623 | a category ending in `/` contributes the empty category |
| RecipeQueries.FilterByCategory | backend/main.py:635-636 | the filter never adds records, and keeps all of them when no category is given |
| RecipeQueries.FilterByCategoryKeeps | backend/main.py:635-636 | the filter keeps, in order, exactly the records whose non-empty category contains the query, ignoring case; with no query it keeps everything |
| RecipeQueries.FilterIgnoresQueryCase | backend/main.py:636 | the query's letter case does not change the result |
| RecipeQueries.TranslateRecipe | backend/main.py:639-647 | a translated record keeps its id, and its fields are the record's fields plus the title |
| RecipeQueries.TranslationTouchesOnlyText | backend/main.py:639-647 | translation keeps the id and every other field; the title is always translated; ingredients, instructions and nutrition only when non-empty |
| RecipeQueries.IdentityTranslation | backend/main.py:639-647 | with a translator that changes nothing, a record comes back unchanged |
| RecipeQueries.EnglishNotTranslated | backend/main.py:638 | "English" in any letter case is not translated |
| RecipeQueries.GetAllRecipes | backend/main.py:626-652 | the result is the filtered records, each translated in place when a language other than English is requested |
| RecipeQueries.GetRecipeById | backend/main.py:654-673 | a record is returned exactly when the id is stored, and it carries that id |
| RecipeQueries.LookupTranslated | backend/main.py:664-673 | with a language other than English, the record found has its title translated, ingredients, instructions and nutrition translated only when non-empty, and every other field as stored |
| RecipeQueries.LookupUntranslated | backend/main.py:663-674 | without a non-English language, the lookup returns the stored record as it is |
| Records.Keep | frontend/src/components/RecipeList.js:42-50 | the filter keeps exactly the elements that pass, and never adds any |
| Records.KeepCount | frontend/src/components/RecipeList.js:42-50 | each passing element is kept as many times as it occurs, and no failing element is kept |
| Records.KeepIsSubsequence | frontend/src/components/RecipeList.js:42-50 | the kept elements form an order-preserving subsequence |
| ChatbotClient.Chatbot.constructor | frontend/src/components/Chatbot.js:157-159 | the chat starts with no messages, an empty input and no context |
| ChatbotClient.Chatbot.SetUserInput | frontend/src/components/Chatbot.js:290 | typing sets the input to exactly the typed text and changes neither the messages nor the context |
| ChatbotClient.Chatbot.OnRecipeChange | frontend/src/components/Chatbot.js:192-199 | messages become the single welcome message; the context becomes title, instructions and step 0 |
| ChatbotClient.Chatbot.HandleSendMessage | frontend/src/components/Chatbot.js:209-246 | a blank input or a missing context changes nothing. Otherwise the user message and then the bot's reply (or the fixed connection error) are appended. The untrimmed input is sent with the context, and the input is cleared. The context is replaced only by one the response carries |
| ChatbotClient.Served | frontend/src/components/Chatbot.js:222-231 | the server always answers, and its answer carries a context exactly when the request had a recipe and the completion succeeded |
| ChatbotClient.ContextAfter | frontend/src/components/Chatbot.js:231-244 | the context changes only to a context the response carries |
| ChatbotClient.FailedTurnKeepsStep | frontend/src/components/Chatbot.js:233-235 | a turn the server could not complete leaves the client's context and step as they were |
| ChatbotClient.CompletedTurnMovesStep | frontend/src/components/Chatbot.js:231-235 | a completed turn moves the client to the server's navigated step and keeps title and instructions |
| ChatbotClient.FirstTurnFromStepZero | frontend/src/components/Chatbot.js:194-198 | the first turn navigates from step 0 when title and instructions are set; otherwise the server refuses and the context stays |
| RecipeListView.FilteredRecipes | frontend/src/components/RecipeList.js:42-50 | no more records are shown than were fetched, and each shown record is a fetched one passing the category test and the case-insensitive title search |
| RecipeListView.FilteredRecipesKeeps | frontend/src/components/RecipeList.js:42-50 | the shown records are, in order, exactly those passing the category test and the case-insensitive title search |
| RecipeListView.EmptySearchFiltersByCategoryOnly | frontend/src/components/RecipeList.js:46-49 | an empty search term keeps every record that passes the category test |
| RecipeListView.NothingFilteredAtStart | frontend/src/components/RecipeList.js:43-49 | with "All" and an empty search term, every record is shown |
| RecipeListView.RecipeListState.constructor | frontend/src/components/RecipeList.js:11-15 | the page starts loading, with no records, no categories, "All" selected and an empty search term |
| RecipeListView.RecipeListState.FetchAllData | frontend/src/components/RecipeList.js:17-37 | loading ends and the categories begin with "All"; on success, the fetched records and "All" plus the categories; on error, no records and only "All" |
| RecipeListView.RecipeListState.SetActiveCategory | frontend/src/components/RecipeList.js:92 | choosing a category selects exactly it and leaves the records, categories, search term and loading flag as they were |
| RecipeListView.RecipeListState.SetSearchTerm | frontend/src/components/RecipeList.js:83 | typing a search term sets exactly it and leaves the records, categories, selected category and loading flag as they were |
| RecipeCardView.FormatTags | frontend/src/components/RecipeCard.js:8-13 | missing or empty tags render as "Delicious recipe"; otherwise the line is the trimmed comma pieces joined by ", " |
| RecipeCardView.TagPieces | frontend/src/components/RecipeCard.js:9-11 | there is one tag piece more than there are commas |
| RecipeCardView.TagPiecesClean | frontend/src/components/RecipeCard.js:9-11 | the pieces are trimmed and hold no comma |
| RecipeCardView.ReformatJoined | frontend/src/components/RecipeCard.js:9-12 | the pieces of a ", "-join of trimmed, comma-free pieces are those pieces |
| RecipeCardView.FormatTagsIdempotent | frontend/src/components/RecipeCard.js:8-13 | a non-empty tag line formats to itself |
| RecipeCardView.ImageSource | frontend/src/components/RecipeCard.js:5-18 | the image is never empty: it is `image_url` when set, and otherwise the placeholder prefix followed by exactly the encoded title |
| RecipeCardView.ImageUrlWins | frontend/src/components/RecipeCard.js:18 | once `image_url` is set, neither the title nor the encoder affects the image |
| RecipeCardView.FallbackDistinguishesTitles | frontend/src/components/RecipeCard.js:5-7 | without `image_url`, two placeholders are equal exactly when the encoded titles are |
| RecipeCardView.LinkTarget | frontend/src/components/RecipeCard.js:16 | the link is `/recipe/` followed by the id |
| RecipeCardView.LinkTargetInjective | frontend/src/components/RecipeCard.js:16 | different ids link to different pages |
| Text.SplitCount | frontend/src/components/RecipeCard.js:10 | a split has one piece more than there are separators |
| Text.SplitJoin | frontend/src/components/RecipeCard.js:10-12 | splitting a join of separator-free pieces gives the pieces back |
| Text.StripIdempotent | frontend/src/components/RecipeCard.js:11 | stripping twice is stripping once |

## Left out

- Character classes are ASCII, and `Text.IsSpace` is the space and `\t` to `\r` only. Python's `strip`, `isspace` and `\s` also treat `\x1c` to `\x1f` as whitespace, so `ChatService.Normalized` and the parser's stripping keep those four characters where the backend strips them. JavaScript's `trim` keeps them, as `RecipeCardView.TagPieces` does, but strips Unicode spaces such as `\u00a0`, which the model keeps. Python's Unicode `\w`, `\W`, `\s`, `isspace`, `isdigit`, `str.lower` and JavaScript's `trim` and `toLowerCase` are not modelled. With Unicode digits, a character can pass `isdigit` without starting a `\d+` run; the step then stays as it was. That path exists in `ChatService.Navigate` but cannot be reached with ASCII digits.
- The vector store's embedding, similarity search and listing order are not modelled. Stored records are a map; the list endpoint takes the records in the order the store lists them.
- The language model and `translate_text` are opaque. A completion is a `CompletionOutcome` value; the translator is a function parameter. The `if not genai` test in `translate_text` never fires and is not modelled.
- Prompt text and its formatting are not modelled. `ChatService.StepRequest` records the values the prompt is rendered from, including the navigated step.
- File opening and UTF-8 decoding are not modelled. The file's content is a parameter, and a missing file is `None`.
- HTTP plumbing is not modelled: routing, CORS, pydantic validation, logging, and the 503 for a missing collection. `RecipeQueries.GetRecipeById` returns `None` for an unknown id. The real endpoint raises a 404 there, which its own handler turns into a 500.
- `ChatService.Request` covers only integer `current_step` values and string-or-absent context fields. With a `null` or string `current_step`, the original raises a `TypeError` only on the "next", "previous" and fallback rules (`None + 1`, `"3" - 1`, `max(1, None)`); the "start"/"first step" and number rules replace the step, and that turn is answered normally. Neither path is modelled.
- Two backends starting together can both see an empty store and both seed it. This race is not modelled; each start-up runs alone.
- `ChatbotClient.Chatbot.HandleSendMessage` treats a turn as one step. Interleaved turns, speech synthesis and recognition, scrolling and rendering are not modelled. The speech transcript effect, which fills the input only with a non-empty transcript, belongs to recognition and is not modelled either; `ChatbotClient.Chatbot.SetUserInput` is typing only. The reply text comes from the response body; a body without `reply` (such as a 422 validation error) would append `undefined`, which is not modelled.
- The list page sends its language as `lang=`, but the backend reads `language`, so its lists are never translated. This is an integration fact between the two halves, not modelled logic.
- `RecipeListView.RecipeListState.FetchAllData` takes the two requests as one outcome. If either fails, the page takes the error path.
- Only the live code is modelled. The commented-out earlier revisions at the top of `backend/main.py` and `Chatbot.js` are not.
- The detail page, app shell, language switcher, language provider and navigation bar (`RecipeDetail.js`, `App.js`, `LanguageSwitcher.js`, `LanguageProvider.js`, `Navbar.js`) have no logic beyond fetching and rendering. They are not part of this model.
