# vitwi-app core in Dafny

This project models the behaviour of three parts of vitwi-app, a Telegram web app for recipes.

- **The local store** (`app.js`). Two lists live in `localStorage`:
  - saved recipes, with their duplicate rule, prepend-on-save, delete by id, search and the top-ten tag ranking;
  - the shopping cart, with its trimmed, case-insensitive duplicate test, the single and bulk adds and their counters, toggle, remove, clear and the display partition.
- **The language-model pipeline** (`api.js`).
  - The steps, in order: blank-input rejection, the prompt around the user's text, the HTTP status check, the `choices[0].message` envelope, greedy JSON-span extraction, field validation, the nutrition and tags normaliser, and the mapping of thrown errors to the messages the caller sees.
  - Both `analyzeRecipe` and `generateRecipes` are covered. The key store of `setApiKey`/`getApiKey` is modelled too.
- **The theme preference** (`themes.js`): the stored-name validator, saving, applying a theme to the page (custom properties, storage, `body` class list), start-up and the theme list.

## Modules

| file | module | contents |
|---|---|---|
| `wrappers.dfy` | `Wrappers` | `Option`, `Result` |
| `text.dfy` | `Text` | `trim` over the ECMAScript whitespace set, `toLowerCase` (ASCII and basic Cyrillic), the cart's name key, `includes`, `indexOf`/`lastIndexOf`, `replace` of a first character, decimal `toString` |
| `seqs.dfy` | `Seqs` | `filter`, subsequence order, first-seen distinct elements, occurrence counts, a stable descending sort and its properties |
| `recipe_model.dfy` | `RecipeModel` | recipe, nutrition block, saved recipe and cart item records |
| `normalizer.dfy` | `Normalizer` | the derivation formulas, the guarded assignments of both normalisers, and a `ParsedRecipe` class they update in place |
| `api.dfy` | `Api` | HTTP outcome, envelope, span extraction, validation, error mapping, both pipelines, and the `KeySettings` class |
| `recipe_store.dfy` | `RecipeStore` | save, delete, find, search and popular tags, as functions of the stored list |
| `cart_spec.dfy` | `CartSpec` | add, bulk add, toggle, remove and the display order, as functions of the stored cart |
| `local_store.dfy` | `LocalStore` | the `Storage` class holding both `localStorage` slots, with one method per operation of `app.js`, and the tag-counting loop |
| `themes.dfy` | `Themes` | the two themes, `getSavedTheme`, the class-string rewriting, and the `Page` class holding storage, the root style and the body class |

Each slot of `localStorage` is `Absent`, `Corrupt` (unparseable JSON) or `Stored(list)`. Reading either of the first two gives `[]`, as `getSavedRecipes` and `getCart` do. Because the slot is kept, "the cart is written back only when something was added" can be stated.

The network is a function argument `server: ChatRequest -> FetchOutcome`. `JSON.parse` is a function argument `parse: string -> Option<…>`. The clock and `Math.random` are parameters: an `id`/`addedAt` pair, or `idAt`/`timeAt` indexed by position for the bulk adds. A `confirm()` answer is a `confirmed` parameter.

Where a natural reading of the design and the code disagree, the model follows the code:

- After analysis normalisation, all three nutrition blocks need not exist. A recipe with only a per-100 g block and a serving count gets a whole-dish block but no per-serving block.
- `setApiKey` changes only what `getApiKey` reports. The requests read the configured constant directly.

## Model

| member | source | states |
|---|---|---|
| Text.Trim | app.js:1242-1263 | `trim` never lengthens a string and leaves no whitespace at either end |
| Text.TrimInfix | app.js:1242-1263 | the trimmed string is the infix of the input left after whitespace-only prefix and suffix |
| Text.BlankIffAllWhitespace | app.js:1242 | `s.trim().length === 0` holds exactly when every character of `s` is whitespace |
| Text.TrimIdempotent | app.js:1293-1298 | trimming a trimmed name changes nothing |
| Text.LowerTrim | app.js:1250 | lower-casing and trimming commute |
| Text.KeyOfTrim | app.js:1263 | the stored name (the trimmed ingredient) has the same duplicate key as the ingredient |
| Text.KeyIdempotent | app.js:1250 | the duplicate key of a key is itself |
| Text.ContainsAt | app.js:895-897 | `includes` holds exactly when the substring occurs at some position |
| Text.IndexOf | app.js:895 | the first position of a character, or -1 exactly when it is absent |
| Text.LastIndexOf | api.js:142 | the last position of a character, or -1 exactly when it is absent |
| Text.RemoveFirst | app.js:895 | `replace('#', '')` removes the first `#` only: the rest of the string is put back around it |
| Text.NatToString | app.js:739 | the decimal digits of the index, whose value is the index |
| Text.NatToStringInjective | app.js:739 | different indices give different id suffixes |
| Seqs.Filter | app.js:1178 | `filter` keeps exactly the elements that satisfy the predicate |
| Seqs.FilterIsSubsequence | app.js:1178 | `filter` keeps the order of what it keeps |
| Seqs.FilterPartition | app.js:1343-1344 | a filter and its complement split the list: their multisets add up to the list's, and so do their lengths |
| Seqs.Distinct | app.js:934-939 | the distinct tags: the same members as the input, none twice |
| Seqs.DistinctSnoc | app.js:937 | one more element extends the distinct list at its end exactly when the element is new |
| Seqs.Position | app.js:937 | the index of the first occurrence: the element is there and not before it |
| Seqs.DistinctFirstUse | app.js:934-939 | the distinct elements are ordered by their first occurrence in the input |
| Seqs.RankBy | app.js:942-943 | the sort is a permutation of its input |
| Seqs.RankBySorted | app.js:943 | the sort orders by descending count |
| Seqs.RankByKeepsTies | app.js:943 | the sort is stable: elements with equal counts keep their relative order |
| Seqs.TopOfRanking | app.js:942-945 | the first `n` of the sorted distinct list: at most `n`, none twice, sorted, each from the input, none left out outranks one kept, and everything is kept when fewer than `n` come out |
| Normalizer.Round | api.js:158 | `Math.round`: the nearest integer, halves upwards |
| Normalizer.RoundTenth | api.js:159 | `Math.round(x * 10) / 10`: within 0.05 of `x`, and a whole number of tenths |
| Normalizer.WeightOrDefault | api.js:156 | `totalWeight \|\| 1000` is never zero |
| Normalizer.Per100gFromTotal | api.js:155-163 | the per-100 g block is the whole-dish block divided by the weight times 100, calories rounded to an integer and macros to a tenth; the calories are whole and the macros whole tenths |
| Normalizer.PerServingFromTotal | api.js:166-173 | the per-serving block is the whole-dish block divided by the servings, rounded the same way and on the same grid |
| Normalizer.TotalFromPer100g | api.js:176-184 | the whole-dish block is the per-100 g block divided by 100 times the weight, rounded the same way and on the same grid |
| Normalizer.DerivePer100g | api.js:155-163 | one guarded assignment; NormalizeAnalysis states when it fires and what it writes |
| Normalizer.DerivePerServing | api.js:166-173 | one guarded assignment; NormalizeAnalysis states when it fires and what it writes |
| Normalizer.DeriveTotal | api.js:176-184 | one guarded assignment; NormalizeAnalysis states when it fires and what it writes |
| Normalizer.DefaultTags | api.js:187-189 | a missing tag list becomes `[]`; NormalizeAnalysis and NormalizeGenerated state it |
| Normalizer.NormalizeAnalysis | api.js:155-189 | descriptive fields unchanged; no present block or tag list overwritten; a missing tag list becomes `[]`; each derived block exactly when its rule fires, by its formula; no block invented when none can be derived |
| Normalizer.NormalizeGenerated | api.js:347-375 | the same for generated recipes, a missing tag list included, except that the whole-dish block is never derived |
| Normalizer.RulesExclusive | api.js:155-184 | the per-100 g rule and the whole-dish rule never both fire on one recipe |
| Normalizer.NormalizeAnalysisStable | api.js:155-189 | normalising twice equals normalising once, on every recipe outside the case below |
| Normalizer.NormalizeAnalysisSecondPass | api.js:166-184 | the one exception: a recipe with only a per-100 g block and servings gets its per-serving block only on a second pass |
| Normalizer.NormalizeGeneratedIdempotent | api.js:347-375 | normalising a generated recipe twice equals normalising it once |
| Normalizer.PerServingNotFromDerivedTotal | api.js:166-184 | a whole-dish block derived from the per-100 g block does not in turn yield a per-serving block |
| Normalizer.OmeletteExample | api.js:155-189 | a 200 g, one-serving dish at 300 kcal gets 150 kcal per 100 g and its whole-dish values per serving |
| Normalizer.ParsedRecipe.NormalizeForAnalysis | api.js:155-189 | the guarded assignments on the parsed object leave it equal to the analysis normaliser's result |
| Normalizer.ParsedRecipe.NormalizeForGeneration | api.js:347-375 | the `map` callback's assignments leave the object equal to the generation normaliser's result |
| Api.HttpErrorIffApiError | api.js:200-202 | a thrown message contains `API Error` exactly when it came from a non-ok HTTP status |
| Api.NoCapitalE | api.js:200-204 | no other thrown message even contains a capital E |
| Api.ThrownMessage | api.js:128-151 | the `message` of each error the pipeline throws; HttpErrorIffApiError and NoCapitalE state which carry `API Error` |
| Api.FailureMessage | api.js:193-205 | a `SyntaxError` becomes the retry message, an `API Error` gets the API prefix, and anything else gets the operation's prefix |
| Api.HttpFailure | api.js:128-131 | a non-ok status throws an error carrying the status, with the body's `error.message` when truthy, else the status text; an unparseable body counts as `{}`; a JSON `null` body throws a TypeError instead |
| Api.HasEnvelope | api.js:135 | the envelope test; ReplyContent fails with the envelope error exactly when a JSON body lacks it |
| Api.ReplyContent | api.js:128-139 | the reply text exists exactly when the status is ok, the envelope is there and the content is a string; it is the trimmed content; a non-ok status is the HTTP error, a missing envelope the envelope error, a `null` body a TypeError on `choices`, a missing content a TypeError on `undefined`, a `null` one on `null`, and a non-string one `trim is not a function` |
| Api.ExtractJsonSpan | api.js:142-145 | the match starts at the first `{` and ends at a `}` with no `}` after it |
| Api.ExtractJsonSpanFound | api.js:142-145 | the match exists exactly when some `}` follows some `{` |
| Api.Embed | api.js:19-22 | the prompt is the fixed head, the input verbatim, then the fixed tail |
| Api.EmbedRoundTrip | api.js:19-22 | the input can be recovered from the prompt |
| Api.PromptContainsInput | api.js:218-219 | the prompt contains the user's input |
| Api.AnalysisRequest | api.js:107-126 | the analysis request: title `Recipe Analyzer`, temperature 0.7, 3000 tokens, the prompt around the recipe text |
| Api.GenerationRequest | api.js:299-318 | the generation request: title `Vita Recipe Generator`, temperature 0.8, 4000 tokens, the prompt around the query |
| Api.Complete | api.js:150 | the validation; DecodeAnalysis succeeds on a parsed recipe exactly when it holds |
| Api.DecodeAnalysis | api.js:142-189 | no span fails, a failed parse is a `SyntaxError`; success exactly when the parsed recipe has a truthy `dishName` and `instructions`; the result is the normalised recipe |
| Api.NormalizeBatch | api.js:347-375 | the batch has the same length and order as `recipes`, each element normalised |
| Api.DecodeGeneration | api.js:331-377 | success exactly when a span parses and `recipes` is an array; the result is the normalised batch |
| Api.AnalysisReply | api.js:107-139 | the reply text of the analysis request, or the error the request step throws |
| Api.GenerationReply | api.js:299-331 | the reply text of the generation request, or the error the request step throws |
| Api.AnalyzeRecipe | api.js:14-206 | blank text fails before any request; success exactly when the reply and its decoding succeed, and the result is the decoded recipe; a failed reply or decoding reaches the caller as that step's error, mapped; a result has a truthy name, instructions and tags |
| Api.GenerateRecipes | api.js:213-392 | the same for generation: the result is the decoded batch, each failure the failing step's error mapped, and every recipe in the result carries tags |
| Api.HttpFailureReported | api.js:128-131 | a non-ok status with a JSON body reaches the caller as `Ошибка API: API Error: <status> - …` |
| Api.GenerationSkipsValidation | api.js:342-377 | generation passes a recipe's `dishName` through unchecked, whatever string it is, or none |
| Api.KeySettings.constructor | api.js:397-410 | at start only the configured key is known |
| Api.KeySettings.GetApiKey | api.js:406-410 | the run-time key whenever it is set and non-empty, and the configured key whenever it is unset or empty |
| Api.KeySettings.SetApiKey | api.js:397-401 | afterwards `getApiKey` reports the new key, unless it is empty, when the configured key shows through |
| RecipeStore.SameRecipe | app.js:725-728 | the duplicate test: the same `dishName` and the same ingredient list, element by element; IsSaved and WithSaved state its use |
| RecipeStore.IsSaved | app.js:1195-1198 | a recipe counts as saved exactly when a stored one has the same `dishName` and the same ingredient list |
| RecipeStore.WithSaved | app.js:823-851 | a duplicate leaves the list unchanged; otherwise the new entry goes in front of the old list, which is untouched; afterwards the recipe counts as saved |
| RecipeStore.SaveTwice | app.js:833-836 | saving the same recipe twice is the same as saving it once |
| RecipeStore.RemoveById | app.js:1177-1178 | delete keeps exactly the entries with another id |
| RecipeStore.RemoveByIdKeepsOrder | app.js:1177-1179 | delete keeps the stored order, and changes nothing exactly when no entry has the id |
| RecipeStore.FindSaved | app.js:1439 | `find` returns the first entry with the id, or nothing exactly when none has it |
| RecipeStore.Search | app.js:886-901 | a blank query returns the whole list; otherwise exactly the entries whose lower-cased tag contains the query without its first `#`, or whose lower-cased name contains the query itself |
| RecipeStore.Matches | app.js:889-899 | the search test; Search keeps exactly the entries it accepts, and NameMatchKeepsHash and HashTagMatches pin its `#` rule |
| RecipeStore.SearchKeepsOrder | app.js:886-901 | the search keeps the stored order |
| RecipeStore.NameMatchKeepsHash | app.js:895-897 | the name match uses the query with its `#`: `#омлет` does not find a tagless `Омлет` |
| RecipeStore.HashTagMatches | app.js:895 | `#tag` finds a recipe with that tag |
| RecipeStore.AllTags | app.js:934-939 | every tag of every saved recipe, in stored order, a missing list counting as empty; PopularTagsProperties and Storage.PopularTags state its use |
| RecipeStore.PopularTagsOf | app.js:934-945 | the popular-tag list; PopularTagsProperties and PopularTagsTies state its properties, and Storage.PopularTags computes it |
| RecipeStore.PopularTagsProperties | app.js:934-945 | at most ten tags, none twice, each used; in non-increasing count; no tag left out is used more often than one shown; all are shown when fewer than ten exist |
| RecipeStore.PopularTagsTies | app.js:942-943 | tags with equal counts appear in the order of their first use |
| RecipeStore.PopularTagsExample | app.js:934-945 | tags `a a b c c c` rank as `c a b` |
| CartSpec.NewItem | app.js:1261-1266 | the item `addToCart` creates has the ingredient's duplicate key |
| CartSpec.AddOne | app.js:1241-1268 | the cart after `addToCart`; AddOneChanges, AddOneGrows, AddOneFinds and AddOneKeepsDistinct state its properties |
| CartSpec.AddEach | app.js:1292-1311 | the cart after adding each ingredient in turn (also app.js:763-765); AddEachPrefix, AddEachNewItems, AddEachNoRepeat, AddEachComplete and AddEachKeepsDistinct state its properties |
| CartSpec.AppendKeepsDistinct | app.js:1249-1268 | appending an item whose key is new keeps the cart's keys distinct |
| CartSpec.AddOneChanges | app.js:1242-1268 | `addToCart` changes the cart exactly when the input is not blank and its key is not in the cart |
| CartSpec.AddOneGrows | app.js:1261-1268 | `addToCart` keeps the existing items and at most appends one |
| CartSpec.AddOneFinds | app.js:1249-1268 | after a non-blank add, the ingredient's key is in the cart |
| CartSpec.AddOneKeepsDistinct | app.js:1249-1268 | `addToCart` keeps the cart's keys distinct |
| CartSpec.AddEachPrefix | app.js:763-765 | adding a list keeps the existing items and adds at most one per ingredient |
| CartSpec.AddEachNewItems | app.js:1292-1310 | every added item is unpurchased, with a trimmed, non-blank name |
| CartSpec.AddEachNoRepeat | app.js:1296-1310 | an added item's key differs from every earlier item's, including items added in the same call |
| CartSpec.AddEachComplete | app.js:1292-1311 | afterwards every non-blank ingredient's key is in the cart |
| CartSpec.AddEachKeepsDistinct | app.js:1292-1311 | the bulk add keeps the cart's keys distinct |
| CartSpec.BulkStep | app.js:1293-1310 | one iteration appends what `addToCart` would and counts one exactly when it appended |
| CartSpec.BulkAdd | app.js:1292-1311 | the counter equals the growth of the cart |
| CartSpec.RepeatAddsOne | app.js:1296-1301 | a non-blank ingredient listed twice adds one item |
| CartSpec.VitaCountExceedsAdded | app.js:763-766 | `соль, соль` adds one item, while the notice reports two |
| CartSpec.FindItem | app.js:1404 | `findIndex` gives the first item with the id, or -1 exactly when none has it |
| CartSpec.ToggleFirst | app.js:1402-1409 | toggle flips `purchased` on the first item with the id and changes nothing else; an absent id changes nothing |
| CartSpec.ToggleTwice | app.js:1402-1409 | toggling twice restores the cart |
| CartSpec.ToggleKeepsDistinct | app.js:1402-1409 | toggling keeps the cart's keys distinct |
| CartSpec.RemoveItems | app.js:1417 | remove keeps exactly the items with another id |
| CartSpec.RemoveItemsProperties | app.js:1415-1418 | remove keeps the order and the distinct keys, and changes nothing exactly when no item has the id |
| CartSpec.DisplayOrder | app.js:1343-1365 | the unpurchased items come first, then the purchased ones |
| CartSpec.DisplayIsPartition | app.js:1343-1365 | the display is the unpurchased group followed by the purchased group; it is a permutation of the cart; each group keeps its stored relative order |
| LocalStore.Read | app.js:866-874 | a stored list is read back; a missing or unparseable one reads as empty |
| LocalStore.TallyAdd | app.js:937 | `tagCount[tag] = (tagCount[tag] \|\| 0) + 1` keeps the dictionary equal to the counts of the tags seen so far, with keys in first-use order |
| LocalStore.TallyRanks | app.js:942-943 | sorting the dictionary's entries by count is sorting the distinct tags by their uses |
| LocalStore.TallyTags | app.js:936-938 | the inner loop leaves the tally of all tags seen, this recipe's included |
| LocalStore.Storage.constructor | app.js:866-874 | both slots start absent |
| LocalStore.Storage.Save | app.js:833-851 | a duplicate leaves the slot alone; anything else is stored in front; the cart slot is untouched |
| LocalStore.Storage.SaveCurrentRecipe | app.js:823-863 | no recipe on screen is an error; otherwise the save rule, under the id `now` |
| LocalStore.Storage.SaveVitaRecipe | app.js:713-752 | an index past the generated list is an error; otherwise the save rule, under the id `now-index` |
| LocalStore.Storage.DeleteSavedRecipe | app.js:1171-1188 | after confirmation the stored list is the old one without the id; without it nothing changes |
| LocalStore.Storage.CheckIfRecipeSaved | app.js:1191-1201 | no answer without a recipe; otherwise true exactly when a stored entry has the same name and ingredients |
| LocalStore.Storage.PopularTags | app.js:922-945 | the nested counting loops produce the ranked top ten of the stored recipes' tags |
| LocalStore.Storage.AddToCart | app.js:1241-1279 | blank input is ignored; a present key reports a duplicate and writes nothing; otherwise the new item is appended and written |
| LocalStore.Storage.AddIngredientToCart | app.js:772-774 | the cart is the `addToCart` result, written only when it grew |
| LocalStore.Storage.AddAll | app.js:1288-1314 | the loop's counter is the bulk add's count; the cart is written, with the bulk add's result, only when the count is positive |
| LocalStore.Storage.AddAllIngredientsToCart | app.js:1282-1326 | no recipe or no list is an error; otherwise the count is reported, or that everything was present |
| LocalStore.Storage.AddAllIngredientsToCartFromSaved | app.js:1451-1497 | an unknown id, a missing list or an empty one is an error; otherwise as above |
| LocalStore.Storage.AddIngredientToCartFromSaved | app.js:1437-1448 | an unknown id, a missing list, an index past it or an empty name is an error; otherwise the cart is the `addToCart` result |
| LocalStore.Storage.AddAllIngredientsToCartFromVita | app.js:755-769 | `addToCart` once per ingredient; the notice reports the list's length, not what was added |
| LocalStore.Storage.AddEachToCart | app.js:763-765 | the cart after adding each ingredient in turn, written only when it grew |
| LocalStore.Storage.ToggleCartItem | app.js:1402-1412 | written back with the first matching item flipped, only when some item has the id |
| LocalStore.Storage.RemoveFromCart | app.js:1415-1422 | always written back without the items with the id |
| LocalStore.Storage.ClearCart | app.js:1425-1434 | after confirmation the cart is empty; without it nothing changes |
| Themes.WithValues | themes.js:7-20 | each colour list pairs every custom property name with its value, in declaration order |
| Themes.ThemeKeysAreThemes | themes.js:3-40 | the listed keys are exactly the themes, none twice |
| Themes.PropertyNamesDistinct | themes.js:7-20 | no custom property is set twice |
| Themes.WordRun | themes.js:85 | `\w+` matches the longest run of word characters |
| Themes.StripThemeClasses | themes.js:85 | `replace(/theme-\w+/g, '')` never lengthens the class string and leaves one without a theme class unchanged |
| Themes.Tokens | themes.js:86 | the class list of a class string: every token non-empty and free of whitespace |
| Themes.ClassListAdd | themes.js:86 | `classList.add`; ClassListAddHasToken states its effect |
| Themes.TokensOfJoin | themes.js:86 | serialising a token list and splitting it again gives the list back |
| Themes.ClassListAddHasToken | themes.js:86 | after `classList.add(t)`, `t` is a class and every earlier class still is |
| Themes.GetSavedTheme | themes.js:43-55 | the result is always a theme key: the stored name when it is one, else `light` |
| Themes.GetSavedThemeAsWritten | themes.js:43-55 | the guard as written accepts every stored name it finds on `themes`, prototype members included, except `system` |
| Themes.AsWrittenReturnsNonTheme | themes.js:47 | a stored `constructor` passes the guard and is returned, though it is no theme |
| Themes.AsWrittenAgreesOnThemes | themes.js:47 | outside prototype member names, the guard as written agrees with the corrected one |
| Themes.SetAllLookup | themes.js:77-79 | after setting distinct properties, each has its value and every other property is as before |
| Themes.SetAll | themes.js:77-79 | the `setProperty` loop over a theme's colours; SetAllLookup states its effect |
| Themes.ThemesList | themes.js:99-104 | one entry per theme key, in key order, each carrying its key and that theme's fields |
| Themes.Page.constructor | themes.js:43-104 | the page starts from the given storage, root style and body class |
| Themes.Page.SaveTheme | themes.js:58-64 | the name goes under `vitwi-theme` and nothing else changes |
| Themes.Page.ApplyTheme | themes.js:67-89 | an unknown name changes nothing; a known one sets its colours, is stored, replaces the theme class and is returned, and a later `getSavedTheme` gives it back |
| Themes.Page.InitTheme | themes.js:92-96 | the saved or default key is applied and returned |
| Themes.AppliedColorsVisible | themes.js:77-79 | after applying a theme, each of its colours is on the root style |
| Themes.AppliedClassVisible | themes.js:85-86 | after applying a theme, `theme-<key>` is a body class |

## Findings

| source | as written | input that shows it | evidently intended | confidence | as-written member | corrected member |
|---|---|---|---|---|---|---|
| themes.js:47 | `!themes[saved]` looks the stored name up through the prototype chain of the object literal | `vitwi-theme` = `constructor` (or `toString`, `valueOf`, …): `getSavedTheme` returns it, and `applyTheme` then throws on `Object.entries(undefined)` | accept only the object's own keys, and fall back to `light` for anything else | not executed | Themes.AsWrittenReturnsNonTheme | Themes.GetSavedTheme |

## Left out

- DOM rendering, event wiring, alerts, vibration and the re-rendering calls (`loadCart`, `loadSavedRecipes`, `updateSaveButton`) are not modelled. The notice each operation shows is returned as a value instead, except for the per-call notices of `addToCart` inside the bulk paths (see below).
- `telegram.js`, `build.js` and `config.example.js` are not part of this model.
- `fetch` and its headers are not modelled. The server is a function from the request (key, title, prompt, temperature, token limit) to an outcome.
- `JSON.parse` is a function argument; a JSON grammar is not modelled. A raised `SyntaxError` is the argument returning `None`.
- The prompts keep their exact head around the input. After that, only the first line of each long tail is kept, since the rest is instructions to the model.
- The TypeError texts follow V8's wording: `Cannot read properties of null (reading 'choices')` for a `null` body, `Cannot read properties of undefined (reading 'trim')` for a missing content, `Cannot read properties of null (reading 'trim')` for a `null` one, and `data.choices[0].message.content.trim is not a function` for any other non-string. Other engines word them differently.
- Nutrition arithmetic is exact `real` arithmetic with `Math.round` as floor of `x + 1/2`. IEEE-754 rounding is not modelled.
- A nutrition block is present or absent; a present block is taken to have numeric fields. Non-numeric fields and `NaN` are not modelled. So is a present but falsy block (`0`, `""`), which the code treats as absent but which cannot arise from the objects the model admits.
- Api.Complete: `dishName` is a string or absent, and `instructions` a list of steps or absent. Other truthy JSON values that the test at api.js:150 accepts (a numeric `dishName`, `instructions` given as a string or an object) are not modelled, so a `parse` that maps them to an absent field makes decoding fail where the source succeeds.
- `ingredients` is a list of strings or absent. A non-array or non-string value, where `trim` would throw, is not modelled.
- `localStorage` exceptions when writing, and quota errors, are not modelled. A stored `null` is treated like a missing slot.
- LocalStore.Read: a slot holds a list, a missing value or unparseable text. A stored JSON value that parses to a non-array (a number, a string, an object) is not modelled. In the source the `.some`, `.filter`, `.find` and `forEach` calls on it throw (app.js:834, 1178, 1196, 1439).
- Api.DecodeGeneration: every element of `recipes` is an object. A `null` or primitive element, on which the `map` callback's property writes throw (api.js:349, 371), is not modelled, so the model returns a result where the source throws.
- LocalStore.Storage.AddIngredientToCart and LocalStore.Storage.AddEachToCart return no notice. The source's `addToCart` shows its own notice on each call (`Этот продукт уже в корзине`, app.js:1255; `Продукт добавлен в корзину!`, app.js:1271). LocalStore.Storage.AddToCart returns those notices; these two callers drop them.
- Ids come from `Date.now()`, alone in `addToCart`. Nothing is proved about their uniqueness. Several items can share an id, which is why remove deletes all of them while toggle flips only the first.
- `Object.entries` lists integer-like keys first, so a tag such as `2024` would lead the counting order. The model keeps first-use order throughout.
- Tags named like `Object.prototype` members (`constructor`, …) would start their count from a function, not 0. This is not modelled.
- `toLowerCase` covers ASCII and the basic Cyrillic block (U+0400–U+042F) only.
- The theme's `system` check is subsumed by the key test, since `system` is not a theme key.
- Themes.GetSavedTheme: the `catch` around `localStorage.getItem` (themes.js:51-54), which gives `light` when reading storage throws, is not modelled; reading the stored name always succeeds.
- The theme selector's own reading of the raw stored value, and its UI, are not modelled.
- Themes.Page.ApplyTheme: a prototype member name such as `constructor` passes the source's guard and then throws. The model treats every non-key as unknown, which is the corrected behaviour of the finding above.
- Normalizer.NormalizeAnalysisStable: holds on every recipe except one with only a per-100 g block and a serving count and no per-serving block. There, analysis normalisation is not idempotent (Normalizer.NormalizeAnalysisSecondPass). The code runs the normaliser once, so no call is affected.
- The normalisers update the parsed object in place through `ParsedRecipe`. The pipelines compose them as functions, because nothing else holds the object.
- A whitespace-only ingredient at `addIngredientToCartFromSaved` is truthy, so it passes the guard, and `addToCart` then ignores it silently. The empty string is the error case. Both are modelled as written.
- `addAllIngredientsToCart` with an empty list reports that everything is present, while `addAllIngredientsToCartFromSaved` reports an error. Both are modelled as written.
