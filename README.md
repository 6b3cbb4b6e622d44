# MealExplorer, modelled in Dafny

A model of `MealExplorer` from `script.js`: the browser controller of a recipe browser.
It queries a public meal-data service, shows the results as cards in a grid, and shows a
modal with a meal's full recipe. The model covers these parts:

- **ingredient normalisation** (`getIngredients`): the fixed scan of the 20 numbered
  `strIngredientN` / `strMeasureN` fields of a meal;
- **card field selection** (`createMealCard`) and the recipe shown in the modal;
- **the view state**: which of the loading indicator, the results grid and the
  empty-state view is visible, the cards in the grid, the category options, and whether
  the modal is open;
- **the request flows**: the random listing, search, category filter, recipe lookup, the
  category selector, the search-box key handler, and the modal's close handlers.

The service is not modelled. Each flow takes the answers to its requests as parameters,
as `Response<T> = Failure | Ok(body)`. `Failure` stands for a rejected fetch or an
unparsable body. A null or missing `meals` list is `Ok(None)`. Each flow returns the
requests it issued (`Search(q)`, `Filter(c)`, `Lookup(id)`, `Random`, `Categories`).
Start-up (the constructor) runs the category and random flows; a constructor returns no
values, so their requests are stated by those two methods, not by the constructor.

Modules:

- `Wrappers` (`wrappers.dfy`): `Option`.
- `Api` (`api.dfy`): the meal record, responses and requests.
- `JsText` (`js_text.dfy`): JavaScript truthiness of a string-or-null value, and
  `String.prototype.trim` over the WhiteSpace and LineTerminator characters of ECMA-262.
- `MealIngredients` (`ingredients.dfy`): the ingredient scan.
- `Views` (`views.dfy`): cards and the recipe.
- `RandomMeals` (`random_meals.dfy`): the twelve-draw loop.
- `Explorer` (`explorer.dfy`): the `MealExplorer` class.

Edge cases, as the code handles them:

- A search or filter answer with a non-null but empty `meals` list shows the grid with no
  cards, not the empty-state view. In JavaScript an empty array is truthy.
- A random draw whose list is empty pushes `undefined`. Rendering that item throws
  part-way through `displayMeals`. The cards of the items before it have already been
  appended, and the `catch` then shows the empty-state view (`ShowsDraws`).
- A failing random draw ends the loop. The requests issued are the draws up to and
  including the first failure, not always twelve.
- A lookup whose list is empty, or whose meal has a null `strInstructions`, throws inside
  `displayRecipeModal` before anything changes. The modal stays as it was.
- The category selector gets one option per returned entry, duplicates included.
- `displayMeals` never hides the empty-state view itself. Exactly one view is visible
  after every flow only because each flow starts with `showLoading`
  (`DisplayMeals` ensures `OneViewVisible() <==> !noResultsVisible`).

## Model

| member | source | states |
|---|---|---|
| `JsText.Trim` | script.js:90 | the trimmed text is no longer than the input and neither starts nor ends with whitespace |
| `JsText.TrimRemovesOnlyEdgeWhitespace` | script.js:90 | trimming keeps one contiguous slice of the input; everything removed before and after it is whitespace |
| `JsText.TrimEmptyIffBlank` | script.js:91 | a text trims to the empty string exactly when it is all whitespace; this is the blank-query guard and the blank-ingredient test |
| `MealIngredients.SlotLine` | script.js:214-221 | a slot yields a line exactly when its ingredient is present and not blank after trimming; the line's ingredient is non-empty, and neither the ingredient nor the measure has whitespace at either end |
| `MealIngredients.SlotLineFields` | script.js:217-221 | a kept slot's line holds the trimmed ingredient field, and the trimmed measure field or "" when the measure is absent; an empty measure gives "" either way |
| `MealIngredients.EntriesAreTrimmedSlotFields` | script.js:213-223 | entry k of the list holds the trimmed ingredient of the k-th kept slot, which is present, and that slot's trimmed measure or "" when it is absent |
| `MealIngredients.IngredientsUpTo` | script.js:212-223 | scanning slots 1..n yields at most n lines |
| `MealIngredients.Ingredients` | script.js:211-225 | a meal's ingredient list has at most 20 entries |
| `MealIngredients.KeptSlotsUpTo` | script.js:213-217 | the kept slots among 1..n are listed in strictly ascending order; a slot is listed exactly when it is kept |
| `MealIngredients.IngredientsInSlotOrder` | script.js:213-223 | entry k of the list is the line of the k-th kept slot: one entry per kept slot, in ascending slot order |
| `MealIngredients.IngredientsCount` | script.js:213-223 | the list's length equals the number of slots in 1..n whose ingredient is non-blank after trimming |
| `MealIngredients.IngredientLinesTrimmed` | script.js:217-221 | every entry has a non-empty ingredient, and neither its ingredient nor its measure has whitespace at either end |
| `MealIngredients.IngredientsReadOnlyScannedSlots` | script.js:213-215 | two meals that agree on slots 1..n get the same list; fields past slot 20 are never read |
| `MealIngredients.GetIngredients` | script.js:211-225 | the counted loop over slots 1..20 returns exactly `Ingredients(meal)` |
| `Views.CreateMealCard` | script.js:137-150 | a card carries the meal's id, name and thumbnail; it shows the category exactly when `strCategory` is present and non-empty, and the origin exactly when `strArea` is |
| `Views.RecipeOf` | script.js:168-206 | the modal's ingredient list is the meal's normalised list; the video link appears exactly when `strYoutube` is truthy |
| `RandomMeals.DrawnItems` | script.js:78-80 | a null list adds nothing; a non-null list adds exactly one item: its first meal, or `undefined` (`None`) when the list is empty |
| `RandomMeals.CollectedUpTo` | script.js:74-81 | after n draws without failure, at most n items are collected |
| `RandomMeals.FirstFailure` | script.js:75-77 | the first failing draw: every earlier draw succeeded, and this one failed unless none did |
| `RandomMeals.NonNullDraws` | script.js:78 | the draws with a non-null list, ascending; a draw is listed exactly when it succeeded with a non-null list |
| `RandomMeals.CollectedFailsIffADrawFails` | script.js:73-86 | the listing fails exactly when one of its draws fails |
| `RandomMeals.CollectedInDrawOrder` | script.js:75-81 | without failure, item j is the first meal of the j-th draw with a non-null list: one item per such draw, in draw order |
| `RandomMeals.RepeatedDrawsAreKept` | script.js:75-81 | draws are not deduplicated: n draws of the same meal collect it n times |
| `RandomMeals.FailureIsFinal` | script.js:73-85 | once a draw has failed, later draws cannot make the listing succeed |
| `RandomMeals.DefinedPrefix` | script.js:131-134 | the meals rendered before the first `undefined` item, in order; the item after them, if any, is `undefined` |
| `RandomMeals.CollectRandomDraws` | script.js:74-81 | the loop's outcome is `CollectedUpTo(draws, 12)`; it issues exactly 12 requests when none fails, otherwise stops right after the first failure |
| `Explorer.MealExplorer.constructor` | script.js:2-20 | start-up loads the category options, then the random listing; exactly one view is visible and the modal is closed |
| `Explorer.MealExplorer.ShowLoading` | script.js:45-49 | loading visible, grid and empty-state hidden, nothing else changes |
| `Explorer.MealExplorer.HideLoading` | script.js:51-53 | loading hidden, nothing else changes |
| `Explorer.MealExplorer.ShowNoResults` | script.js:227-231 | loading and grid hidden, empty-state shown, nothing else changes |
| `Explorer.MealExplorer.DisplayMeals` | script.js:126-135 | loading hidden and grid shown, the cards replaced by exactly one card per meal in order, the empty-state view untouched: one view visible exactly when it was hidden |
| `Explorer.MealExplorer.LoadCategories` | script.js:55-69 | one categories request; one option appended per returned category, in order; a failure or null list changes nothing |
| `Explorer.MealExplorer.LoadRandomMeals` | script.js:71-87 | the requests are the draws up to the first failure; the result is the grid of collected meals or the empty-state view (`ShowsDraws`); exactly one view visible |
| `Explorer.MealExplorer.SearchMeals` | script.js:89-107 | a blank query issues no request and changes nothing; otherwise one search for the trimmed query, a non-null list shown as cards, a null list or failure shows the empty-state view |
| `Explorer.MealExplorer.SearchByCategory` | script.js:109-124 | one filter request for the exact category; the answer is handled by the same rule as a search; exactly one view visible |
| `Explorer.MealExplorer.OnSearchKeypress` | script.js:24-26 | only the Enter key starts a search; any other key changes nothing |
| `Explorer.MealExplorer.OnCategoryChange` | script.js:27-33 | a non-empty value filters by exactly that value; the empty value runs the random listing |
| `Explorer.MealExplorer.DisplayRecipeModal` | script.js:168-209 | a meal with instructions opens the modal with its recipe; otherwise rendering throws and nothing changes |
| `Explorer.MealExplorer.ShowRecipeDetails` | script.js:154-166 | one lookup for the id; the modal opens with the first meal's recipe, or on failure, a null or empty list, or missing instructions it stays as it was; the grid is untouched |
| `Explorer.MealExplorer.CloseModal` | script.js:35-37 | the close control closes the modal |
| `Explorer.MealExplorer.OnWindowClick` | script.js:38-42 | a click on the backdrop closes the modal; any other click leaves it as it was |
| `Explorer.OpenThenDismiss` | script.js:150 | opening a card's recipe and clicking the backdrop leaves the modal closed and the cards and view flags as they were |

## Left out

- Network I/O. `fetch`, `response.json()` and the endpoint URLs are replaced by `Response` parameters and `Request` values.
- `encodeURIComponent`. The requests carry the unencoded query and category.
- HTML markup. `innerHTML` templates, `createElement` and `appendChild` are not modelled, and neither is replacing newlines in the instructions with `<br><br>`. Only which fields are shown is modelled.
- Listener registration and the `DOMContentLoaded` bootstrap. The button click calls `SearchMeals` directly.
- Interleaving of in-flight requests. Flows run one at a time, so the stale-response overwrite is not modelled.
- `console.error` logging.
- The page's initial markup. `index.html` is not part of this model, so the constructor starts with every region hidden and no options before running start-up.
- Meal fields of non-string JSON types. Fields are strings or null, so a `trim` on a number, which would throw, is not modelled.
- Category entries without a `strCategory` field. The entries are modelled as their names.
