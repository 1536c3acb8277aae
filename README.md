# CookNote core in Dafny

CookNote is a recipe journal for phones. This project models its data layer and its small form
and selection state machines, and proves properties of them:

- the recipe repository `RecipeStorage`: one storage slot holding the whole list, seeded with the
  sample recipes on first use, with read and write failures as explicit flags;
- the `useRecipes` hook: the ingredient catalogue (first occurrence of each name wins), the
  three-condition filter, the grouping into a favourites group followed by day groups, and the
  save, delete, reset and favourite-toggle handlers;
- the utilities: the ingredient cost total and the date badge text;
- the ingredient browser: substring search with prefix matches first (a stable sort), and
  sections in the fixed order of the six categories;
- the recipe form, the ingredient editor, the home screen's ingredient filter and family filter,
  the step editor, the add-member form, and what a recipe card chooses to display.

One Dafny module per source file:

| module | file |
|---|---|
| `RecipeTypes` | `types.dfy` |
| `Storage` | `storage.dfy` |
| `UseRecipes` | `use_recipes.dfy` |
| `RecipeUtils` | `utils.dfy` |
| `IngredientBrowser` | `ingredient_browser.dfy` |
| `AddRecipeModal` | `add_recipe_modal.dfy` |
| `RecipeIngredientEditor` | `recipe_ingredient_editor.dfy` |
| `IngredientFilter` | `ingredient_filter.dfy` |
| `FamilyFilter` | `family_filter.dfy` |
| `RecipeCard` | `recipe_card.dfy` |
| `RecipeStepEditor` | `recipe_step_editor.dfy` |
| `AddMemberModal` | `add_member_modal.dfy` |

Three helper modules support them:

- `Seqs` (`seqs.dfy`): filter, subsequence, a stable descending sort, deduplication by key, and
  counting by key.
- `Text` (`text.dfy`): `trim` with the ECMAScript whitespace set, `includes` and `startsWith`,
  and decimal printing of integers.
- `Dates` (`dates.dfy`): the local calendar and the Gregorian day before a date.

How the model represents the source:

- State that handlers update becomes a class with `modifies` clauses:
  - the storage slot;
  - the hook's state;
  - the fields of each form.
- The parent callbacks of a component (`onAdd`, `onToggle`, …) are the values its handlers return.
- JavaScript truthiness is written out:
  - `""`, `null` and `undefined` are falsy;
  - `createdAt || x` treats a zero timestamp as missing;
  - `parseFloat(t) || 0` gives 0 for an unparseable or zero text.
- Some inputs are parameters:
  - `toLowerCase` is an uninterpreted `lower`;
  - `parseFloat` is an uninterpreted `string -> Option<real>`;
  - the local calendar is `civil: int -> CivilDate`;
  - the clock is `now` / `nowMs`;
  - `Math.random` is `randomId`;
  - the sample data `MOCK_RECIPES` / `MOCK_INGREDIENTS` are opaque constructor arguments.
- Costs and amounts are exact reals.

## Model

| member | source | states |
|---|---|---|
| RecipeTypes.CategoriesExact | src/types/recipe.ts:1 | the category list has exactly six entries, they are pairwise distinct, and every category is one of them |
| RecipeTypes.LabelInjective | src/types/recipe.ts:1 | two categories have the same literal label exactly when they are the same category |
| Storage.Replaced | src/services/storage.ts:38-43 | same length; entry i is the new recipe exactly when entry i had its id, otherwise it is unchanged |
| Storage.EmptyStoreSeeds | src/services/storage.ts:8-16 | an empty store yields the seed; the seed is stored unless a failure intervenes; a later read of the seeded store yields the seed again |
| Storage.StoredListIsKept | src/services/storage.ts:11-13 | a stored list, empty or not, is never replaced by the seed; it is returned unless the read fails, and a failed read returns the seed |
| Storage.SavedIsLoaded | src/services/storage.ts:23-29 | after a successful write, a successful read returns exactly the written list |
| Storage.ReplacedKeepsIds | src/services/storage.ts:38-43 | update keeps the sequence of ids, so it keeps the length and the order |
| Storage.ReplacedNoMatch | src/services/storage.ts:38-43 | with no matching id, update returns the list unchanged |
| Storage.ReplacedIdempotent | src/services/storage.ts:38-43 | updating twice with the same recipe equals updating once |
| Storage.RemovedSpec | src/services/storage.ts:45-50 | after delete no entry has the id; the survivors are a subsequence; every other recipe survives; deleting an absent id changes nothing |
| Storage.RecipeStorage.GetRecipes | src/services/storage.ts:8-21 | returns the stored list, or the seed when the slot is empty or the read fails; seeds an empty slot unless the read or that write fails |
| Storage.RecipeStorage.SaveRecipes | src/services/storage.ts:23-29 | a successful write stores the list; a failed write leaves the slot as it was |
| Storage.RecipeStorage.AddRecipe | src/services/storage.ts:31-36 | returns the new recipe in front of the loaded list (one longer, new recipe at index 0), and that list is what gets written |
| Storage.RecipeStorage.UpdateRecipe | src/services/storage.ts:38-43 | returns the loaded list with matching ids replaced, and writes it even when nothing matched |
| Storage.RecipeStorage.DeleteRecipe | src/services/storage.ts:45-50 | returns the loaded list without the id and writes it; a failed write keeps the old slot, but the new list is still returned |
| UseRecipes.FlattenHas | src/hooks/useRecipes.ts:30 | every ingredient of every recipe is in the flattened list |
| UseRecipes.AllAvailableIngredients | src/hooks/useRecipes.ts:27-36 | the `seenNames` loop computes first-occurrence deduplication by name of the flattened ingredients |
| UseRecipes.CatalogueDistinct | src/hooks/useRecipes.ts:27-36 | catalogue names are pairwise distinct, and the catalogue is a subsequence of the flattened ingredients |
| UseRecipes.CatalogueCovers | src/hooks/useRecipes.ts:27-36 | every name used by any recipe appears in the catalogue |
| UseRecipes.CatalogueFirst | src/hooks/useRecipes.ts:31-35 | each catalogue entry is the first ingredient of that name, in recipe-then-ingredient order |
| UseRecipes.FilteredSpec | src/hooks/useRecipes.ts:38-48 | a recipe passes exactly when it meets the name, ingredient and member conditions together; the result is an order-preserving subsequence |
| UseRecipes.FilteredIdentity | src/hooks/useRecipes.ts:41-45 | with an empty query and no ingredient or member selected, the filter is the identity |
| UseRecipes.FilterFieldsUsed | src/hooks/useRecipes.ts:41-46 | an active member filter fails a recipe without `likedBy`; ingredients only matter through the selected ingredient, never through the text search |
| UseRecipes.MonthDayTitleNotFixed | src/hooks/useRecipes.ts:69-79 | a month/day title is never "今天", "昨天" or "我的收藏" |
| UseRecipes.MonthDayTitleInjective | src/hooks/useRecipes.ts:69 | two month/day titles are equal exactly when month and day are equal, whatever the years |
| UseRecipes.DayKeySpec | src/hooks/useRecipes.ts:67-79 | "今天" exactly for the current day; "昨天" exactly for the day before; otherwise titles agree exactly when month and day agree; a zero `createdAt` buckets as today |
| UseRecipes.GroupRecipes | src/hooks/useRecipes.ts:50-92 | the push loop builds exactly the grouping `Grouped`: the favourites group, then one group per Map entry in insertion order |
| UseRecipes.BucketBy | src/hooks/useRecipes.ts:63-85 | the `dateMap` loop leaves the Map's keys, in insertion order, as the titles in first-occurrence order, and each entry holds its title's recipes in sorted order |
| UseRecipes.EmitDateGroups | src/hooks/useRecipes.ts:87-89 | iterating the Map emits one non-special group per key, in insertion order |
| UseRecipes.BucketStep | src/hooks/useRecipes.ts:81-84 | one step of the bucketing loop keeps the Map in step with the recipes processed so far |
| UseRecipes.DateGroups | src/hooks/useRecipes.ts:87-89 | one group per title, holding that title's recipes in list order |
| UseRecipes.FavoritesSpec | src/hooks/useRecipes.ts:54-60 | favourites hold exactly the favourite recipes, newest first (missing time as 0); the sort is stable; the list is non-empty iff some recipe is a favourite |
| UseRecipes.GroupedShape | src/hooks/useRecipes.ts:50-92 | the first group is the special favourites group exactly when there are favourites; every later group is a non-special date group |
| UseRecipes.TitlesSpec | src/hooks/useRecipes.ts:81-83 | the titles are pairwise distinct, and every sorted recipe's title is among them |
| UseRecipes.DateGroupsCover | src/hooks/useRecipes.ts:63-89 | every recipe lies in the date group of its own title |
| UseRecipes.DateGroupsUnique | src/hooks/useRecipes.ts:63-89 | no recipe lies in two date groups |
| UseRecipes.DateGroupsContent | src/hooks/useRecipes.ts:63-89 | each date group is non-empty, holds exactly the recipes of its title, and keeps the sorted order |
| UseRecipes.DateGroupsOrder | src/hooks/useRecipes.ts:63-89 | date groups come in the order of their titles' first occurrence in the sorted list |
| UseRecipes.DateGroupsTotal | src/hooks/useRecipes.ts:63-89 | the date groups hold, summed, the per-title counts of the sorted list |
| UseRecipes.AssembleTitlesDistinct | src/hooks/useRecipes.ts:58-89 | putting the favourites group in front keeps titles distinct |
| UseRecipes.GroupTitlesDistinct | src/hooks/useRecipes.ts:50-92 | all group titles of the grouping are pairwise distinct |
| UseRecipes.GroupedTotal | src/hooks/useRecipes.ts:50-92 | the groups hold, in total, the number of favourites plus the number of filtered recipes |
| UseRecipes.RecipesHook.LoadRecipes | src/hooks/useRecipes.ts:12-21 | the state becomes what the store returns, and loading ends |
| UseRecipes.RecipesHook.SaveRecipe | src/hooks/useRecipes.ts:94-102 | calls update when the current state holds the id and add otherwise; the returned list becomes the state |
| UseRecipes.RecipesHook.DeleteRecipe | src/hooks/useRecipes.ts:104-107 | the state becomes the store's list without the id |
| UseRecipes.RecipesHook.ResetData | src/hooks/useRecipes.ts:109-112 | writes the given list and shows it even when the write fails |
| UseRecipes.RecipesHook.ToggleFavorite | src/hooks/useRecipes.ts:114-119 | returns the recipe with only the favourite flag negated (absent becomes true), persisted through update |
| UseRecipes.RecipesHook.GroupedRecipes | src/hooks/useRecipes.ts:121-124 | the grouping of the filtered recipes |
| Dates.DayBefore | src/hooks/useRecipes.ts:74-75 | `setDate(getDate() - 1)` maps a valid date to a valid date that is earlier, with no valid date strictly between the two: the previous calendar day |
| Dates.DayBeforeDiffers | src/hooks/useRecipes.ts:74-77 | yesterday is never today |
| Dates.DayBeforeInjective | src/hooks/useRecipes.ts:74-77 | on valid dates, different days have different days before |
| RecipeUtils.IngredientsCostSnoc | src/utils/recipe.ts:6-8 | an appended ingredient adds its own cost, or 0 when it has none, and a single ingredient costs exactly that |
| RecipeUtils.IngredientsCostAppend | src/utils/recipe.ts:6-8 | cost of a concatenation is the sum of the costs (so the empty list costs 0) |
| RecipeUtils.MissingCostAddsNothing | src/utils/recipe.ts:7 | an ingredient without cost contributes 0, wherever it stands |
| RecipeUtils.IngredientsCostNonNegative | src/utils/recipe.ts:7 | with no negative cost the total is not negative |
| RecipeUtils.FormatDate | src/utils/recipe.ts:13-20 | both texts are empty exactly when the timestamp is absent or 0; otherwise the date text is the 1-based month, "/", the day, and the year text is the full year |
| RecipeUtils.FormatDateInjective | src/utils/recipe.ts:15-19 | equal texts for two non-zero timestamps mean the same local date: the texts identify year, month and day |
| IngredientBrowser.FilteredMembers | src/components/IngredientBrowser.tsx:26-30 | a blank search returns all ingredients in order; otherwise exactly those whose lowercased name contains the trimmed, lowercased query, with multiplicities |
| IngredientBrowser.FilteredPrefixFirst | src/components/IngredientBrowser.tsx:31-37 | no prefix match comes after a non-prefix match |
| IngredientBrowser.FilteredStable | src/components/IngredientBrowser.tsx:31-37 | prefix matches, and likewise the other matches, keep their original relative order |
| IngredientBrowser.Categorized | src/components/IngredientBrowser.tsx:40-52 | the record-filling loop and the read in category order compute the sections `Sections` |
| IngredientBrowser.CollectStep | src/components/IngredientBrowser.tsx:42-46 | one push keeps the record equal to the per-category lists of the ingredients processed so far |
| IngredientBrowser.SectionsFromCollected | src/components/IngredientBrowser.tsx:48-51 | reading the record in category order gives the sections of the list |
| IngredientBrowser.SectionsContent | src/components/IngredientBrowser.tsx:40-52 | sections are non-empty and hold exactly their category's ingredients in filtered order; names are distinct and follow the fixed order |
| IngredientBrowser.SectionsPlace | src/components/IngredientBrowser.tsx:42-46 | each filtered ingredient is in exactly one section, the one of its category (missing category counts as "其他") |
| IngredientBrowser.SectionsTotal | src/components/IngredientBrowser.tsx:40-52 | the section sizes add up to the length of the filtered list |
| IngredientBrowser.EmptyStateIffNoSections | src/components/IngredientBrowser.tsx:94 | the empty-state message shows exactly when no section shows |
| AddRecipeModal.ToggledSpec | src/components/AddRecipeModal.tsx:114-122 | after a toggle the id is selected iff it was not; other ids' entries are unchanged in order; removal shortens, otherwise the ingredient is appended |
| AddRecipeModal.ToggleTwice | src/components/AddRecipeModal.tsx:114-122 | toggling an unselected ingredient twice restores the list |
| AddRecipeModal.ToggledTagSelected | src/components/IngredientBrowser.tsx:86 | with the form handing the browser the selected names, toggling an ingredient on marks its tag, and toggling it off unmarks it unless another selected ingredient with a different id has the same name |
| AddRecipeModal.FindByName | src/components/AddRecipeModal.tsx:129 | finds the first catalogue entry of that name, present exactly when the name occurs |
| AddRecipeModal.WithNewIngredientSpec | src/components/AddRecipeModal.tsx:129-141 | the name ends up selected; an existing name changes nothing; else the catalogue entry or a custom one is appended; names stay distinct |
| AddRecipeModal.SavedRecipe | src/components/AddRecipeModal.tsx:167-180 | rejects a blank name or no images; otherwise name trimmed, id and createdAt from the edited recipe, steps absent when empty, no cost or likes |
| AddRecipeModal.EditRoundTrip | src/components/AddRecipeModal.tsx:167-180 | loading a recipe already in saved form into the form and saving gives the same recipe back |
| AddRecipeModal.SavedRecipeNoCostTag | src/components/AddRecipeModal.tsx:167-180 | a recipe saved from the form has no cost, so its card shows no cost tag |
| AddRecipeModal.RecipeForm.constructor | src/components/AddRecipeModal.tsx:43-51 | every field starts at its initial value |
| AddRecipeModal.RecipeForm.ResetForm | src/components/AddRecipeModal.tsx:187-196 | every field goes back to its initial value |
| AddRecipeModal.RecipeForm.Open | src/components/AddRecipeModal.tsx:54-67 | an initial recipe's fields are copied in (missing steps empty, favourite as boolean); drafts untouched; without one the form resets; hidden means no change |
| AddRecipeModal.RecipeForm.RemoveImage | src/components/AddRecipeModal.tsx:109-112 | only the image list changes, by dropping that index |
| AddRecipeModal.RecipeForm.ToggleIngredient | src/components/AddRecipeModal.tsx:114-122 | only the selection changes, by the toggle |
| AddRecipeModal.RecipeForm.AddNewIngredient | src/components/AddRecipeModal.tsx:124-144 | a blank name changes nothing, input included; otherwise the selection is updated by name and the input is cleared |
| AddRecipeModal.RecipeForm.AddStep | src/components/AddRecipeModal.tsx:146-151 | a non-blank draft is appended trimmed and cleared; a blank one changes nothing |
| AddRecipeModal.RecipeForm.RemoveStep | src/components/AddRecipeModal.tsx:153-155 | only the step list changes, by dropping that index |
| AddRecipeModal.RecipeForm.ToggleFavorite | src/components/AddRecipeModal.tsx:293-296 | only the favourite flag changes, negated |
| AddRecipeModal.RecipeForm.Save | src/components/AddRecipeModal.tsx:167-185 | returns the saved recipe or nothing; a rejected save changes nothing, a successful one resets the form |
| AddRecipeModal.EditAndSave | src/components/AddRecipeModal.tsx:54-67 | opening such a recipe and saving it at once returns that recipe |
| Seqs.RemoveAt | src/components/AddRecipeModal.tsx:109-112 | drops exactly index i and keeps the rest in order; an index outside the list drops nothing |
| RecipeIngredientEditor.Configured | src/components/recipe/RecipeIngredientEditor.tsx:66-78 | id, name and category kept; amount and cost set to the parsed value, or 0 when unparseable |
| RecipeIngredientEditor.IngredientEditor.constructor | src/components/recipe/RecipeIngredientEditor.tsx:38-48 | initial state: no dialog, empty texts, category "肉禽类" |
| RecipeIngredientEditor.IngredientEditor.PressIngredient | src/components/recipe/RecipeIngredientEditor.tsx:51-64 | selected by id: toggled once, no dialog; otherwise temp fields cleared and the dialog opened for it, nothing toggled |
| RecipeIngredientEditor.IngredientEditor.ConfirmConfig | src/components/recipe/RecipeIngredientEditor.tsx:66-83 | with a dialog open, passes the configured ingredient once and closes it; otherwise passes nothing |
| RecipeIngredientEditor.IngredientEditor.DismissConfig | src/components/recipe/RecipeIngredientEditor.tsx:166 | the dialog closes and nothing is added |
| RecipeIngredientEditor.IngredientEditor.OpenCreator | src/components/recipe/RecipeIngredientEditor.tsx:152-157 | the creator opens with the search text as the name |
| RecipeIngredientEditor.IngredientEditor.CloseCreator | src/components/recipe/RecipeIngredientEditor.tsx:221 | the creator closes and the draft is kept |
| RecipeIngredientEditor.IngredientEditor.ChooseCategory | src/components/recipe/RecipeIngredientEditor.tsx:247 | the chosen category becomes the draft category |
| RecipeIngredientEditor.IngredientEditor.FinishCreate | src/components/recipe/RecipeIngredientEditor.tsx:85-92 | a blank name (the disabled button) does nothing; else adds the trimmed name and category once, closes, clears name and search |
| RecipeIngredientEditor.PressAndConfirm | src/components/recipe/RecipeIngredientEditor.tsx:51-83 | pressing an unselected ingredient and confirming passes it on exactly once, configured |
| RecipeIngredientEditor.EditorTagNeverSelected | src/components/recipe/RecipeIngredientEditor.tsx:141-148 | as written, no tag in the editor's browser is marked selected, not even a selected one |
| RecipeIngredientEditor.EditorTagSelectedSpec | src/components/recipe/RecipeIngredientEditor.tsx:141-148 | handing over the names instead marks a tag exactly when a selected ingredient has its name |
| RecipeIngredientEditor.EditorQueryIgnored | src/components/recipe/RecipeIngredientEditor.tsx:141-148 | as written, for every tag list, the editor's search text does not change the tags shown |
| RecipeIngredientEditor.EditorQueryIgnoredExample | src/components/recipe/RecipeIngredientEditor.tsx:141-148 | the tag "a" is shown for the editor query "b" when the browser's own box is empty |
| RecipeIngredientEditor.EditorBrowserListSpec | src/components/recipe/RecipeIngredientEditor.tsx:141-148 | filtering by the editor's search text shows exactly the tags whose name contains it |
| RecipeIngredientEditor.EditorBrowserListExample | src/components/recipe/RecipeIngredientEditor.tsx:141-148 | with the correction, the tag "a" is hidden for the editor query "b" |
| IngredientFilter.QuickChips | src/components/home/IngredientFilter.tsx:68 | the quick chips are the first min(10, n) ingredients |
| IngredientFilter.IngredientFilterState.constructor | src/components/home/IngredientFilter.tsx:22 | the browser starts closed |
| IngredientFilter.IngredientFilterState.ToggleBrowser | src/components/home/IngredientFilter.tsx:24-29 | clears the selection and flips the browser flag |
| IngredientFilter.IngredientFilterState.PickIngredient | src/components/home/IngredientFilter.tsx:31-36 | selects the ingredient's name and closes the browser |
| IngredientFilter.IngredientFilterState.Clear | src/components/home/IngredientFilter.tsx:42-47 | clears the selection and leaves the browser flag |
| IngredientFilter.ChipRowConsistent | src/components/home/IngredientFilter.tsx:42-79 | the "收起" label shows exactly while the browser shows; exactly one of clear button and highlighted "全部"; a named chip is never highlighted with "全部" |
| IngredientFilter.OpenPickClose | src/components/home/IngredientFilter.tsx:24-36 | opening the browser shows it (the returned flag); picking from it then selects the name and hides it |
| FamilyFilter.PressedAll | src/components/home/FamilyFilter.tsx:39-42 | the "全部" chip sets the selection to null |
| FamilyFilter.Pressed | src/components/home/FamilyFilter.tsx:54 | the result is null or the member's id, and null exactly when the member was selected |
| FamilyFilter.PressedTwice | src/components/home/FamilyFilter.tsx:54 | pressing a member twice from no selection ends with no selection |
| FamilyFilter.AtMostOneMatch | src/components/home/FamilyFilter.tsx:58 | with distinct ids at most one member chip is highlighted, and one when the selection is a member's id |
| FamilyFilter.AtMostOneHighlighted | src/components/home/FamilyFilter.tsx:44-58 | with distinct non-empty ids at most one chip is highlighted, and exactly one unless the selection names no member |
| RecipeCard.LikedMembersSpec | src/components/home/RecipeCard.tsx:26-29 | shown members are exactly the members whose id is in `likedBy`, in member order; none when `likedBy` is missing or empty |
| RecipeCard.Avatars | src/components/home/RecipeCard.tsx:77 | the first min(3, n) liked members |
| RecipeCard.HeartOrAvatars | src/components/home/RecipeCard.tsx:92 | the heart and the avatars never show together, and a favourite always shows one of them |
| RecipeCard.CostTagSpec | src/components/home/RecipeCard.tsx:100 | the cost tag shows exactly for a stored cost above zero: never without a cost or for a zero cost, and regardless of the ingredients' prices |
| RecipeCard.TopIngredientsSpec | src/components/home/RecipeCard.tsx:112-114 | min(2, n) ingredients from the recipe, in cost order, none left out costing more than one shown (missing cost as 0); for each cost, the shown ones are the earliest of that cost in the recipe |
| RecipeCard.TopIngredientsStable | src/components/home/RecipeCard.tsx:112-114 | the shown ingredients of one cost are a prefix of the recipe's ingredients of that cost |
| RecipeCard.LeftOutCostsLess | src/components/home/RecipeCard.tsx:112-114 | after the descending sort, nothing past the cut costs more than an entry before it |
| RecipeCard.ShownAndMore | src/components/home/RecipeCard.tsx:127-129 | "+N" appears exactly when ingredients are left out, and shown plus N is the total |
| RecipeStepEditor.EmittedStep | src/components/recipe/RecipeStepEditor.tsx:26-31 | a blank draft emits nothing; otherwise it emits the trimmed draft, which is non-blank and trims to itself |
| RecipeStepEditor.StepInput.HandleAdd | src/components/recipe/RecipeStepEditor.tsx:26-31 | emits the trimmed draft and clears it, or emits nothing and leaves a blank draft as it is |
| RecipeStepEditor.StepRows | src/components/recipe/RecipeStepEditor.tsx:56-59 | one row per step, showing that step's text |
| RecipeStepEditor.StepRowsSpec | src/components/recipe/RecipeStepEditor.tsx:56-62 | row k is numbered k+1, and its remove button passes k, so removing through it drops exactly step k |
| AddMemberModal.PresetColorsDistinct | src/components/AddMemberModal.tsx:23-26 | eight distinct preset colours |
| AddMemberModal.MemberForm.constructor | src/components/AddMemberModal.tsx:30-31 | the name starts empty and the colour at the first preset |
| AddMemberModal.MemberForm.HandleSave | src/components/AddMemberModal.tsx:33-39 | a blank name neither adds nor closes; otherwise adds the trimmed name with the colour once, clears the name, closes; colour kept |
| AddMemberModal.MemberForm.ChooseColor | src/components/AddMemberModal.tsx:76-77 | the colour becomes that preset and the name is kept |
| AddMemberModal.CheckedOnce | src/components/AddMemberModal.tsx:83 | a preset colour is checked in exactly one chip |
| AddMemberModal.FormCheckedOnce | src/components/AddMemberModal.tsx:83 | on a valid form exactly one colour chip shows the check mark, the chip of the selected colour |

## Left out

- Storage internals: AsyncStorage and JSON serialisation are not modelled. The slot holds the list as a value, and a failed or unparseable read is the `readFails` flag. The runtime shape of parsed data is not checked.
- Interleavings across `await` points are not modelled, and neither are React's rendering, closures and effect scheduling. Each handler runs to completion in turn.
- The stale `isFavorite` captured by `handleSave` is not modelled (src/components/AddRecipeModal.tsx:185). The form's `Save` reads the current flag.
- The form's delayed reset after saving (src/components/AddRecipeModal.tsx:184) is not modelled as a timer. `Save` resets the form before returning.
- Floating point is not modelled. Costs and amounts are exact reals, so rounding in the cost sum, `toFixed` and NaN arithmetic are absent. An unparseable text is `None` from the `parse` parameter.
- Unicode case folding is the uninterpreted `lower`.
- The local time zone and `toDateString` are not modelled. They are the `civil` decomposition; two timestamps are on the same day when `civil` maps them to the same date.
- `Date.now()` is read once per grouping, as `now`. The code reads it separately per recipe and for "today".
- Random ids and the clock are parameters.
- Image picking, the AI hooks, haptics, layout animation and all presentation are not modelled.
- The family registry (`useFamily` / `FamilyStorage`) is not part of this model: its storage code is not among the files modelled.
- The sample data are opaque constants.
- The name input's `maxLength={10}` in the add-member form is not modelled (src/components/AddMemberModal.tsx:68). The text input enforces it, not the handlers.
- Category values outside the six are not modelled, because the category type is closed. Parsed data holding another string would, in the code, be dropped by the browser's sections.
- RecipeStepEditor.StepRows: its contract states the rows' texts. The numbering and remove indices are stated in `StepRowsSpec`.

## Findings

| source | as written | input that shows it | evidently intended | confidence | as-written member | corrected member |
|---|---|---|---|---|---|---|
| src/components/recipe/RecipeIngredientEditor.tsx:141-148 | the editor passes its `Ingredient` objects as the browser's `selectedIngredients`. The browser asks whether that list includes a tag's name string, which is never true | selected = [ing]: the tag of `ing` is not marked | pass the names (`selectedIngredients.map(i => i.name)`), as the recipe form does at src/components/AddRecipeModal.tsx:312 | not executed | RecipeIngredientEditor.EditorTagNeverSelected | RecipeIngredientEditor.EditorTagSelectedSpec |
| src/components/recipe/RecipeIngredientEditor.tsx:141-148 | the editor's search text goes to the browser as `searchQuery`, a prop the browser does not declare. The browser filters by its own search box only | available = [tag "a"], editor query "b", browser box empty: tag "a" is still shown | the browser filters by the editor's search text | not executed | RecipeIngredientEditor.EditorQueryIgnoredExample | RecipeIngredientEditor.EditorBrowserListSpec |
