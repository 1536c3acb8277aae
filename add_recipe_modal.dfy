/** The add/edit recipe form: its fields, the handlers that change them, and
    the recipe that saving builds from them. The list updates are pure
    functions; the form is a class whose handlers assign its fields. */
module AddRecipeModal {
  import opened RecipeTypes
  import opened Seqs
  import opened Text
  import RecipeCard
  import IngredientBrowser

  // ---------------------------------------------------------------------
  // Selected ingredients

  function IngIdIsNot(id: string): Ingredient -> bool
  {
    (i: Ingredient) => i.id != id
  }

  /** `prev.find(i => i.id === ing.id)` finds something. */
  predicate IdSelected(prev: seq<Ingredient>, id: string)
  {
    id in Project(prev, IngredientIdOf)
  }

  /** `toggleIngredient`: drop every entry with the ingredient's id if there
      is one, otherwise append the ingredient. */
  function Toggled(prev: seq<Ingredient>, ing: Ingredient): seq<Ingredient>
  {
    if IdSelected(prev, ing.id) then Filter(prev, IngIdIsNot(ing.id)) else prev + [ing]
  }

  /** After a toggle the id is selected exactly when it was not before, and
      entries with other ids are untouched and keep their order. */
  lemma ToggledSpec(prev: seq<Ingredient>, ing: Ingredient)
    ensures IdSelected(Toggled(prev, ing), ing.id) <==> !IdSelected(prev, ing.id)
    ensures Filter(Toggled(prev, ing), IngIdIsNot(ing.id)) == Filter(prev, IngIdIsNot(ing.id))
    ensures IdSelected(prev, ing.id) ==> |Toggled(prev, ing)| < |prev|
    ensures !IdSelected(prev, ing.id) ==> Toggled(prev, ing) == prev + [ing]
  {
    var t := Toggled(prev, ing);
    var p := IngIdIsNot(ing.id);
    if IdSelected(prev, ing.id) {
      var ids := Project(prev, IngredientIdOf);
      var j :| 0 <= j < |ids| && ids[j] == ing.id;
      FilterSplit(prev, p);
      assert prev[j] in multiset(Filter(prev, Not(p))) by {
        FilterMember(prev, Not(p), prev[j]);
      }
      if IdSelected(t, ing.id) {
        var k :| 0 <= k < |Project(t, IngredientIdOf)| && Project(t, IngredientIdOf)[k] == ing.id;
        FilterMember(prev, p, t[k]);
      }
      FilterAll(t, p) by {
        forall i | 0 <= i < |t| ensures p(t[i]) {
          FilterMember(prev, p, t[i]);
        }
      }
    } else {
      FilterAppend(prev, [ing], p);
      FilterSingleton(ing, p);
      assert Project(t, IngredientIdOf)[|prev|] == ing.id;
    }
  }

  /** Toggling an unselected ingredient twice restores the list. */
  lemma ToggleTwice(prev: seq<Ingredient>, ing: Ingredient)
    requires !IdSelected(prev, ing.id)
    ensures Toggled(Toggled(prev, ing), ing) == prev
  {
    var p := IngIdIsNot(ing.id);
    assert Project(prev + [ing], IngredientIdOf)[|prev|] == ing.id;
    FilterAppend(prev, [ing], p);
    FilterSingleton(ing, p);
    forall i | 0 <= i < |prev| ensures p(prev[i]) {
      assert Project(prev, IngredientIdOf)[i] == prev[i].id;
    }
    FilterAll(prev, p);
  }

  /** The form's browser marks a tag by name (it is handed the selected
      names), while a toggle works by id. Toggling an unselected ingredient
      on marks its tag; toggling it off leaves its tag marked exactly when
      another selected ingredient, with a different id, has the same name. */
  lemma {:induction false} ToggledTagSelected(prev: seq<Ingredient>, ing: Ingredient)
    ensures !IdSelected(prev, ing.id) ==> IngredientBrowser.TagSelected(Project(Toggled(prev, ing), NameOf), ing)
    ensures IdSelected(prev, ing.id) ==>
      (IngredientBrowser.TagSelected(Project(Toggled(prev, ing), NameOf), ing) <==>
       exists i :: 0 <= i < |prev| && prev[i].id != ing.id && prev[i].name == ing.name)
  {
    var t := Toggled(prev, ing);
    var p := IngIdIsNot(ing.id);
    if !IdSelected(prev, ing.id) {
      assert Project(t, NameOf)[|prev|] == ing.name;
    } else {
      assert t == Filter(prev, p);
      if IngredientBrowser.TagSelected(Project(t, NameOf), ing) {
        var k :| 0 <= k < |t| && Project(t, NameOf)[k] == ing.name;
        FilterMember(prev, p, t[k]);
        var i :| 0 <= i < |prev| && prev[i] == t[k];
        assert prev[i].id != ing.id && prev[i].name == ing.name;
      }
      if exists i :: 0 <= i < |prev| && prev[i].id != ing.id && prev[i].name == ing.name {
        var i :| 0 <= i < |prev| && prev[i].id != ing.id && prev[i].name == ing.name;
        FilterMember(prev, p, prev[i]);
        var k :| 0 <= k < |t| && t[k] == prev[i];
        assert Project(t, NameOf)[k] == ing.name;
      }
    }
  }

  // ---------------------------------------------------------------------
  // Adding an ingredient by name

  /** `MOCK_INGREDIENTS.find(i => i.name === name)`. */
  function FindByName(mock: seq<Ingredient>, name: string): (r: Option<Ingredient>)
    ensures r.Some? ==> r.value in mock && r.value.name == name
    ensures r.Some? ==> r.value == mock[FirstIndex(mock, NameOf, name)]
    ensures r.None? <==> name !in Project(mock, NameOf)
  {
    if mock == [] then None
    else if mock[0].name == name then Some(mock[0])
    else
      assert Project(mock, NameOf) == [mock[0].name] + Project(mock[1..], NameOf);
      FindByName(mock[1..], name)
  }

  /** A custom ingredient: id `custom-<now>`, the typed name and the chosen
      category, no amount and no cost. */
  function CustomIngredient(name: string, category: Category, nowMs: int): Ingredient
  {
    Ingredient("custom-" + IntToString(nowMs), name, Some(category), None, None)
  }

  /** The selection updater of `handleAddNewIngredient` for the trimmed name. */
  function WithNewIngredient(prev: seq<Ingredient>, trimmed: string, mock: seq<Ingredient>, category: Category, nowMs: int): seq<Ingredient>
  {
    if trimmed in Project(prev, NameOf) then prev
    else
      var ing := match FindByName(mock, trimmed)
        case Some(m) => m
        case None => CustomIngredient(trimmed, category, nowMs);
      prev + [ing]
  }

  /** The name ends up selected; an already selected name changes nothing;
      otherwise one ingredient of that name is appended, the catalogue entry
      when there is one and a custom one otherwise; and distinct names stay
      distinct. */
  lemma WithNewIngredientSpec(prev: seq<Ingredient>, trimmed: string, mock: seq<Ingredient>, category: Category, nowMs: int)
    ensures trimmed in Project(WithNewIngredient(prev, trimmed, mock, category, nowMs), NameOf)
    ensures trimmed in Project(prev, NameOf) ==> WithNewIngredient(prev, trimmed, mock, category, nowMs) == prev
    ensures trimmed !in Project(prev, NameOf) ==>
      WithNewIngredient(prev, trimmed, mock, category, nowMs) ==
        prev + [if trimmed in Project(mock, NameOf) then FindByName(mock, trimmed).value else CustomIngredient(trimmed, category, nowMs)]
    ensures DistinctKeys(prev, NameOf) ==> DistinctKeys(WithNewIngredient(prev, trimmed, mock, category, nowMs), NameOf)
  {
    var r := WithNewIngredient(prev, trimmed, mock, category, nowMs);
    if trimmed !in Project(prev, NameOf) {
      assert r[|prev|].name == trimmed;
      assert Project(r, NameOf)[|prev|] == trimmed;
      forall i | 0 <= i < |prev| ensures prev[i].name != trimmed {
        assert Project(prev, NameOf)[i] == prev[i].name;
      }
    }
  }

  // ---------------------------------------------------------------------
  // Saving

  /** `recipe.steps || []`. */
  function StepsOf(r: Recipe): seq<string>
  {
    match r.steps
    case Some(s) => s
    case None => []
  }

  /** `handleSave`: nothing without a non-blank name and an image; otherwise
      the recipe, keeping the id and creation time of the recipe being edited
      or taking fresh ones. */
  function SavedRecipe(name: string, imageUris: seq<string>, ingredients: seq<Ingredient>, steps: seq<string>,
                       isFavorite: bool, initial: Option<Recipe>, randomId: string, nowMs: int): (r: Option<Recipe>)
    ensures r.None? <==> IsBlank(name) || |imageUris| == 0
    ensures r.Some? ==> r.value.name == Trim(name) && r.value.imageUris == imageUris && r.value.ingredients == ingredients
    ensures r.Some? ==> r.value.steps == (if steps == [] then None else Some(steps))
    ensures r.Some? ==> r.value.isFavorite == Some(isFavorite) && r.value.cost == None && r.value.likedBy == None
    ensures r.Some? ==> r.value.id == (if initial.Some? then initial.value.id else randomId)
    ensures r.Some? ==> r.value.createdAt == (if initial.Some? then initial.value.createdAt else nowMs)
  {
    if IsBlank(name) || |imageUris| == 0 then None
    else
      Some(Recipe(
        id := if initial.Some? then initial.value.id else randomId,
        name := Trim(name),
        imageUris := imageUris,
        ingredients := ingredients,
        steps := if |steps| > 0 then Some(steps) else None,
        createdAt := if initial.Some? then initial.value.createdAt else nowMs,
        isFavorite := Some(isFavorite),
        cost := None,
        likedBy := None))
  }

  /** Editing a recipe and saving it unchanged gives the same recipe back,
      provided it is already in the form saving produces: a trimmed
      non-blank name, an image, no empty step list, a set favourite flag, and
      no cost or likes (saving does not carry those over). */
  lemma EditRoundTrip(r: Recipe, randomId: string, nowMs: int)
    requires Trim(r.name) == r.name && r.name != ""
    requires |r.imageUris| > 0
    requires r.steps != Some([])
    requires r.isFavorite.Some?
    requires r.cost == None && r.likedBy == None
    ensures SavedRecipe(r.name, r.imageUris, r.ingredients, StepsOf(r), IsFavorite(r), Some(r), randomId, nowMs) == Some(r)
  {
    assert !IsBlank(r.name);
    assert r.isFavorite == Some(r.isFavorite.value);
    assert IsFavorite(r) == r.isFavorite.value;
    assert (if StepsOf(r) == [] then None else Some(StepsOf(r))) == r.steps;
  }

  /** A recipe saved from the form carries no cost, so its card never shows
      the cost tag, even when its ingredients have prices. */
  lemma SavedRecipeNoCostTag(name: string, imageUris: seq<string>, ingredients: seq<Ingredient>, steps: seq<string>,
                             isFavorite: bool, initial: Option<Recipe>, randomId: string, nowMs: int)
    ensures var r := SavedRecipe(name, imageUris, ingredients, steps, isFavorite, initial, randomId, nowMs);
      r.Some? ==> !RecipeCard.ShowsCostTag(r.value)
  {
  }

  // ---------------------------------------------------------------------
  // The form

  datatype FormState = FormState(
    name: string,
    imageUris: seq<string>,
    selectedIngredients: seq<Ingredient>,
    newIngredientName: string,
    newIngredientCategory: Category,
    steps: seq<string>,
    currentStep: string,
    isFavorite: bool)

  /** The state `resetForm` leaves, which is also the initial state. */
  const EmptyForm := FormState("", [], [], "", Meat, [], "", false)

  class RecipeForm {
    var name: string
    var imageUris: seq<string>
    var selectedIngredients: seq<Ingredient>
    var newIngredientName: string
    var newIngredientCategory: Category
    var steps: seq<string>
    var currentStep: string
    var isFavorite: bool
    /** The ingredient catalogue that named additions are looked up in. */
    const mockIngredients: seq<Ingredient>

    function State(): FormState
      reads this
    {
      FormState(name, imageUris, selectedIngredients, newIngredientName, newIngredientCategory, steps, currentStep, isFavorite)
    }

    constructor (mockIngredients: seq<Ingredient>)
      ensures State() == EmptyForm && this.mockIngredients == mockIngredients
    {
      this.mockIngredients := mockIngredients;
      name, imageUris, selectedIngredients := "", [], [];
      newIngredientName, newIngredientCategory := "", Meat;
      steps, currentStep, isFavorite := [], "", false;
    }

    /** `resetForm()`. */
    method ResetForm()
      modifies this
      ensures State() == EmptyForm
    {
      name, imageUris, selectedIngredients := "", [], [];
      newIngredientName, newIngredientCategory := "", Meat;
      steps, currentStep, isFavorite := [], "", false;
    }

    /** The effect run when the form becomes visible: an initial recipe is
        copied in (a missing step list becomes empty and the favourite flag
        a boolean), while the draft inputs are left as they are; with no
        initial recipe the form is reset. */
    method Open(isVisible: bool, initial: Option<Recipe>)
      modifies this
      ensures !isVisible ==> State() == old(State())
      ensures isVisible && initial.Some? ==>
        State() == old(State()).(name := initial.value.name, imageUris := initial.value.imageUris,
          selectedIngredients := initial.value.ingredients, steps := StepsOf(initial.value),
          isFavorite := IsFavorite(initial.value))
      ensures isVisible && initial.None? ==> State() == EmptyForm
    {
      if isVisible {
        match initial
        case Some(r) =>
          name := r.name;
          imageUris := r.imageUris;
          selectedIngredients := r.ingredients;
          steps := StepsOf(r);
          isFavorite := IsFavorite(r);
        case None =>
          ResetForm();
      }
    }

    /** `removeImage(index)`. */
    method RemoveImage(index: int)
      modifies this
      ensures State() == old(State()).(imageUris := RemoveAt(old(imageUris), index))
    {
      imageUris := RemoveAt(imageUris, index);
    }

    /** `toggleIngredient(ing)`. */
    method ToggleIngredient(ing: Ingredient)
      modifies this
      ensures State() == old(State()).(selectedIngredients := Toggled(old(selectedIngredients), ing))
    {
      selectedIngredients := Toggled(selectedIngredients, ing);
    }

    /** `handleAddNewIngredient()` at time `nowMs`: a blank name changes
        nothing; otherwise the selection is updated and the input cleared. */
    method AddNewIngredient(nowMs: int)
      modifies this
      ensures IsBlank(old(newIngredientName)) ==> State() == old(State())
      ensures !IsBlank(old(newIngredientName)) ==>
        State() == old(State()).(selectedIngredients := WithNewIngredient(old(selectedIngredients),
          Trim(old(newIngredientName)), mockIngredients, old(newIngredientCategory), nowMs), newIngredientName := "")
    {
      var trimmed := Trim(newIngredientName);
      if trimmed == "" {
        return;
      }
      selectedIngredients := WithNewIngredient(selectedIngredients, trimmed, mockIngredients, newIngredientCategory, nowMs);
      newIngredientName := "";
    }

    /** `addStep()`: a non-blank draft is appended trimmed and cleared. */
    method AddStep()
      modifies this
      ensures IsBlank(old(currentStep)) ==> State() == old(State())
      ensures !IsBlank(old(currentStep)) ==>
        State() == old(State()).(steps := old(steps) + [Trim(old(currentStep))], currentStep := "")
    {
      if Trim(currentStep) != "" {
        steps := steps + [Trim(currentStep)];
        currentStep := "";
      }
    }

    /** `removeStep(index)`. */
    method RemoveStep(index: int)
      modifies this
      ensures State() == old(State()).(steps := RemoveAt(old(steps), index))
    {
      steps := RemoveAt(steps, index);
    }

    /** The heart button. */
    method ToggleFavorite()
      modifies this
      ensures State() == old(State()).(isFavorite := !old(isFavorite))
    {
      isFavorite := !isFavorite;
    }

    /** `handleSave()` with the recipe being edited, a fresh random id and the
        current time. A saved form is reset afterwards (the reset the code
        schedules with a timer is taken to run before the next handler). */
    method Save(initial: Option<Recipe>, randomId: string, nowMs: int) returns (saved: Option<Recipe>)
      modifies this
      ensures saved == SavedRecipe(old(name), old(imageUris), old(selectedIngredients), old(steps), old(isFavorite), initial, randomId, nowMs)
      ensures saved.None? ==> State() == old(State())
      ensures saved.Some? ==> State() == EmptyForm
    {
      saved := SavedRecipe(name, imageUris, selectedIngredients, steps, isFavorite, initial, randomId, nowMs);
      if saved.Some? {
        ResetForm();
      }
    }
  }

  /** Opening a recipe for editing and saving it straight away gives the
      recipe back when it is in the form saving produces (see
      `EditRoundTrip`). */
  method EditAndSave(form: RecipeForm, r: Recipe, randomId: string, nowMs: int) returns (saved: Option<Recipe>)
    requires Trim(r.name) == r.name && r.name != ""
    requires |r.imageUris| > 0
    requires r.steps != Some([])
    requires r.isFavorite.Some?
    requires r.cost == None && r.likedBy == None
    modifies form
    ensures saved == Some(r)
  {
    form.Open(true, Some(r));
    saved := form.Save(Some(r), randomId, nowMs);
    EditRoundTrip(r, randomId, nowMs);
  }
}
