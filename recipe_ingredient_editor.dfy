/** The ingredient editor of the recipe form: pressing a tag either
    unselects it or opens the dialog that asks for its weight and cost, and a
    second dialog creates a custom tag. Calls to the parent's callbacks are
    the handlers' return values. */
module RecipeIngredientEditor {
  import opened RecipeTypes
  import opened Seqs
  import opened Text
  import IngredientBrowser

  /** `parseFloat(text) || 0`: an unparseable text (NaN) and zero both give 0. */
  function OrZero(parsed: Option<real>): real
  {
    match parsed
    case Some(v) => v
    case None => 0.0
  }

  /** The ingredient the confirm button passes on: the one being configured,
      with amount and cost set from the two texts. */
  function Configured(ing: Ingredient, parse: string -> Option<real>, amountText: string, costText: string): (r: Ingredient)
    ensures r.id == ing.id && r.name == ing.name && r.category == ing.category
    ensures r.amount.Some? && r.cost.Some?
    ensures parse(amountText).None? ==> r.amount == Some(0.0)
    ensures parse(costText).None? ==> r.cost == Some(0.0)
    ensures (forall v :: parse(amountText) == Some(v) ==> r.amount == Some(v))
    ensures (forall v :: parse(costText) == Some(v) ==> r.cost == Some(v))
  {
    ing.(amount := Some(OrZero(parse(amountText))), cost := Some(OrZero(parse(costText))))
  }

  /** `selectedIngredients.some(s => s.id === ing.id)`. */
  predicate IsSelectedById(selected: seq<Ingredient>, ing: Ingredient)
  {
    ing.id in Project(selected, IngredientIdOf)
  }

  class IngredientEditor {
    var searchQuery: string
    var isCreatingNew: bool
    var newName: string
    var newCategory: Category
    var configuringIng: Option<Ingredient>
    var tempAmount: string
    var tempCost: string

    constructor ()
      ensures searchQuery == "" && !isCreatingNew && newName == "" && newCategory == Meat
      ensures configuringIng == None && tempAmount == "" && tempCost == ""
    {
      searchQuery, isCreatingNew, newName, newCategory := "", false, "", Meat;
      configuringIng, tempAmount, tempCost := None, "", "";
    }

    /** `handleIngredientPress(ing)`: a selected ingredient is toggled off at
        once (the returned ingredient is passed to the toggle callback); an
        unselected one opens the configuration dialog with empty inputs. */
    method PressIngredient(selected: seq<Ingredient>, ing: Ingredient) returns (toggled: Option<Ingredient>)
      modifies this
      ensures IsSelectedById(selected, ing) ==> toggled == Some(ing)
      ensures IsSelectedById(selected, ing) ==> (configuringIng == old(configuringIng) &&
        tempAmount == old(tempAmount) && tempCost == old(tempCost))
      ensures !IsSelectedById(selected, ing) ==> (toggled == None &&
        configuringIng == Some(ing) && tempAmount == "" && tempCost == "")
      ensures searchQuery == old(searchQuery) && isCreatingNew == old(isCreatingNew)
      ensures newName == old(newName) && newCategory == old(newCategory)
    {
      if ing.id in Project(selected, IngredientIdOf) {
        toggled := Some(ing);
      } else {
        tempAmount := "";
        tempCost := "";
        configuringIng := Some(ing);
        toggled := None;
      }
    }

    /** `handleConfirmConfig()`: with a dialog open, the configured ingredient
        goes to the toggle callback and the dialog closes; with none open,
        nothing happens. */
    method ConfirmConfig(parse: string -> Option<real>) returns (toggled: Option<Ingredient>)
      modifies this
      ensures old(configuringIng).None? ==> toggled == None
      ensures old(configuringIng).Some? ==> toggled == Some(Configured(old(configuringIng).value, parse, old(tempAmount), old(tempCost)))
      ensures configuringIng == None
      ensures searchQuery == old(searchQuery) && isCreatingNew == old(isCreatingNew)
      ensures newName == old(newName) && newCategory == old(newCategory)
      ensures tempAmount == old(tempAmount) && tempCost == old(tempCost)
    {
      match configuringIng
      case None =>
        toggled := None;
      case Some(ing) =>
        toggled := Some(Configured(ing, parse, tempAmount, tempCost));
        configuringIng := None;
    }

    /** Closing the configuration dialog by its close button or the system
        back gesture: it closes and nothing is added. */
    method DismissConfig()
      modifies this
      ensures configuringIng == None
      ensures searchQuery == old(searchQuery) && isCreatingNew == old(isCreatingNew)
      ensures newName == old(newName) && newCategory == old(newCategory)
      ensures tempAmount == old(tempAmount) && tempCost == old(tempCost)
    {
      configuringIng := None;
    }

    /** The "create tag" button: the creator opens with the search text as
        the name. */
    method OpenCreator()
      modifies this
      ensures newName == old(searchQuery) && isCreatingNew
      ensures searchQuery == old(searchQuery) && newCategory == old(newCategory)
      ensures configuringIng == old(configuringIng) && tempAmount == old(tempAmount) && tempCost == old(tempCost)
    {
      newName := searchQuery;
      isCreatingNew := true;
    }

    /** Closing the creator keeps the draft name and category. */
    method CloseCreator()
      modifies this
      ensures !isCreatingNew
      ensures newName == old(newName) && searchQuery == old(searchQuery) && newCategory == old(newCategory)
      ensures configuringIng == old(configuringIng) && tempAmount == old(tempAmount) && tempCost == old(tempCost)
    {
      isCreatingNew := false;
    }

    /** A category chip of the creator. */
    method ChooseCategory(c: Category)
      modifies this
      ensures newCategory == c
      ensures newName == old(newName) && searchQuery == old(searchQuery) && isCreatingNew == old(isCreatingNew)
      ensures configuringIng == old(configuringIng) && tempAmount == old(tempAmount) && tempCost == old(tempCost)
    {
      newCategory := c;
    }

    /** The create button is disabled while the name is blank. */
    predicate CreateDisabled()
      reads this
    {
      IsBlank(newName)
    }

    /** `handleFinishCreate()`: a blank name does nothing; otherwise the
        trimmed name and the chosen category go to the add callback, the
        creator closes, and the name and the search are cleared. */
    method FinishCreate() returns (created: Option<(string, Category)>)
      modifies this
      ensures old(CreateDisabled()) ==> (created == None && newName == old(newName) &&
        searchQuery == old(searchQuery) && isCreatingNew == old(isCreatingNew))
      ensures !old(CreateDisabled()) ==> (created == Some((Trim(old(newName)), old(newCategory))) &&
        !isCreatingNew && newName == "" && searchQuery == "")
      ensures newCategory == old(newCategory)
      ensures configuringIng == old(configuringIng) && tempAmount == old(tempAmount) && tempCost == old(tempCost)
    {
      if Trim(newName) == "" {
        return None;
      }
      created := Some((Trim(newName), newCategory));
      isCreatingNew := false;
      newName := "";
      searchQuery := "";
    }
  }

  /** Pressing an unselected ingredient and confirming passes it on exactly
      once, configured from the texts typed in between. */
  method PressAndConfirm(e: IngredientEditor, selected: seq<Ingredient>, ing: Ingredient,
                         amountText: string, costText: string, parse: string -> Option<real>)
      returns (first: Option<Ingredient>, second: Option<Ingredient>)
    requires !IsSelectedById(selected, ing)
    modifies e
    ensures first == None && second == Some(Configured(ing, parse, amountText, costText))
    ensures e.configuringIng == None
  {
    first := e.PressIngredient(selected, ing);
    e.tempAmount, e.tempCost := amountText, costText;
    second := e.ConfirmConfig(parse);
  }

  // ---------------------------------------------------------------------
  // What the embedded browser receives

  /** A JavaScript value as `Array.prototype.includes` compares it. */
  datatype JsValue = JsString(s: string) | JsObject(ing: Ingredient)

  function AsObjects(list: seq<Ingredient>): (r: seq<JsValue>)
    ensures |r| == |list|
    ensures forall i :: 0 <= i < |r| ==> r[i] == JsObject(list[i])
  {
    if list == [] then [] else [JsObject(list[0])] + AsObjects(list[1..])
  }

  /** As written: the editor hands its ingredient objects to the browser as
      the selected names, and the browser asks whether that list includes a
      tag's name string. */
  predicate EditorTagSelectedAsWritten(selected: seq<Ingredient>, ing: Ingredient)
  {
    JsString(ing.name) in AsObjects(selected)
  }

  /** No tag of the editor's browser is ever marked selected, not even one
      whose ingredient is selected. */
  lemma EditorTagNeverSelected(selected: seq<Ingredient>, ing: Ingredient)
    ensures !EditorTagSelectedAsWritten(selected, ing)
    ensures !EditorTagSelectedAsWritten([ing], ing)
  {
    var objs := AsObjects(selected);
    assert forall i :: 0 <= i < |objs| ==> objs[i].JsObject?;
    assert AsObjects([ing])[0] == JsObject(ing);
  }

  /** Corrected: the selected ingredients' names are handed over, as the
      recipe form does for its own browser. */
  predicate EditorTagSelected(selected: seq<Ingredient>, ing: Ingredient)
  {
    IngredientBrowser.TagSelected(Project(selected, NameOf), ing)
  }

  /** A tag is marked exactly when a selected ingredient has its name; in
      particular every selected ingredient's tag is marked. */
  lemma EditorTagSelectedSpec(selected: seq<Ingredient>, ing: Ingredient)
    ensures EditorTagSelected(selected, ing) <==> exists i :: 0 <= i < |selected| && selected[i].name == ing.name
    ensures ing in selected ==> EditorTagSelected(selected, ing)
  {
    var names := Project(selected, NameOf);
    if ing in selected {
      var i :| 0 <= i < |selected| && selected[i] == ing;
      assert names[i] == ing.name;
    }
    if exists i :: 0 <= i < |selected| && selected[i].name == ing.name {
      var i :| 0 <= i < |selected| && selected[i].name == ing.name;
      assert names[i] == ing.name;
    }
  }

  /** As written: the editor's search text is passed under a name the
      browser does not take, so the browser filters by its own search box
      only. */
  function EditorBrowserListAsWritten(available: seq<Ingredient>, editorQuery: string, browserSearch: string,
                                      lower: string -> string): seq<Ingredient>
  {
    IngredientBrowser.Filtered(available, browserSearch, lower)
  }

  /** The editor's search text has no effect on the tags shown: for every
      list of tags, every browser search and every lower-casing, two editor
      queries give the same tags. */
  lemma EditorQueryIgnored(available: seq<Ingredient>, browserSearch: string, lower: string -> string, q1: string, q2: string)
    ensures EditorBrowserListAsWritten(available, q1, browserSearch, lower) == EditorBrowserListAsWritten(available, q2, browserSearch, lower)
  {
  }

  /** The input that shows it: with the browser's own box empty, a tag named
      "a" is still shown for the editor query "b". */
  lemma EditorQueryIgnoredExample(a: Ingredient)
    requires a.name == "a"
    ensures EditorBrowserListAsWritten([a], "b", "", (s: string) => s) == [a]
  {
    assert IsBlank("");
  }

  /** Corrected: the browser filters by the editor's search text. */
  function EditorBrowserList(available: seq<Ingredient>, editorQuery: string, lower: string -> string): seq<Ingredient>
  {
    IngredientBrowser.Filtered(available, editorQuery, lower)
  }

  /** With the correction a non-blank editor query shows exactly the tags
      whose lower-cased name contains it. */
  lemma EditorBrowserListSpec(available: seq<Ingredient>, editorQuery: string, lower: string -> string)
    ensures !IsBlank(editorQuery) ==> forall x :: x in EditorBrowserList(available, editorQuery, lower) <==>
      x in available && Contains(lower(x.name), IngredientBrowser.Query(editorQuery, lower))
  {
    IngredientBrowser.FilteredMembers(available, editorQuery, lower);
  }

  /** With the correction the tag "a" is hidden for the editor query "b". */
  lemma EditorBrowserListExample(a: Ingredient)
    requires a.name == "a"
    ensures EditorBrowserList([a], "b", (s: string) => s) == []
  {
    var id := (s: string) => s;
    assert Trim("b") == "b";
    assert !Contains("a", "b");
    IngredientBrowser.FilteredMembers([a], "b", id);
  }
}
