/** The home screen's ingredient filter: a row of quick chips, a "全部" chip
    that opens and closes the full browser, and a clear button. The
    selection is owned by the parent; here it is the field the parent's
    `onSelect` sets. */
module IngredientFilter {
  import opened RecipeTypes
  import opened Seqs

  /** How many quick chips the row shows at most. */
  const QuickChipCount := 10

  /** `ingredients.slice(0, 10)`. */
  function QuickChips(ings: seq<Ingredient>): (r: seq<Ingredient>)
    ensures |r| == Min(QuickChipCount, |ings|)
    ensures r == ings[..|r|]
  {
    if |ings| <= QuickChipCount then ings else ings[..QuickChipCount]
  }

  class IngredientFilterState {
    /** The selected ingredient name, `null` as None. */
    var selected: Option<string>
    var isBrowserOpen: bool

    constructor (selected: Option<string>)
      ensures this.selected == selected && !isBrowserOpen
    {
      this.selected := selected;
      isBrowserOpen := false;
    }

    /** The "全部" chip: clears the selection and flips the browser. */
    method ToggleBrowser()
      modifies this
      ensures selected == None && isBrowserOpen == !old(isBrowserOpen)
    {
      selected := None;
      isBrowserOpen := !isBrowserOpen;
    }

    /** A quick chip or a browser tag: selects that name and closes the
        browser. */
    method PickIngredient(ing: Ingredient)
      modifies this
      ensures selected == Some(ing.name) && !isBrowserOpen
    {
      selected := Some(ing.name);
      isBrowserOpen := false;
    }

    /** The clear button: clears the selection and leaves the browser flag. */
    method Clear()
      modifies this
      ensures selected == None && isBrowserOpen == old(isBrowserOpen)
    {
      selected := None;
    }

    /** `{selected && …}`: the clear button is shown. */
    predicate ShowsClear()
      reads this
    {
      Truthy(selected)
    }

    /** `!selected && isBrowserOpen`: the browser is shown. */
    predicate ShowsBrowser()
      reads this
    {
      !Truthy(selected) && isBrowserOpen
    }

    /** The "全部" chip is highlighted while nothing is selected. */
    predicate AllChipHighlighted()
      reads this
    {
      !Truthy(selected)
    }

    function AllChipLabel(): string
      reads this
    {
      if !Truthy(selected) && isBrowserOpen then "收起" else "全部"
    }

    /** `selected === ing.name`. */
    predicate ChipHighlighted(ing: Ingredient)
      reads this
    {
      selected == Some(ing.name)
    }
  }

  /** The chip row is consistent: the "全部" chip reads "收起" exactly while
      the browser is shown; the clear button and the highlighted "全部" chip
      exclude each other and one of them is always there; and a chip with a
      name is never highlighted together with "全部". */
  lemma ChipRowConsistent(f: IngredientFilterState, ing: Ingredient)
    requires ing.name != ""
    ensures f.AllChipLabel() == "收起" <==> f.ShowsBrowser()
    ensures f.ShowsClear() <==> !f.AllChipHighlighted()
    ensures f.ChipHighlighted(ing) ==> !f.AllChipHighlighted() && !f.ShowsBrowser()
  {
  }

  /** Opening the browser shows it (`openedShows`); picking an ingredient
      from it selects that name and hides the browser again. */
  method OpenPickClose(f: IngredientFilterState, ing: Ingredient) returns (openedShows: bool)
    requires !f.isBrowserOpen
    modifies f
    ensures openedShows
    ensures f.selected == Some(ing.name) && !f.ShowsBrowser()
  {
    f.ToggleBrowser();
    openedShows := f.ShowsBrowser();
    f.PickIngredient(ing);
  }
}
