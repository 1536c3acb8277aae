/** The recipe utilities: the ingredient cost total and the date badge text. */
module RecipeUtils {
  import opened RecipeTypes
  import opened Text
  import opened Dates

  /** `ingredients.reduce((sum, ing) => sum + (ing.cost || 0), 0)`, folded from
      the left. Costs are exact reals, so rounding of the float sum is not
      modelled. */
  function IngredientsCost(ings: seq<Ingredient>): real
  {
    if ings == [] then 0.0 else IngredientsCost(ings[..|ings| - 1]) + CostOf(ings[|ings| - 1])
  }

  /** An appended ingredient adds its own cost, or 0 when it has none. */
  lemma IngredientsCostSnoc(a: seq<Ingredient>, x: Ingredient)
    ensures IngredientsCost(a + [x]) == IngredientsCost(a) + CostOf(x)
    ensures IngredientsCost([x]) == CostOf(x)
  {
    assert (a + [x])[..|a + [x]| - 1] == a;
    assert [x][..0] == [];
  }

  /** The cost of a concatenation is the sum of the parts' costs. */
  lemma {:induction false} IngredientsCostAppend(a: seq<Ingredient>, b: seq<Ingredient>)
    ensures IngredientsCost(a + b) == IngredientsCost(a) + IngredientsCost(b)
    decreases |b|
  {
    if b != [] {
      var b' := b[..|b| - 1];
      assert (a + b)[..|a + b| - 1] == a + b';
      assert (a + b)[|a + b| - 1] == b[|b| - 1];
      IngredientsCostAppend(a, b');
    } else {
      assert a + b == a;
    }
  }

  /** An ingredient with no cost contributes nothing, wherever it stands. */
  lemma MissingCostAddsNothing(a: seq<Ingredient>, ing: Ingredient, b: seq<Ingredient>)
    requires ing.cost == None
    ensures IngredientsCost(a + [ing] + b) == IngredientsCost(a + b)
  {
    IngredientsCostAppend(a + [ing], b);
    IngredientsCostAppend(a, [ing]);
    IngredientsCostAppend(a, b);
    assert [ing][..0] == [];
  }

  /** With no negative cost the total is not negative. */
  lemma {:induction false} IngredientsCostNonNegative(ings: seq<Ingredient>)
    requires forall i :: 0 <= i < |ings| ==> CostOf(ings[i]) >= 0.0
    ensures IngredientsCost(ings) >= 0.0
    decreases |ings|
  {
    if ings != [] {
      IngredientsCostNonNegative(ings[..|ings| - 1]);
    }
  }

  // ---------------------------------------------------------------------
  // formatDate

  datatype DateText = DateText(dateStr: string, yearStr: string)

  /** `"<month>/<day>"` with a 1-based month. */
  function MonthSlashDay(d: CivilDate): string
  {
    IntToString(d.month0 + 1) + "/" + IntToString(d.day)
  }

  /** `formatDate(timestamp)`: empty texts for an absent or zero timestamp,
      otherwise the 1-based month and the day, and the full year. */
  function FormatDate(timestamp: Option<int>, civil: Calendar): (r: DateText)
    ensures (timestamp == None || timestamp == Some(0)) <==> r == DateText("", "")
    ensures timestamp.Some? && timestamp.value != 0 ==>
      (r.dateStr == IntToString(civil(timestamp.value).month0 + 1) + "/" + IntToString(civil(timestamp.value).day) &&
       r.yearStr == IntToString(civil(timestamp.value).year))
  {
    match timestamp
    case None => DateText("", "")
    case Some(t) =>
      if t == 0 then DateText("", "")
      else
        var d := civil(t);
        DateText(MonthSlashDay(d), IntToString(d.year))
  }

  /** The badge text determines the date: two timestamps with the same texts
      fall on the same local day. */
  lemma FormatDateInjective(t: int, u: int, civil: Calendar)
    requires t != 0 && u != 0
    requires FormatDate(Some(t), civil) == FormatDate(Some(u), civil)
    ensures civil(t) == civil(u)
  {
    var d, e := civil(t), civil(u);
    var a, b, c, f := IntToString(d.month0 + 1), IntToString(d.day), IntToString(e.month0 + 1), IntToString(e.day);
    assert a + "/" + b == FormatDate(Some(t), civil).dateStr == c + "/" + f;
    IntToStringAvoids(d.month0 + 1, '/');
    IntToStringAvoids(e.month0 + 1, '/');
    SplitAtSeparator(a, b, c, f, '/');
    IntToStringInjective(d.month0 + 1, e.month0 + 1);
    IntToStringInjective(d.day, e.day);
    IntToStringInjective(d.year, e.year);
  }
}
