/** The journal's entities: ingredients, recipes and family members, with the
    optional fields of their TypeScript interfaces as `Option`s. */
module RecipeTypes {

  datatype Option<T> = None | Some(value: T)

  /** The closed union of the six ingredient categories. */
  datatype Category = Meat | Vegetable | Seasoning | Seafood | Staple | Other

  /** The literal string each category stands for. */
  function Label(c: Category): string
  {
    match c
    case Meat => "肉禽类"
    case Vegetable => "蔬菜类"
    case Seasoning => "调料类"
    case Seafood => "海鲜类"
    case Staple => "主食类"
    case Other => "其他"
  }

  /** The category order the pickers and the browser list. */
  const Categories: seq<Category> := [Meat, Vegetable, Seasoning, Seafood, Staple, Other]

  /** `amount` is in grams and `cost` in yuan; both are exact reals here. */
  datatype Ingredient = Ingredient(
    id: string,
    name: string,
    category: Option<Category>,
    amount: Option<real>,
    cost: Option<real>)

  /** `createdAt` is a millisecond timestamp; 0 is the value that the code's
      `createdAt || …` fallbacks treat as missing. */
  datatype Recipe = Recipe(
    id: string,
    name: string,
    imageUris: seq<string>,
    ingredients: seq<Ingredient>,
    steps: Option<seq<string>>,
    createdAt: int,
    isFavorite: Option<bool>,
    cost: Option<real>,
    likedBy: Option<seq<string>>)

  datatype FamilyMember = FamilyMember(
    id: string,
    name: string,
    avatar: Option<string>,
    color: Option<string>)

  /** The category list holds each of the six categories exactly once, so the
      union is closed and the order is total. */
  lemma CategoriesExact(c: Category)
    ensures |Categories| == 6
    ensures c in Categories
    ensures forall i, j :: 0 <= i < j < |Categories| ==> Categories[i] != Categories[j]
  {
  }

  /** Different categories carry different literal labels. */
  lemma LabelInjective(c: Category, d: Category)
    ensures Label(c) == Label(d) <==> c == d
  {
  }

  // ---------------------------------------------------------------------
  // JavaScript truthiness of the optional fields

  /** A string-or-null value is truthy when present and non-empty. */
  predicate Truthy(s: Option<string>)
  {
    s.Some? && s.value != ""
  }

  /** `!!recipe.isFavorite`. */
  predicate IsFavorite(r: Recipe)
  {
    r.isFavorite == Some(true)
  }

  /** `ing.category || '其他'`. */
  function CategoryOf(ing: Ingredient): Category
  {
    match ing.category
    case Some(c) => c
    case None => Other
  }

  /** `ing.cost || 0`. */
  function CostOf(ing: Ingredient): real
  {
    match ing.cost
    case Some(c) => c
    case None => 0.0
  }

  /** `recipe.createdAt || 0` as the real sort key. */
  function CreatedKey(r: Recipe): real
  {
    r.createdAt as real
  }

  function IdOf(r: Recipe): string
  {
    r.id
  }

  function NameOf(ing: Ingredient): string
  {
    ing.name
  }

  function IngredientIdOf(ing: Ingredient): string
  {
    ing.id
  }
}
