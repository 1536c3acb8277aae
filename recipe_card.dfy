/** What a recipe card chooses to show: the members who like the recipe, at
    most three avatars, the heart and cost badges, the two most expensive
    ingredients and the "+N" badge for the rest. */
module RecipeCard {
  import opened RecipeTypes
  import opened Seqs

  function LikedByHas(likedBy: seq<string>): FamilyMember -> bool
  {
    (m: FamilyMember) => m.id in likedBy
  }

  /** `likedMembers`: none without a `likedBy` list or without members,
      otherwise the members, in their own order, whose id is liked. */
  function LikedMembers(r: Recipe, allMembers: seq<FamilyMember>): seq<FamilyMember>
  {
    if r.likedBy.None? || |allMembers| == 0 then [] else Filter(allMembers, LikedByHas(r.likedBy.value))
  }

  /** A member is shown as liking the recipe exactly when it is one of the
      members and its id is in `likedBy`; the shown members keep the
      members' order. */
  lemma LikedMembersSpec(r: Recipe, allMembers: seq<FamilyMember>)
    ensures forall m :: m in LikedMembers(r, allMembers) <==>
      m in allMembers && r.likedBy.Some? && m.id in r.likedBy.value
    ensures IsSubseq(LikedMembers(r, allMembers), allMembers)
    ensures r.likedBy.None? || r.likedBy == Some([]) ==> LikedMembers(r, allMembers) == []
  {
    if r.likedBy.Some? && |allMembers| > 0 {
      var p := LikedByHas(r.likedBy.value);
      forall m ensures m in LikedMembers(r, allMembers) <==> m in allMembers && m.id in r.likedBy.value {
        FilterMember(allMembers, p, m);
      }
      FilterIsSubseq(allMembers, p);
      if r.likedBy == Some([]) {
        FilterNone(allMembers, p);
      }
    } else {
      assert IsSubseq([], allMembers) by {
        FilterIsSubseq(allMembers, (m: FamilyMember) => false);
        FilterNone(allMembers, (m: FamilyMember) => false);
      }
    }
  }

  /** `likedMembers.slice(0, 3)`. */
  function Avatars(liked: seq<FamilyMember>): (r: seq<FamilyMember>)
    ensures |r| == Min(3, |liked|) && r == liked[..|r|]
  {
    if |liked| <= 3 then liked else liked[..3]
  }

  /** `recipe.isFavorite && likedMembers.length === 0`. */
  predicate ShowsHeart(r: Recipe, allMembers: seq<FamilyMember>)
  {
    IsFavorite(r) && |LikedMembers(r, allMembers)| == 0
  }

  /** The heart and the avatars never show together, and a favourite shows
      one of them. */
  lemma HeartOrAvatars(r: Recipe, allMembers: seq<FamilyMember>)
    ensures ShowsHeart(r, allMembers) ==> Avatars(LikedMembers(r, allMembers)) == []
    ensures IsFavorite(r) ==> ShowsHeart(r, allMembers) || |Avatars(LikedMembers(r, allMembers))| > 0
  {
  }

  /** `recipe.cost !== undefined && recipe.cost > 0`. */
  predicate ShowsCostTag(r: Recipe)
  {
    r.cost.Some? && r.cost.value > 0.0
  }

  /** The cost tag shows for a stored positive cost only: not for a recipe
      without a cost, not for a zero or negative cost, and it depends on the
      stored cost alone, not on the ingredients' prices. */
  lemma CostTagSpec(r: Recipe)
    ensures r.cost == None ==> !ShowsCostTag(r)
    ensures forall c: real :: r.cost == Some(c) ==> (ShowsCostTag(r) <==> c > 0.0)
    ensures forall ings :: ShowsCostTag(r.(ingredients := ings)) == ShowsCostTag(r)
  {
  }

  /** `[...recipe.ingredients].sort((a, b) => (b.cost || 0) - (a.cost || 0)).slice(0, 2)`:
      the stable order by cost, largest first, cut to two. */
  function TopIngredients(ings: seq<Ingredient>): seq<Ingredient>
  {
    SortDesc(ings, CostOf)[..Min(2, |ings|)]
  }

  /** At most two ingredients are shown, as many as there are up to two,
      taken from the recipe's own; none left out costs more than one shown,
      the shown ones are in order of cost, and among equal costs the ones
      shown are the earliest in the recipe (the sort is stable). */
  lemma TopIngredientsSpec(ings: seq<Ingredient>)
    ensures |TopIngredients(ings)| == Min(2, |ings|)
    ensures multiset(TopIngredients(ings)) <= multiset(ings)
    ensures forall i, x :: 0 <= i < |TopIngredients(ings)| && x in multiset(ings) - multiset(TopIngredients(ings)) ==>
      CostOf(x) <= CostOf(TopIngredients(ings)[i])
    ensures SortedDesc(TopIngredients(ings), CostOf)
    ensures forall c :: Filter(TopIngredients(ings), KeyIs(CostOf, c)) <= Filter(ings, KeyIs(CostOf, c))
  {
    var sorted := SortDesc(ings, CostOf);
    var k := Min(2, |ings|);
    PrefixMultiset(sorted, k);
    SortedDescPrefix(sorted, CostOf, k);
    forall i, x | 0 <= i < k && x in multiset(ings) - multiset(sorted[..k])
      ensures CostOf(x) <= CostOf(sorted[..k][i])
    {
      LeftOutCostsLess(sorted, k, i, x);
    }
    forall c ensures Filter(sorted[..k], KeyIs(CostOf, c)) <= Filter(ings, KeyIs(CostOf, c)) {
      TopIngredientsStable(ings, c);
    }
  }

  /** The shown ingredients of one cost are a prefix of the recipe's
      ingredients of that cost. */
  lemma TopIngredientsStable(ings: seq<Ingredient>, c: real)
    ensures Filter(TopIngredients(ings), KeyIs(CostOf, c)) <= Filter(ings, KeyIs(CostOf, c))
  {
    var sorted := SortDesc(ings, CostOf);
    var k := Min(2, |ings|);
    assert sorted == sorted[..k] + sorted[k..];
    FilterAppend(sorted[..k], sorted[k..], KeyIs(CostOf, c));
    SortDescStable(ings, CostOf, c);
  }

  lemma LeftOutCostsLess(sorted: seq<Ingredient>, k: nat, i: nat, x: Ingredient)
    requires SortedDesc(sorted, CostOf)
    requires i < k <= |sorted|
    requires x in multiset(sorted[k..])
    ensures CostOf(x) <= CostOf(sorted[i])
  {
    var rest := sorted[k..];
    assert x in rest;
    var j :| 0 <= j < |rest| && rest[j] == x;
    assert sorted[k + j] == x;
  }

  /** The "+N" badge: N is the number of ingredients beyond two. */
  function MoreBadge(ings: seq<Ingredient>): Option<int>
  {
    if |ings| > 2 then Some(|ings| - 2) else None
  }

  /** The shown ingredients and the "+N" badge account for every
      ingredient, and the badge appears only when some are not shown. */
  lemma ShownAndMore(ings: seq<Ingredient>)
    ensures MoreBadge(ings).Some? <==> |TopIngredients(ings)| < |ings|
    ensures |TopIngredients(ings)| + (if MoreBadge(ings).Some? then MoreBadge(ings).value else 0) == |ings|
  {
    TopIngredientsSpec(ings);
  }
}
