/** The `useRecipes` hook: the recipe list held as component state, the views
    derived from it (the ingredient catalogue, the filtered list and the
    favourites-then-by-day grouping) and the handlers that write through
    `RecipeStorage`. Case folding (`toLowerCase`) is the parameter `lower`;
    the local calendar is the parameter `civil` and the current time `now`. */
module UseRecipes {
  import opened RecipeTypes
  import opened Seqs
  import opened Text
  import opened Dates
  import opened Storage

  // ---------------------------------------------------------------------
  // The ingredient catalogue

  /** `recipes.flatMap(r => r.ingredients)`. */
  function Flatten(recipes: seq<Recipe>): seq<Ingredient>
  {
    if recipes == [] then [] else Flatten(recipes[..|recipes| - 1]) + recipes[|recipes| - 1].ingredients
  }

  /** Every ingredient of every recipe is in the flattened list. */
  lemma {:induction false} FlattenHas(recipes: seq<Recipe>, i: nat, j: nat)
    requires i < |recipes| && j < |recipes[i].ingredients|
    ensures recipes[i].ingredients[j] in Flatten(recipes)
  {
    var p := recipes[..|recipes| - 1];
    if i < |p| {
      assert recipes[i] == p[i];
      FlattenHas(p, i, j);
    } else {
      assert recipes[i].ingredients[j] in recipes[|recipes| - 1].ingredients;
    }
  }

  /** `allAvailableIngredients`: walks the flattened ingredients and keeps one
      whose name is not yet in the `seenNames` set, adding it to the set. */
  method AllAvailableIngredients(recipes: seq<Recipe>) returns (r: seq<Ingredient>)
    ensures r == DedupBy(Flatten(recipes), NameOf)
  {
    var all := Flatten(recipes);
    var seenNames: set<string> := {};
    r := [];
    var i := 0;
    while i < |all|
      invariant 0 <= i <= |all|
      invariant r == DedupBy(all[..i], NameOf)
      invariant forall n :: n in seenNames <==> n in Project(r, NameOf)
    {
      var ing := all[i];
      assert all[..i + 1][..i] == all[..i] && all[..i + 1][i] == ing;
      if ing.name !in seenNames {
        ProjectAppend(r, [ing], NameOf);
        seenNames := seenNames + {ing.name};
        r := r + [ing];
      }
      i := i + 1;
    }
    assert all[..i] == all;
  }

  /** The catalogue's names are pairwise distinct, and it is a subsequence
      of the flattened ingredients. */
  lemma CatalogueDistinct(recipes: seq<Recipe>)
    ensures DistinctKeys(DedupBy(Flatten(recipes), NameOf), NameOf)
    ensures IsSubseq(DedupBy(Flatten(recipes), NameOf), Flatten(recipes))
  {
    DedupByKeys(Flatten(recipes), NameOf);
    DedupByIsSubseq(Flatten(recipes), NameOf);
  }

  /** Every name used by any recipe is in the catalogue. */
  lemma CatalogueCovers(recipes: seq<Recipe>, i: nat, j: nat)
    requires i < |recipes| && j < |recipes[i].ingredients|
    ensures recipes[i].ingredients[j].name in Project(DedupBy(Flatten(recipes), NameOf), NameOf)
  {
    var all := Flatten(recipes);
    FlattenHas(recipes, i, j);
    DedupByKeys(all, NameOf);
    var k :| 0 <= k < |all| && all[k] == recipes[i].ingredients[j];
    assert NameOf(all[k]) in Project(DedupBy(all, NameOf), NameOf);
  }

  /** Each catalogue entry is the first ingredient with its name in
      recipe-then-ingredient order. */
  lemma CatalogueFirst(recipes: seq<Recipe>, k: nat)
    requires k < |DedupBy(Flatten(recipes), NameOf)|
    ensures var c := DedupBy(Flatten(recipes), NameOf)[k];
      FirstIndex(Flatten(recipes), NameOf, c.name) < |Flatten(recipes)| &&
      Flatten(recipes)[FirstIndex(Flatten(recipes), NameOf, c.name)] == c
  {
    DedupByFirst(Flatten(recipes), NameOf, k);
  }

  // ---------------------------------------------------------------------
  // The filter

  /** One recipe against the three conditions: the lowercased name contains
      the lowercased query; some ingredient is named exactly as the selected
      ingredient; `likedBy` is present and holds the selected member. A falsy
      query, ingredient or member switches its condition off. */
  predicate Matches(lower: string -> string, searchQuery: string, selectedIngredient: Option<string>,
                    selectedMemberId: Option<string>, r: Recipe)
  {
    var query := lower(searchQuery);
    && (query == "" || Contains(lower(r.name), query))
    && (!Truthy(selectedIngredient) || selectedIngredient.value in Project(r.ingredients, NameOf))
    && (!Truthy(selectedMemberId) || (r.likedBy.Some? && selectedMemberId.value in r.likedBy.value))
  }

  function MatchFn(lower: string -> string, searchQuery: string, selectedIngredient: Option<string>,
                   selectedMemberId: Option<string>): Recipe -> bool
  {
    r => Matches(lower, searchQuery, selectedIngredient, selectedMemberId, r)
  }

  /** `filteredRecipes`. */
  function FilteredRecipes(recipes: seq<Recipe>, lower: string -> string, searchQuery: string,
                           selectedIngredient: Option<string>, selectedMemberId: Option<string>): seq<Recipe>
  {
    Filter(recipes, MatchFn(lower, searchQuery, selectedIngredient, selectedMemberId))
  }

  /** A recipe is in the filtered list exactly when it is in the list and
      meets all three conditions; the filtered list keeps the list's order. */
  lemma FilteredSpec(recipes: seq<Recipe>, lower: string -> string, q: string,
                     si: Option<string>, sm: Option<string>, x: Recipe)
    ensures x in FilteredRecipes(recipes, lower, q, si, sm) <==> x in recipes && Matches(lower, q, si, sm, x)
    ensures IsSubseq(FilteredRecipes(recipes, lower, q, si, sm), recipes)
  {
    FilterMember(recipes, MatchFn(lower, q, si, sm), x);
    FilterIsSubseq(recipes, MatchFn(lower, q, si, sm));
  }

  /** With an empty query and no ingredient or member selected, the filter
      is the identity. */
  lemma FilteredIdentity(recipes: seq<Recipe>, lower: string -> string, q: string,
                         si: Option<string>, sm: Option<string>)
    requires lower(q) == "" && !Truthy(si) && !Truthy(sm)
    ensures FilteredRecipes(recipes, lower, q, si, sm) == recipes
  {
    FilterAll(recipes, MatchFn(lower, q, si, sm));
  }

  /** A member filter fails a recipe without `likedBy`, and the text search
      never looks at ingredient names. */
  lemma FilterFieldsUsed(lower: string -> string, q: string, si: Option<string>, sm: Option<string>,
                         r: Recipe, ings: seq<Ingredient>)
    ensures Truthy(sm) && r.likedBy == None ==> !Matches(lower, q, si, sm, r)
    ensures !Truthy(si) ==> Matches(lower, q, si, sm, r) == Matches(lower, q, si, sm, r.(ingredients := ings))
  {
  }

  // ---------------------------------------------------------------------
  // The day buckets

  const FavoritesTitle: string := "我的收藏"
  const TodayTitle: string := "今天"
  const YesterdayTitle: string := "昨天"

  /** `${month + 1}月${day}日`. */
  function MonthDayTitle(d: CivilDate): string
  {
    IntToString(d.month0 + 1) + "月" + IntToString(d.day) + "日"
  }

  /** The date a recipe is bucketed under: `createdAt`, or now when it is 0. */
  function BucketDate(civil: Calendar, now: int, r: Recipe): CivilDate
  {
    civil(if r.createdAt == 0 then now else r.createdAt)
  }

  /** The bucket title of a recipe: today, yesterday, or its month and day. */
  function DayKey(civil: Calendar, now: int, r: Recipe): string
  {
    var date := BucketDate(civil, now, r);
    var today := civil(now);
    if date == today then TodayTitle
    else if date == DayBefore(today) then YesterdayTitle
    else MonthDayTitle(date)
  }

  function DayKeyFn(civil: Calendar, now: int): Recipe -> string
  {
    r => DayKey(civil, now, r)
  }

  /** A month/day title starts with a digit, so it is none of the fixed
      titles. */
  lemma MonthDayTitleNotFixed(d: CivilDate)
    ensures MonthDayTitle(d) != TodayTitle && MonthDayTitle(d) != YesterdayTitle
    ensures MonthDayTitle(d) != FavoritesTitle
  {
    var t := MonthDayTitle(d);
    assert t[0] == IntToString(d.month0 + 1)[0];
  }

  /** A month/day title determines the month and the day but not the year. */
  lemma MonthDayTitleInjective(d: CivilDate, e: CivilDate)
    ensures MonthDayTitle(d) == MonthDayTitle(e) <==> d.month0 == e.month0 && d.day == e.day
  {
    if MonthDayTitle(d) == MonthDayTitle(e) {
      var a, b, c, f := IntToString(d.month0 + 1), IntToString(d.day), IntToString(e.month0 + 1), IntToString(e.day);
      var t := MonthDayTitle(d);
      assert t == (a + "月" + b) + "日" == (c + "月" + f) + "日";
      assert a + "月" + b == t[..|t| - 1] == c + "月" + f;
      IntToStringAvoids(d.month0 + 1, '月');
      IntToStringAvoids(e.month0 + 1, '月');
      SplitAtSeparator(a, b, c, f, '月');
      IntToStringInjective(d.month0 + 1, e.month0 + 1);
      IntToStringInjective(d.day, e.day);
    }
  }

  /** The bucket rules: "今天" exactly for the current day, "昨天" exactly for
      the day before it, otherwise a month/day title that ignores the year; a
      recipe with no `createdAt` is bucketed under today. */
  lemma DayKeySpec(civil: Calendar, now: int, r: Recipe, s: Recipe)
    ensures DayKey(civil, now, r) == TodayTitle <==> BucketDate(civil, now, r) == civil(now)
    ensures DayKey(civil, now, r) == YesterdayTitle <==>
      BucketDate(civil, now, r) != civil(now) && BucketDate(civil, now, r) == DayBefore(civil(now))
    ensures r.createdAt == 0 ==> DayKey(civil, now, r) == TodayTitle
    ensures DayKey(civil, now, r) != FavoritesTitle
    ensures var d, e := BucketDate(civil, now, r), BucketDate(civil, now, s);
      DayKey(civil, now, r) != TodayTitle && DayKey(civil, now, r) != YesterdayTitle &&
      DayKey(civil, now, s) != TodayTitle && DayKey(civil, now, s) != YesterdayTitle ==>
      (DayKey(civil, now, r) == DayKey(civil, now, s) <==> d.month0 == e.month0 && d.day == e.day)
  {
    var d, e := BucketDate(civil, now, r), BucketDate(civil, now, s);
    MonthDayTitleNotFixed(d);
    MonthDayTitleNotFixed(e);
    MonthDayTitleInjective(d, e);
  }

  // ---------------------------------------------------------------------
  // The grouping

  datatype Group = Group(title: string, data: seq<Recipe>, isSpecial: bool)

  /** The favourites, newest first; the sort is stable. */
  function Favorites(filtered: seq<Recipe>): seq<Recipe>
  {
    SortDesc(Filter(filtered, IsFavoriteFn()), CreatedKey)
  }

  function IsFavoriteFn(): Recipe -> bool
  {
    r => IsFavorite(r)
  }

  /** `[...filteredRecipes].sort(...)`: newest first, ties stable. */
  function ByDate(filtered: seq<Recipe>): seq<Recipe>
  {
    SortDesc(filtered, CreatedKey)
  }

  /** The bucket titles in the order in which they first occur. */
  function Titles(sorted: seq<Recipe>, key: Recipe -> string): seq<string>
  {
    Project(DedupBy(sorted, key), key)
  }

  /** One group per title, holding the recipes of that title in list order. */
  function DateGroups(titles: seq<string>, sorted: seq<Recipe>, key: Recipe -> string): (g: seq<Group>)
    ensures |g| == |titles|
    ensures forall i :: 0 <= i < |titles| ==> g[i] == Group(titles[i], Filter(sorted, KeyIs(key, titles[i])), false)
  {
    if titles == [] then []
    else [Group(titles[0], Filter(sorted, KeyIs(key, titles[0])), false)] + DateGroups(titles[1..], sorted, key)
  }

  /** The favourites group, when there are favourites, then the date groups. */
  function Assemble(fav: seq<Recipe>, dateGroups: seq<Group>): seq<Group>
  {
    (if |fav| > 0 then [Group(FavoritesTitle, fav, true)] else []) + dateGroups
  }

  /** `groupedRecipes`, as a value. */
  function Grouped(filtered: seq<Recipe>, civil: Calendar, now: int): seq<Group>
  {
    var sorted := ByDate(filtered);
    var key := DayKeyFn(civil, now);
    Assemble(Favorites(filtered), DateGroups(Titles(sorted, key), sorted, key))
  }

  /** The loop state of the bucketing walk over a prefix `s` of the sorted
      list: the Map's keys in insertion order are the titles of `s` in
      first-occurrence order, and each entry holds that title's recipes. */
  ghost predicate Bucketed(s: seq<Recipe>, key: Recipe -> string, titles: seq<string>, m: map<string, seq<Recipe>>)
  {
    && titles == Titles(s, key)
    && (forall t :: t in m <==> t in titles)
    && (forall t :: t in m ==> m[t] == Filter(s, KeyIs(key, t)))
  }

  /** `groupedRecipes`: the favourites group, then the date groups of the
      recipes sorted newest first. */
  method GroupRecipes(filtered: seq<Recipe>, civil: Calendar, now: int) returns (groups: seq<Group>)
    ensures groups == Grouped(filtered, civil, now)
  {
    groups := [];
    var favorites := Favorites(filtered);
    if |favorites| > 0 {
      groups := groups + [Group(FavoritesTitle, favorites, true)];
    }
    var sorted := ByDate(filtered);
    var key := DayKeyFn(civil, now);
    var titles, dateMap := BucketBy(sorted, key);
    var dateGroups := EmitDateGroups(sorted, key, titles, dateMap);
    GroupedFrom(filtered, civil, now, groups, dateGroups);
    groups := groups + dateGroups;
  }

  /** The two halves the walk builds make up the grouping. */
  lemma GroupedFrom(filtered: seq<Recipe>, civil: Calendar, now: int, favGroups: seq<Group>, dateGroups: seq<Group>)
    requires favGroups == if |Favorites(filtered)| > 0 then [Group(FavoritesTitle, Favorites(filtered), true)] else []
    requires dateGroups == DateGroups(Titles(ByDate(filtered), DayKeyFn(civil, now)), ByDate(filtered), DayKeyFn(civil, now))
    ensures favGroups + dateGroups == Grouped(filtered, civil, now)
  {
  }

  /** The `sorted.forEach` walk: pushes each recipe into the Map entry of its
      title, creating the entry first when the title is new. The Map is its
      keys in insertion order and its entries. */
  method BucketBy(sorted: seq<Recipe>, key: Recipe -> string) returns (titles: seq<string>, dateMap: map<string, seq<Recipe>>)
    ensures titles == Titles(sorted, key)
    ensures forall k :: 0 <= k < |titles| ==> titles[k] in dateMap
    ensures forall k :: 0 <= k < |titles| ==> dateMap[titles[k]] == Filter(sorted, KeyIs(key, titles[k]))
  {
    titles, dateMap := [], map[];
    var i := 0;
    while i < |sorted|
      invariant 0 <= i <= |sorted|
      invariant Bucketed(sorted[..i], key, titles, dateMap)
    {
      var recipe := sorted[i];
      var dateKey := key(recipe);
      ghost var titles0, map0 := titles, dateMap;
      if dateKey !in dateMap {
        titles := titles + [dateKey];
        dateMap := dateMap[dateKey := []];
      }
      dateMap := dateMap[dateKey := dateMap[dateKey] + [recipe]];
      BucketStep(sorted, i, key, titles0, map0, titles, dateMap);
      i := i + 1;
    }
    assert sorted[..i] == sorted;
    BucketedEntries(sorted, key, titles, dateMap);
  }

  /** Each title of the walk has its Map entry, holding that title's recipes. */
  lemma BucketedEntries(sorted: seq<Recipe>, key: Recipe -> string, titles: seq<string>, dateMap: map<string, seq<Recipe>>)
    requires Bucketed(sorted, key, titles, dateMap)
    ensures forall k :: 0 <= k < |titles| ==> titles[k] in dateMap
    ensures forall k :: 0 <= k < |titles| ==> dateMap[titles[k]] == Filter(sorted, KeyIs(key, titles[k]))
  {
  }

  /** The `dateMap.forEach` walk: one group per entry, in insertion order. */
  method EmitDateGroups(sorted: seq<Recipe>, key: Recipe -> string, titles: seq<string>,
                        dateMap: map<string, seq<Recipe>>) returns (groups: seq<Group>)
    requires forall k :: 0 <= k < |titles| ==> titles[k] in dateMap
    requires forall k :: 0 <= k < |titles| ==> dateMap[titles[k]] == Filter(sorted, KeyIs(key, titles[k]))
    ensures groups == DateGroups(titles, sorted, key)
  {
    groups := [];
    var j := 0;
    while j < |titles|
      invariant 0 <= j <= |titles|
      invariant |groups| == j
      invariant forall k :: 0 <= k < j ==> groups[k] == Group(titles[k], Filter(sorted, KeyIs(key, titles[k])), false)
    {
      groups := groups + [Group(titles[j], dateMap[titles[j]], false)];
      j := j + 1;
    }
  }

  /** One step of the bucketing walk: pushing the next recipe into the entry
      of its title, created empty when the title is new, keeps the loop
      state. */
  lemma BucketStep(sorted: seq<Recipe>, i: nat, key: Recipe -> string, titles: seq<string>,
                   m: map<string, seq<Recipe>>, titles': seq<string>, m': map<string, seq<Recipe>>)
    requires i < |sorted|
    requires Bucketed(sorted[..i], key, titles, m)
    requires titles' == if key(sorted[i]) in m then titles else titles + [key(sorted[i])]
    requires m' == m[key(sorted[i]) := (if key(sorted[i]) in m then m[key(sorted[i])] else []) + [sorted[i]]]
    ensures Bucketed(sorted[..i + 1], key, titles', m')
  {
    var x := sorted[i];
    var s := sorted[..i];
    assert sorted[..i + 1] == s + [x];
    TitlesSnoc(s, x, key, titles, m, titles');
    forall t | t in m' ensures m'[t] == Filter(s + [x], KeyIs(key, t)) {
      EntrySnoc(s, x, key, m, m', t);
    }
  }

  /** The titles after one more recipe: its title is appended when new. */
  lemma TitlesSnoc(s: seq<Recipe>, x: Recipe, key: Recipe -> string, titles: seq<string>,
                   m: map<string, seq<Recipe>>, titles': seq<string>)
    requires Bucketed(s, key, titles, m)
    requires titles' == if key(x) in m then titles else titles + [key(x)]
    ensures titles' == Titles(s + [x], key)
  {
    assert (s + [x])[..|s + [x]| - 1] == s && (s + [x])[|s + [x]| - 1] == x;
    ProjectAppend(DedupBy(s, key), [x], key);
  }

  /** One Map entry after pushing one more recipe into the entry of its
      title. */
  lemma EntrySnoc(s: seq<Recipe>, x: Recipe, key: Recipe -> string, m: map<string, seq<Recipe>>,
                  m': map<string, seq<Recipe>>, t: string)
    requires forall u :: u in m ==> m[u] == Filter(s, KeyIs(key, u))
    requires forall u :: u in m <==> u in Titles(s, key)
    requires m' == m[key(x) := (if key(x) in m then m[key(x)] else []) + [x]]
    requires t in m'
    ensures m'[t] == Filter(s + [x], KeyIs(key, t))
  {
    FilterAppend(s, [x], KeyIs(key, t));
    FilterSingleton(x, KeyIs(key, t));
    if t == key(x) && key(x) !in m {
      DedupByKeys(s, key);
      FilterNone(s, KeyIs(key, key(x)));
    }
  }

  /** Sum of the group sizes. */
  function TotalItems(groups: seq<Group>): nat
  {
    if groups == [] then 0 else |groups[0].data| + TotalItems(groups[1..])
  }

  lemma {:induction false} TotalItemsAppend(a: seq<Group>, b: seq<Group>)
    ensures TotalItems(a + b) == TotalItems(a) + TotalItems(b)
  {
    if a != [] {
      assert (a + b)[1..] == a[1..] + b;
      TotalItemsAppend(a[1..], b);
    } else {
      assert a + b == b;
    }
  }

  lemma {:induction false} DateGroupsTotal(titles: seq<string>, sorted: seq<Recipe>, key: Recipe -> string)
    ensures TotalItems(DateGroups(titles, sorted, key)) == CountByKeys(sorted, key, titles)
  {
    if titles != [] {
      DateGroupsTotal(titles[1..], sorted, key);
    }
  }

  /** The titles are pairwise distinct and cover every recipe's title. */
  lemma TitlesSpec(sorted: seq<Recipe>, key: Recipe -> string)
    ensures Distinct(Titles(sorted, key))
    ensures forall i :: 0 <= i < |sorted| ==> key(sorted[i]) in Titles(sorted, key)
  {
    DedupByKeys(sorted, key);
  }

  /** The favourites are exactly the favourite recipes of the list, newest
      first, equal timestamps in list order; there are some exactly when
      some recipe is a favourite. */
  lemma FavoritesSpec(filtered: seq<Recipe>, k: real)
    ensures multiset(Favorites(filtered)) == multiset(Filter(filtered, IsFavoriteFn()))
    ensures SortedDesc(Favorites(filtered), CreatedKey)
    ensures Filter(Favorites(filtered), KeyIs(CreatedKey, k)) == Filter(Filter(filtered, IsFavoriteFn()), KeyIs(CreatedKey, k))
    ensures |Favorites(filtered)| > 0 <==> exists i :: 0 <= i < |filtered| && IsFavorite(filtered[i])
  {
    var favs := Filter(filtered, IsFavoriteFn());
    SortDescStable(favs, CreatedKey, k);
    if exists i :: 0 <= i < |filtered| && IsFavorite(filtered[i]) {
      var i :| 0 <= i < |filtered| && IsFavorite(filtered[i]);
      FilterMember(filtered, IsFavoriteFn(), filtered[i]);
      assert filtered[i] in multiset(Favorites(filtered));
    }
    if |Favorites(filtered)| > 0 {
      var x := Favorites(filtered)[0];
      assert x in multiset(favs);
      FilterMember(filtered, IsFavoriteFn(), x);
    }
  }

  /** The grouping opens with the favourites group exactly when there are
      favourites; every other group is a date group, and the date groups
      follow in title order. */
  lemma GroupedShape(filtered: seq<Recipe>, civil: Calendar, now: int)
    ensures var g := Grouped(filtered, civil, now);
      (|g| > 0 && g[0].isSpecial) <==> |Favorites(filtered)| > 0
    ensures var g := Grouped(filtered, civil, now);
      |Favorites(filtered)| > 0 ==> g[0] == Group(FavoritesTitle, Favorites(filtered), true)
    ensures var g := Grouped(filtered, civil, now);
      var dg := DateGroups(Titles(ByDate(filtered), DayKeyFn(civil, now)), ByDate(filtered), DayKeyFn(civil, now));
      g[(if |Favorites(filtered)| > 0 then 1 else 0)..] == dg
    ensures var g := Grouped(filtered, civil, now);
      forall i :: 0 < i < |g| ==> !g[i].isSpecial
  {
    var g := Grouped(filtered, civil, now);
    var dg := DateGroups(Titles(ByDate(filtered), DayKeyFn(civil, now)), ByDate(filtered), DayKeyFn(civil, now));
    if |Favorites(filtered)| > 0 {
      assert g == [Group(FavoritesTitle, Favorites(filtered), true)] + dg;
      assert g[1..] == dg;
    } else {
      assert g == dg;
    }
  }

  /** Every recipe of the list lands in some date group: the one of its own
      title. */
  lemma DateGroupsCover(sorted: seq<Recipe>, key: Recipe -> string, x: Recipe) returns (j: nat)
    requires x in sorted
    ensures j < |Titles(sorted, key)|
    ensures DateGroups(Titles(sorted, key), sorted, key)[j].title == key(x)
    ensures x in DateGroups(Titles(sorted, key), sorted, key)[j].data
  {
    var titles := Titles(sorted, key);
    TitlesSpec(sorted, key);
    var i :| 0 <= i < |sorted| && sorted[i] == x;
    j :| 0 <= j < |titles| && titles[j] == key(x);
    FilterMember(sorted, KeyIs(key, titles[j]), x);
  }

  /** No recipe lands in two date groups. */
  lemma DateGroupsUnique(sorted: seq<Recipe>, key: Recipe -> string, x: Recipe, j1: nat, j2: nat)
    requires var dg := DateGroups(Titles(sorted, key), sorted, key);
      j1 < |dg| && j2 < |dg| && x in dg[j1].data && x in dg[j2].data
    ensures j1 == j2
  {
    var titles := Titles(sorted, key);
    TitlesSpec(sorted, key);
    FilterMember(sorted, KeyIs(key, titles[j1]), x);
    FilterMember(sorted, KeyIs(key, titles[j2]), x);
  }

  /** Each date group is non-empty, holds only recipes of its title, and keeps
      the sorted order. */
  lemma DateGroupsContent(sorted: seq<Recipe>, key: Recipe -> string, j: nat)
    requires j < |Titles(sorted, key)|
    ensures var g := DateGroups(Titles(sorted, key), sorted, key)[j];
      && g.data != [] && IsSubseq(g.data, sorted)
      && (forall x :: x in g.data <==> x in sorted && key(x) == g.title)
  {
    var titles := Titles(sorted, key);
    FilterIsSubseq(sorted, KeyIs(key, titles[j]));
    var c := DedupBy(sorted, key);
    DedupByFirst(sorted, key, j);
    FilterMember(sorted, KeyIs(key, titles[j]), sorted[FirstIndex(sorted, key, key(c[j]))]);
    forall x ensures x in Filter(sorted, KeyIs(key, titles[j])) <==> x in sorted && key(x) == titles[j] {
      FilterMember(sorted, KeyIs(key, titles[j]), x);
    }
  }

  /** Date groups have distinct titles and come in the order in which their
      titles first occur in the sorted list. */
  lemma DateGroupsOrder(sorted: seq<Recipe>, key: Recipe -> string, j1: nat, j2: nat)
    requires j1 < j2 < |Titles(sorted, key)|
    ensures var dg := DateGroups(Titles(sorted, key), sorted, key);
      dg[j1].title != dg[j2].title &&
      FirstIndex(sorted, key, dg[j1].title) < FirstIndex(sorted, key, dg[j2].title)
  {
    TitlesSpec(sorted, key);
    DedupByOrder(sorted, key, j1, j2);
  }

  /** Titles stay distinct when the favourites group goes in front of date
      groups whose titles are distinct and differ from the favourites title. */
  lemma AssembleTitlesDistinct(fav: seq<Recipe>, dg: seq<Group>, i: nat, j: nat)
    requires forall k :: 0 <= k < |dg| ==> dg[k].title != FavoritesTitle
    requires forall a, b :: 0 <= a < b < |dg| ==> dg[a].title != dg[b].title
    requires i < j < |Assemble(fav, dg)|
    ensures Assemble(fav, dg)[i].title != Assemble(fav, dg)[j].title
  {
    var off := if |fav| > 0 then 1 else 0;
    var g := Assemble(fav, dg);
    assert g[j] == dg[j - off];
    if i >= off {
      assert g[i] == dg[i - off];
    }
  }

  /** All group titles are pairwise distinct: date titles among themselves,
      and each differs from the favourites title. */
  lemma GroupTitlesDistinct(filtered: seq<Recipe>, civil: Calendar, now: int, i: nat, j: nat)
    requires i < j < |Grouped(filtered, civil, now)|
    ensures Grouped(filtered, civil, now)[i].title != Grouped(filtered, civil, now)[j].title
  {
    var sorted, key := ByDate(filtered), DayKeyFn(civil, now);
    var dg := DateGroups(Titles(sorted, key), sorted, key);
    assert forall k :: 0 <= k < |dg| ==> dg[k].title != FavoritesTitle by {
      forall k | 0 <= k < |dg| ensures dg[k].title != FavoritesTitle {
        var c := DedupBy(sorted, key);
        DayKeySpec(civil, now, c[k], c[k]);
      }
    }
    assert forall a, b :: 0 <= a < b < |dg| ==> dg[a].title != dg[b].title by {
      forall a, b | 0 <= a < b < |dg| ensures dg[a].title != dg[b].title {
        DateGroupsOrder(sorted, key, a, b);
      }
    }
    AssembleTitlesDistinct(Favorites(filtered), dg, i, j);
  }

  /** The sizes of all groups add up to the favourites plus the recipes. */
  lemma GroupedTotal(filtered: seq<Recipe>, civil: Calendar, now: int)
    ensures TotalItems(Grouped(filtered, civil, now)) == |Favorites(filtered)| + |filtered|
  {
    var sorted, key := ByDate(filtered), DayKeyFn(civil, now);
    var titles := Titles(sorted, key);
    var fav := Favorites(filtered);
    var head := if |fav| > 0 then [Group(FavoritesTitle, fav, true)] else [];
    TotalItemsAppend(head, DateGroups(titles, sorted, key));
    DateGroupsTotal(titles, sorted, key);
    TitlesSpec(sorted, key);
    CountByKeysAll(sorted, key, titles);
    if |fav| > 0 {
      assert TotalItems(head) == |fav| + TotalItems(head[1..]);
    }
  }

  // ---------------------------------------------------------------------
  // The hook's state and handlers

  class RecipesHook {
    var recipes: seq<Recipe>
    var isLoading: bool
    var searchQuery: string
    var selectedIngredient: Option<string>
    var selectedMemberId: Option<string>
    const store: RecipeStorage

    constructor (store: RecipeStorage)
      ensures this.store == store && recipes == [] && isLoading
      ensures searchQuery == "" && selectedIngredient == None && selectedMemberId == None
    {
      this.store := store;
      recipes := [];
      isLoading := true;
      searchQuery := "";
      selectedIngredient := None;
      selectedMemberId := None;
    }

    /** `loadRecipes` (also `refresh`): the stored list becomes the state and
        loading ends. */
    method LoadRecipes(f: Faults)
      modifies this, store
      ensures recipes == Loaded(old(store.slot), store.seed, f)
      ensures store.slot == SlotAfterLoad(old(store.slot), store.seed, f)
      ensures !isLoading
      ensures searchQuery == old(searchQuery) && selectedIngredient == old(selectedIngredient)
      ensures selectedMemberId == old(selectedMemberId)
    {
      var data := store.GetRecipes(f);
      recipes := data;
      isLoading := false;
    }

    /** `saveRecipe`: an update when the current list already holds the id,
        an add otherwise; the returned list becomes the state. */
    method SaveRecipe(recipe: Recipe, f: Faults)
      modifies this, store
      ensures var loaded := Loaded(old(store.slot), store.seed, f);
        recipes == if recipe.id in Project(old(recipes), IdOf) then Replaced(loaded, recipe) else [recipe] + loaded
      ensures store.slot == SlotAfterSave(SlotAfterLoad(old(store.slot), store.seed, f), recipes, f.writeFails)
      ensures isLoading == old(isLoading) && searchQuery == old(searchQuery)
      ensures selectedIngredient == old(selectedIngredient) && selectedMemberId == old(selectedMemberId)
    {
      var updated;
      if recipe.id in Project(recipes, IdOf) {
        updated := store.UpdateRecipe(recipe, f);
      } else {
        updated := store.AddRecipe(recipe, f);
      }
      recipes := updated;
    }

    /** `deleteRecipe`. */
    method DeleteRecipe(id: string, f: Faults)
      modifies this, store
      ensures recipes == Removed(Loaded(old(store.slot), store.seed, f), id)
      ensures store.slot == SlotAfterSave(SlotAfterLoad(old(store.slot), store.seed, f), recipes, f.writeFails)
      ensures isLoading == old(isLoading) && searchQuery == old(searchQuery)
      ensures selectedIngredient == old(selectedIngredient) && selectedMemberId == old(selectedMemberId)
    {
      var updated := store.DeleteRecipe(id, f);
      recipes := updated;
    }

    /** `resetData(mockData)`: writes the given list and shows it, even when
        the write fails. */
    method ResetData(mockData: seq<Recipe>, writeFails: bool)
      modifies this, store
      ensures recipes == mockData
      ensures store.slot == SlotAfterSave(old(store.slot), mockData, writeFails)
      ensures isLoading == old(isLoading) && searchQuery == old(searchQuery)
      ensures selectedIngredient == old(selectedIngredient) && selectedMemberId == old(selectedMemberId)
    {
      store.SaveRecipes(mockData, writeFails);
      recipes := mockData;
    }

    /** `toggleFavorite(recipe)`: persists a copy whose only change is the
        negated favourite flag (absent becomes true) and returns that copy. */
    method ToggleFavorite(recipe: Recipe, f: Faults) returns (updatedRecipe: Recipe)
      modifies this, store
      ensures updatedRecipe == recipe.(isFavorite := Some(!IsFavorite(recipe)))
      ensures IsFavorite(updatedRecipe) != IsFavorite(recipe)
      ensures recipes == Replaced(Loaded(old(store.slot), store.seed, f), updatedRecipe)
      ensures store.slot == SlotAfterSave(SlotAfterLoad(old(store.slot), store.seed, f), recipes, f.writeFails)
      ensures isLoading == old(isLoading) && searchQuery == old(searchQuery)
      ensures selectedIngredient == old(selectedIngredient) && selectedMemberId == old(selectedMemberId)
    {
      updatedRecipe := recipe.(isFavorite := Some(!IsFavorite(recipe)));
      var updated := store.UpdateRecipe(updatedRecipe, f);
      recipes := updated;
    }

    /** The `recipes` the hook returns: the filtered list. */
    function Visible(lower: string -> string): seq<Recipe>
      reads this
    {
      FilteredRecipes(recipes, lower, searchQuery, selectedIngredient, selectedMemberId)
    }

    /** The grouping of the visible recipes. */
    method GroupedRecipes(lower: string -> string, civil: Calendar, now: int) returns (groups: seq<Group>)
      ensures groups == Grouped(Visible(lower), civil, now)
    {
      groups := GroupRecipes(Visible(lower), civil, now);
    }
  }
}
