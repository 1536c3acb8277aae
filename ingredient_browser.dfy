/** The ingredient browser: substring search over the ingredient names with
    prefix matches first, and the matches grouped into sections that follow
    the fixed category order. */
module IngredientBrowser {
  import opened RecipeTypes
  import opened Seqs
  import opened Text

  // ---------------------------------------------------------------------
  // Search

  /** The query: the search text trimmed, then lower-cased by `lower`. */
  function Query(search: string, lower: string -> string): string
  {
    lower(Trim(search))
  }

  /** `ing.name.toLowerCase().includes(query)`. */
  function NameMatches(lower: string -> string, q: string): Ingredient -> bool
  {
    (ing: Ingredient) => Contains(lower(ing.name), q)
  }

  /** 1 for a name that starts with the query, 0 otherwise. The comparator
      answers -1 or 1 only when exactly one side starts with the query and 0
      otherwise, so the stable sort by it is the stable sort by this rank,
      larger first. */
  function PrefixRank(lower: string -> string, q: string): Ingredient -> real
  {
    (ing: Ingredient) => if StartsWith(lower(ing.name), q) then 1.0 else 0.0
  }

  /** `filtered`: every ingredient for a blank search, otherwise the matching
      ones stably sorted with prefix matches first. */
  function Filtered(all: seq<Ingredient>, search: string, lower: string -> string): seq<Ingredient>
  {
    if IsBlank(search) then all
    else
      var q := Query(search, lower);
      SortDesc(Filter(all, NameMatches(lower, q)), PrefixRank(lower, q))
  }

  /** A blank search shows every ingredient in its own order; otherwise
      exactly the ingredients whose lower-cased name contains the query are
      shown, each as often as it occurs. */
  lemma FilteredMembers(all: seq<Ingredient>, search: string, lower: string -> string)
    ensures IsBlank(search) ==> Filtered(all, search, lower) == all
    ensures !IsBlank(search) ==> forall x :: x in Filtered(all, search, lower) <==>
      x in all && Contains(lower(x.name), Query(search, lower))
    ensures !IsBlank(search) ==>
      multiset(Filtered(all, search, lower)) == multiset(Filter(all, NameMatches(lower, Query(search, lower))))
  {
    if !IsBlank(search) {
      var q := Query(search, lower);
      var m := Filter(all, NameMatches(lower, q));
      forall x ensures x in Filtered(all, search, lower) <==> x in all && Contains(lower(x.name), q) {
        assert x in Filtered(all, search, lower) <==> x in multiset(m);
        FilterMember(all, NameMatches(lower, q), x);
      }
    }
  }

  /** Prefix matches come first: after a name that does not start with the
      query, no name does. */
  lemma FilteredPrefixFirst(all: seq<Ingredient>, search: string, lower: string -> string, i: int, j: int)
    requires !IsBlank(search)
    requires 0 <= i < j < |Filtered(all, search, lower)|
    requires StartsWith(lower(Filtered(all, search, lower)[j].name), Query(search, lower))
    ensures StartsWith(lower(Filtered(all, search, lower)[i].name), Query(search, lower))
  {
    var q := Query(search, lower);
    var r := Filtered(all, search, lower);
    assert PrefixRank(lower, q)(r[i]) >= PrefixRank(lower, q)(r[j]);
  }

  /** The sort is stable: the prefix matches, and likewise the other matches,
      appear in the order they have in the ingredient list. */
  lemma FilteredStable(all: seq<Ingredient>, search: string, lower: string -> string, k: real)
    requires !IsBlank(search)
    ensures Filter(Filtered(all, search, lower), KeyIs(PrefixRank(lower, Query(search, lower)), k)) ==
      Filter(Filter(all, NameMatches(lower, Query(search, lower))), KeyIs(PrefixRank(lower, Query(search, lower)), k))
  {
    var q := Query(search, lower);
    SortDescStable(Filter(all, NameMatches(lower, q)), PrefixRank(lower, q), k);
  }

  // ---------------------------------------------------------------------
  // Sections

  datatype Section = Section(name: Category, items: seq<Ingredient>)

  function SectionName(s: Section): Category
  {
    s.name
  }

  /** One section per category of `cats` that some ingredient of `s` falls
      in, holding those ingredients in their order in `s`. */
  function SectionsOver(cats: seq<Category>, s: seq<Ingredient>): seq<Section>
  {
    if cats == [] then []
    else
      var here := Filter(s, KeyIs(CategoryOf, cats[0]));
      (if here == [] then [] else [Section(cats[0], here)]) + SectionsOver(cats[1..], s)
  }

  /** The sections of the browser, in the fixed category order. */
  function Sections(s: seq<Ingredient>): seq<Section>
  {
    SectionsOver(Categories, s)
  }

  /** `CATEGORIES.filter(cat => map[cat]).map(cat => ({ name: cat, items: map[cat] }))`. */
  function SectionsFrom(cats: seq<Category>, m: map<Category, seq<Ingredient>>): seq<Section>
  {
    if cats == [] then []
    else (if cats[0] in m then [Section(cats[0], m[cats[0]])] else []) + SectionsFrom(cats[1..], m)
  }

  /** The record `map` built from `s`: a key for each category that occurs,
      holding that category's ingredients in order. */
  ghost predicate Collected(m: map<Category, seq<Ingredient>>, s: seq<Ingredient>)
  {
    forall c: Category :: (c in m <==> Filter(s, KeyIs(CategoryOf, c)) != []) &&
      (c in m ==> m[c] == Filter(s, KeyIs(CategoryOf, c)))
  }

  lemma CollectStep(m0: map<Category, seq<Ingredient>>, s: seq<Ingredient>, x: Ingredient, m1: map<Category, seq<Ingredient>>)
    requires Collected(m0, s)
    requires m1 == m0[CategoryOf(x) := (if CategoryOf(x) in m0 then m0[CategoryOf(x)] else []) + [x]]
    ensures Collected(m1, s + [x])
  {
    forall c: Category ensures (c in m1 <==> Filter(s + [x], KeyIs(CategoryOf, c)) != []) &&
      (c in m1 ==> m1[c] == Filter(s + [x], KeyIs(CategoryOf, c)))
    {
      FilterAppend(s, [x], KeyIs(CategoryOf, c));
      FilterSingleton(x, KeyIs(CategoryOf, c));
    }
  }

  lemma {:induction false} SectionsFromCollected(cats: seq<Category>, m: map<Category, seq<Ingredient>>, s: seq<Ingredient>)
    requires Collected(m, s)
    ensures SectionsFrom(cats, m) == SectionsOver(cats, s)
  {
    if cats != [] {
      SectionsFromCollected(cats[1..], m, s);
    }
  }

  /** `categorized`: one pass over the filtered list fills a record keyed by
      category (a missing category counts as "其他"), which is then read in
      the fixed category order. */
  method Categorized(filtered: seq<Ingredient>) returns (sections: seq<Section>)
    ensures sections == Sections(filtered)
  {
    var m: map<Category, seq<Ingredient>> := map[];
    var i := 0;
    while i < |filtered|
      invariant 0 <= i <= |filtered|
      invariant Collected(m, filtered[..i])
    {
      var ing := filtered[i];
      var cat := CategoryOf(ing);
      ghost var m0 := m;
      if cat !in m {
        m := m[cat := []];
      }
      m := m[cat := m[cat] + [ing]];
      assert filtered[..i + 1] == filtered[..i] + [ing];
      CollectStep(m0, filtered[..i], ing, m);
      i := i + 1;
    }
    assert filtered[..i] == filtered;
    SectionsFromCollected(Categories, m, filtered);
    sections := SectionsFrom(Categories, m);
  }

  // ---------------------------------------------------------------------
  // Properties of the sections

  /** Every section is one of `cats`, is not empty, and holds exactly the
      ingredients of its category in their order in `s`. */
  lemma {:induction false} SectionsOverContent(cats: seq<Category>, s: seq<Ingredient>, k: nat)
    requires k < |SectionsOver(cats, s)|
    ensures SectionsOver(cats, s)[k].name in cats
    ensures SectionsOver(cats, s)[k].items != []
    ensures SectionsOver(cats, s)[k].items == Filter(s, KeyIs(CategoryOf, SectionsOver(cats, s)[k].name))
  {
    var here := Filter(s, KeyIs(CategoryOf, cats[0]));
    var rest := SectionsOver(cats[1..], s);
    if here == [] {
      SectionsOverContent(cats[1..], s, k);
    } else if k > 0 {
      assert SectionsOver(cats, s)[k] == rest[k - 1];
      SectionsOverContent(cats[1..], s, k - 1);
    }
  }

  /** The section names are the categories of `cats` kept in their order. */
  lemma {:induction false} SectionsOverNames(cats: seq<Category>, s: seq<Ingredient>)
    ensures IsSubseq(Project(SectionsOver(cats, s), SectionName), cats)
  {
    if cats != [] {
      SectionsOverNames(cats[1..], s);
      var here := Filter(s, KeyIs(CategoryOf, cats[0]));
      var rest := SectionsOver(cats[1..], s);
      if here != [] {
        var names := Project(SectionsOver(cats, s), SectionName);
        assert names[0] == cats[0];
        assert names[1..] == Project(rest, SectionName);
      } else {
        assert SectionsOver(cats, s) == rest;
      }
    }
  }

  /** With distinct categories, no two sections share a name. */
  lemma {:induction false} SectionsOverDistinct(cats: seq<Category>, s: seq<Ingredient>)
    requires Distinct(cats)
    ensures DistinctKeys(SectionsOver(cats, s), SectionName)
  {
    if cats != [] {
      var rest := SectionsOver(cats[1..], s);
      assert Distinct(cats[1..]) by {
        forall i, j | 0 <= i < j < |cats[1..]| ensures cats[1..][i] != cats[1..][j] {
          assert cats[1..][i] == cats[i + 1] && cats[1..][j] == cats[j + 1];
        }
      }
      SectionsOverDistinct(cats[1..], s);
      var here := Filter(s, KeyIs(CategoryOf, cats[0]));
      if here != [] {
        var all := SectionsOver(cats, s);
        forall k | 0 < k < |all| ensures all[k].name != cats[0] {
          assert all[k] == rest[k - 1];
          SectionsOverContent(cats[1..], s, k - 1);
          assert forall i :: 0 <= i < |cats[1..]| ==> cats[1..][i] != cats[0];
        }
      }
    }
  }

  /** An ingredient of `s` whose category is in `cats` has a section. */
  lemma {:induction false} SectionsOverCover(cats: seq<Category>, s: seq<Ingredient>, x: Ingredient) returns (k: nat)
    requires x in s && CategoryOf(x) in cats
    ensures k < |SectionsOver(cats, s)| && SectionsOver(cats, s)[k].name == CategoryOf(x)
  {
    assert cats == [cats[0]] + cats[1..];
    var here := Filter(s, KeyIs(CategoryOf, cats[0]));
    var rest := SectionsOver(cats[1..], s);
    if CategoryOf(x) == cats[0] {
      FilterMember(s, KeyIs(CategoryOf, cats[0]), x);
      k := 0;
    } else {
      assert CategoryOf(x) in cats[1..];
      var j := SectionsOverCover(cats[1..], s, x);
      if here == [] {
        assert SectionsOver(cats, s) == rest;
        k := j;
      } else {
        assert SectionsOver(cats, s) == [Section(cats[0], here)] + rest;
        k := j + 1;
      }
    }
  }

  /** Sizes of the sections, summed. */
  function SectionsSize(secs: seq<Section>): nat
  {
    if secs == [] then 0 else |secs[0].items| + SectionsSize(secs[1..])
  }

  lemma {:induction false} SectionsOverSize(cats: seq<Category>, s: seq<Ingredient>)
    ensures SectionsSize(SectionsOver(cats, s)) == CountByKeys(s, CategoryOf, cats)
  {
    if cats != [] {
      SectionsOverSize(cats[1..], s);
      var here := Filter(s, KeyIs(CategoryOf, cats[0]));
      var rest := SectionsOver(cats[1..], s);
      if here != [] {
        assert SectionsOver(cats, s) == [Section(cats[0], here)] + rest;
        assert SectionsOver(cats, s)[1..] == rest;
      } else {
        assert SectionsOver(cats, s) == rest;
      }
    }
  }

  /** The browser's sections: each is non-empty and holds exactly its
      category's ingredients in the filtered order; the names are distinct and
      follow the fixed category order. */
  lemma SectionsContent(s: seq<Ingredient>, k: nat)
    requires k < |Sections(s)|
    ensures Sections(s)[k].items != []
    ensures Sections(s)[k].items == Filter(s, KeyIs(CategoryOf, Sections(s)[k].name))
    ensures IsSubseq(Sections(s)[k].items, s)
    ensures IsSubseq(Project(Sections(s), SectionName), Categories)
    ensures DistinctKeys(Sections(s), SectionName)
  {
    SectionsOverContent(Categories, s, k);
    FilterIsSubseq(s, KeyIs(CategoryOf, Sections(s)[k].name));
    SectionsOverNames(Categories, s);
    CategoriesExact(Meat);
    SectionsOverDistinct(Categories, s);
  }

  /** Every filtered ingredient lies in exactly one section: the one named
      after its category, which exists. */
  lemma SectionsPlace(s: seq<Ingredient>, x: Ingredient) returns (k: nat)
    requires x in s
    ensures k < |Sections(s)| && Sections(s)[k].name == CategoryOf(x)
    ensures x in Sections(s)[k].items
    ensures forall j :: 0 <= j < |Sections(s)| ==> (x in Sections(s)[j].items <==> j == k)
  {
    CategoriesExact(CategoryOf(x));
    k := SectionsOverCover(Categories, s, x);
    SectionsOverDistinct(Categories, s);
    forall j | 0 <= j < |Sections(s)| ensures x in Sections(s)[j].items <==> j == k {
      SectionsOverContent(Categories, s, j);
      FilterMember(s, KeyIs(CategoryOf, Sections(s)[j].name), x);
    }
  }

  /** The sections together hold as many ingredients as the filtered list. */
  lemma SectionsTotal(s: seq<Ingredient>)
    ensures SectionsSize(Sections(s)) == |s|
  {
    SectionsOverSize(Categories, s);
    CategoriesExact(Meat);
    forall i | 0 <= i < |s| ensures CategoryOf(s[i]) in Categories {
      CategoriesExact(CategoryOf(s[i]));
    }
    CountByKeysAll(s, CategoryOf, Categories);
  }

  // ---------------------------------------------------------------------
  // Display rules

  /** `selectedIngredients.includes(ing.name)`. */
  predicate TagSelected(selectedNames: seq<string>, ing: Ingredient)
  {
    ing.name in selectedNames
  }

  /** `filtered.length === 0`. */
  predicate ShowsEmptyState(filtered: seq<Ingredient>)
  {
    |filtered| == 0
  }

  /** The empty-state message shows exactly when there is no section. */
  lemma EmptyStateIffNoSections(s: seq<Ingredient>)
    ensures ShowsEmptyState(s) <==> Sections(s) == []
  {
    if s != [] {
      var k := SectionsPlace(s, s[0]);
    }
    SectionsOverNil(Categories);
  }

  lemma {:induction false} SectionsOverNil(cats: seq<Category>)
    ensures SectionsOver(cats, []) == []
  {
    if cats != [] {
      SectionsOverNil(cats[1..]);
    }
  }
}
