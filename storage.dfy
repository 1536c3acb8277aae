/** `RecipeStorage`: the whole recipe list kept as one value under one
    storage key, read, changed and written back by every operation, and
    seeded with the sample recipes on first use. The key's content is the
    `slot` (None while the key holds nothing); serialisation is not modelled,
    and the failures the code catches are given as `Faults`. */
module Storage {
  import opened RecipeTypes
  import opened Seqs

  /** Which storage calls fail during one operation: the read (including a
      parse failure), the seeding write of the first read, and the final write
      of a mutator. */
  datatype Faults = Faults(readFails: bool, seedWriteFails: bool, writeFails: bool)

  /** The list `getRecipes` returns: the stored list, or the seed when nothing
      is stored or the read fails. */
  function Loaded(slot: Option<seq<Recipe>>, seed: seq<Recipe>, f: Faults): seq<Recipe>
  {
    if f.readFails then seed
    else match slot
      case Some(s) => s
      case None => seed
  }

  /** The slot after `getRecipes`: an empty slot is seeded unless that write
      fails; a failed read writes nothing. */
  function SlotAfterLoad(slot: Option<seq<Recipe>>, seed: seq<Recipe>, f: Faults): Option<seq<Recipe>>
  {
    if !f.readFails && slot == None && !f.seedWriteFails then Some(seed) else slot
  }

  /** The slot after `saveRecipes(list)`: a failed write is swallowed. */
  function SlotAfterSave(slot: Option<seq<Recipe>>, list: seq<Recipe>, fails: bool): Option<seq<Recipe>>
  {
    if fails then slot else Some(list)
  }

  /** `recipes.map(r => r.id === recipe.id ? recipe : r)`. */
  function Replaced(s: seq<Recipe>, x: Recipe): (r: seq<Recipe>)
    ensures |r| == |s|
    ensures forall i :: 0 <= i < |s| ==> r[i] == if s[i].id == x.id then x else s[i]
  {
    if s == [] then [] else [if s[0].id == x.id then x else s[0]] + Replaced(s[1..], x)
  }

  function IdIsNot(id: string): Recipe -> bool
  {
    (r: Recipe) => r.id != id
  }

  /** `recipes.filter(r => r.id !== id)`. */
  function Removed(s: seq<Recipe>, id: string): seq<Recipe>
  {
    Filter(s, IdIsNot(id))
  }

  // ---------------------------------------------------------------------
  // Properties of the read

  /** First use: an empty store yields the seed, is seeded unless the write
      fails, and any later read yields an equal list. */
  lemma EmptyStoreSeeds(seed: seq<Recipe>, f: Faults, g: Faults)
    ensures Loaded(None, seed, f) == seed
    ensures SlotAfterLoad(None, seed, f) == (if f.readFails || f.seedWriteFails then None else Some(seed))
    ensures Loaded(SlotAfterLoad(None, seed, f), seed, g) == seed
  {
  }

  /** A stored list, even an empty one, is returned unchanged and never
      replaced by the seed; a failed read returns the seed and writes
      nothing. */
  lemma StoredListIsKept(s: seq<Recipe>, seed: seq<Recipe>, f: Faults)
    ensures SlotAfterLoad(Some(s), seed, f) == Some(s)
    ensures Loaded(Some(s), seed, f) == if f.readFails then seed else s
  {
  }

  /** What a successful write stores, the next successful read returns. */
  lemma SavedIsLoaded(slot: Option<seq<Recipe>>, list: seq<Recipe>, seed: seq<Recipe>, g: Faults)
    requires !g.readFails
    ensures Loaded(SlotAfterSave(slot, list, false), seed, g) == list
  {
  }

  // ---------------------------------------------------------------------
  // Properties of update and delete

  /** Update keeps every id in its place: length and order are preserved. */
  lemma {:induction false} ReplacedKeepsIds(s: seq<Recipe>, x: Recipe)
    ensures Project(Replaced(s, x), IdOf) == Project(s, IdOf)
  {
    var a, b := Project(Replaced(s, x), IdOf), Project(s, IdOf);
    assert |a| == |b|;
    forall i | 0 <= i < |a| ensures a[i] == b[i] {
    }
  }

  /** With no matching id, update returns the list it was given. */
  lemma ReplacedNoMatch(s: seq<Recipe>, x: Recipe)
    requires forall i :: 0 <= i < |s| ==> s[i].id != x.id
    ensures Replaced(s, x) == s
  {
    var r := Replaced(s, x);
    assert forall i :: 0 <= i < |s| ==> r[i] == s[i];
  }

  /** Updating twice with the same payload equals updating once. */
  lemma ReplacedIdempotent(s: seq<Recipe>, x: Recipe)
    ensures Replaced(Replaced(s, x), x) == Replaced(s, x)
  {
    var r := Replaced(s, x);
    var rr := Replaced(r, x);
    assert forall i :: 0 <= i < |s| ==> rr[i] == r[i];
  }

  /** After a delete no recipe has that id, the survivors keep their relative
      order, every other recipe survives, and deleting an absent id changes
      nothing. */
  lemma RemovedSpec(s: seq<Recipe>, id: string)
    ensures forall i :: 0 <= i < |Removed(s, id)| ==> Removed(s, id)[i].id != id
    ensures IsSubseq(Removed(s, id), s)
    ensures forall x :: x in s && x.id != id ==> x in Removed(s, id)
    ensures (forall i :: 0 <= i < |s| ==> s[i].id != id) ==> Removed(s, id) == s
  {
    var r := Removed(s, id);
    forall i | 0 <= i < |r| ensures r[i].id != id {
      FilterMember(s, IdIsNot(id), r[i]);
    }
    FilterIsSubseq(s, IdIsNot(id));
    forall x | x in s && x.id != id ensures x in r {
      FilterMember(s, IdIsNot(id), x);
    }
    if forall i :: 0 <= i < |s| ==> s[i].id != id {
      FilterAll(s, IdIsNot(id));
    }
  }

  // ---------------------------------------------------------------------
  // The store

  class RecipeStorage {
    /** The storage key's content. */
    var slot: Option<seq<Recipe>>
    /** The sample recipes used for seeding. */
    const seed: seq<Recipe>

    constructor (seed: seq<Recipe>, initial: Option<seq<Recipe>>)
      ensures this.seed == seed && slot == initial
    {
      this.seed := seed;
      slot := initial;
    }

    /** `getRecipes()`. */
    method GetRecipes(f: Faults) returns (r: seq<Recipe>)
      modifies this
      ensures r == Loaded(old(slot), seed, f)
      ensures slot == SlotAfterLoad(old(slot), seed, f)
    {
      if f.readFails {
        return seed;
      }
      match slot
      case Some(s) =>
        r := s;
      case None =>
        SaveRecipes(seed, f.seedWriteFails);
        r := seed;
    }

    /** `saveRecipes(recipes)`. */
    method SaveRecipes(recipes: seq<Recipe>, fails: bool)
      modifies this
      ensures slot == SlotAfterSave(old(slot), recipes, fails)
    {
      if !fails {
        slot := Some(recipes);
      }
    }

    /** `addRecipe(recipe)`: the new recipe goes in front. */
    method AddRecipe(recipe: Recipe, f: Faults) returns (r: seq<Recipe>)
      modifies this
      ensures r == [recipe] + Loaded(old(slot), seed, f)
      ensures |r| == |Loaded(old(slot), seed, f)| + 1 && r[0] == recipe
      ensures slot == SlotAfterSave(SlotAfterLoad(old(slot), seed, f), r, f.writeFails)
    {
      var recipes := GetRecipes(f);
      r := [recipe] + recipes;
      SaveRecipes(r, f.writeFails);
    }

    /** `updateRecipe(recipe)`: every entry with the same id is replaced. */
    method UpdateRecipe(recipe: Recipe, f: Faults) returns (r: seq<Recipe>)
      modifies this
      ensures r == Replaced(Loaded(old(slot), seed, f), recipe)
      ensures slot == SlotAfterSave(SlotAfterLoad(old(slot), seed, f), r, f.writeFails)
    {
      var recipes := GetRecipes(f);
      r := Replaced(recipes, recipe);
      SaveRecipes(r, f.writeFails);
    }

    /** `deleteRecipe(id)`. */
    method DeleteRecipe(id: string, f: Faults) returns (r: seq<Recipe>)
      modifies this
      ensures r == Removed(Loaded(old(slot), seed, f), id)
      ensures slot == SlotAfterSave(SlotAfterLoad(old(slot), seed, f), r, f.writeFails)
    {
      var recipes := GetRecipes(f);
      r := Removed(recipes, id);
      SaveRecipes(r, f.writeFails);
    }
  }
}
