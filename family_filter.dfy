/** The family-member filter: a "全部" chip and one chip per member, with at
    most one member selected by id. */
module FamilyFilter {
  import opened RecipeTypes
  import opened Seqs

  function MemberIdOf(m: FamilyMember): string
  {
    m.id
  }

  /** The "全部" chip: the selection becomes `null`. */
  function PressedAll(selectedId: Option<string>): (r: Option<string>)
    ensures r == None
  {
    None
  }

  /** A member chip: pressing the selected member clears the selection,
      pressing any other selects it. */
  function Pressed(selectedId: Option<string>, m: FamilyMember): (r: Option<string>)
    ensures r == None || r == Some(m.id)
    ensures r == None <==> selectedId == Some(m.id)
  {
    if selectedId == Some(m.id) then None else Some(m.id)
  }

  /** Pressing a member twice from no selection ends with no selection. */
  lemma PressedTwice(m: FamilyMember)
    ensures Pressed(Pressed(None, m), m) == None
  {
  }

  /** `!selectedId`. */
  predicate AllHighlighted(selectedId: Option<string>)
  {
    !Truthy(selectedId)
  }

  /** `selectedId === member.id`. */
  predicate MemberHighlighted(selectedId: Option<string>, m: FamilyMember)
  {
    selectedId == Some(m.id)
  }

  function HighlightedBy(selectedId: Option<string>): FamilyMember -> bool
  {
    (m: FamilyMember) => MemberHighlighted(selectedId, m)
  }

  /** How many chips are highlighted, the "全部" chip included. */
  function HighlightedCount(selectedId: Option<string>, members: seq<FamilyMember>): nat
  {
    (if AllHighlighted(selectedId) then 1 else 0) + |Filter(members, HighlightedBy(selectedId))|
  }

  lemma {:induction false} AtMostOneMatch(selectedId: Option<string>, members: seq<FamilyMember>)
    requires DistinctKeys(members, MemberIdOf)
    ensures |Filter(members, HighlightedBy(selectedId))| <= 1
    ensures selectedId.Some? && selectedId.value in Project(members, MemberIdOf) ==>
      |Filter(members, HighlightedBy(selectedId))| == 1
  {
    var p := HighlightedBy(selectedId);
    if members != [] {
      var tail := members[1..];
      assert DistinctKeys(tail, MemberIdOf) by {
        forall i, j | 0 <= i < j < |tail| ensures tail[i].id != tail[j].id {
          assert tail[i] == members[i + 1] && tail[j] == members[j + 1];
        }
      }
      AtMostOneMatch(selectedId, tail);
      if p(members[0]) {
        forall i | 0 <= i < |tail| ensures !p(tail[i]) {
          assert tail[i] == members[i + 1];
        }
        FilterNone(tail, p);
      } else if selectedId.Some? && selectedId.value in Project(members, MemberIdOf) {
        var k :| 0 <= k < |members| && Project(members, MemberIdOf)[k] == selectedId.value;
        assert k > 0;
        assert Project(tail, MemberIdOf)[k - 1] == selectedId.value;
      }
    }
  }

  /** With distinct, non-empty member ids at most one chip is highlighted,
      and exactly one unless the selection names no member. */
  lemma AtMostOneHighlighted(selectedId: Option<string>, members: seq<FamilyMember>)
    requires DistinctKeys(members, MemberIdOf)
    requires forall i :: 0 <= i < |members| ==> members[i].id != ""
    ensures HighlightedCount(selectedId, members) <= 1
    ensures HighlightedCount(selectedId, members) == 1 <==>
      AllHighlighted(selectedId) || selectedId.value in Project(members, MemberIdOf)
  {
    AtMostOneMatch(selectedId, members);
    var p := HighlightedBy(selectedId);
    if AllHighlighted(selectedId) {
      FilterNone(members, p);
    } else if selectedId.value !in Project(members, MemberIdOf) {
      forall i | 0 <= i < |members| ensures !p(members[i]) {
        assert Project(members, MemberIdOf)[i] == members[i].id;
      }
      FilterNone(members, p);
    }
  }
}
