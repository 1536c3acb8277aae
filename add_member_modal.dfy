/** The add-member form: a name and one of eight preset colours. */
module AddMemberModal {
  import opened RecipeTypes
  import opened Seqs
  import opened Text

  const PresetColors: seq<string> := [
    "#FF6B6B", "#4DABF7", "#FCC419", "#51CF66",
    "#BE4BDB", "#FF922B", "#22B8CF", "#845EF7"]

  /** Eight distinct presets, so at most one colour chip carries the check
      mark. */
  lemma PresetColorsDistinct()
    ensures |PresetColors| == 8 && Distinct(PresetColors)
  {
  }

  class MemberForm {
    var name: string
    var selectedColor: string

    /** The selected colour is always one of the presets. */
    predicate Valid()
      reads this
    {
      selectedColor in PresetColors
    }

    /** The colour starts at the first preset. */
    constructor ()
      ensures Valid()
      ensures name == "" && selectedColor == PresetColors[0]
    {
      name := "";
      selectedColor := PresetColors[0];
    }

    /** The save button is disabled while the name is blank. */
    predicate SaveDisabled()
      reads this
    {
      IsBlank(name)
    }

    /** The check mark: the chip of the selected colour. */
    predicate ColorChecked(color: string)
      reads this
    {
      selectedColor == color
    }

    /** `handleSave()`: a blank name does nothing; otherwise `onAdd` gets the
        trimmed name and the selected colour (the returned pair), the name is
        cleared and the form closes; the colour is kept. */
    method HandleSave() returns (added: Option<(string, string)>, closed: bool)
      requires Valid()
      modifies this
      ensures Valid()
      ensures old(SaveDisabled()) ==> (added == None && !closed && name == old(name))
      ensures !old(SaveDisabled()) ==> (added == Some((Trim(old(name)), old(selectedColor))) && closed && name == "")
      ensures selectedColor == old(selectedColor)
    {
      if Trim(name) == "" {
        return None, false;
      }
      added := Some((Trim(name), selectedColor));
      name := "";
      closed := true;
    }

    /** A colour chip. */
    method ChooseColor(i: int)
      requires 0 <= i < |PresetColors|
      modifies this
      ensures Valid()
      ensures selectedColor == PresetColors[i] && name == old(name)
    {
      selectedColor := PresetColors[i];
    }
  }

  /** A preset is checked in exactly one chip, so with a valid form exactly
      one chip carries the check mark. */
  lemma CheckedOnce(color: string)
    requires color in PresetColors
    ensures |Filter(PresetColors, (c: string) => c == color)| == 1
  {
    PresetColorsDistinct();
    FilterUnique(PresetColors, (c: string) => c == color, color);
  }

  /** On a valid form exactly one colour chip carries the check mark: the
      chip of the selected colour, and no two chips at once. */
  lemma FormCheckedOnce(f: MemberForm)
    requires f.Valid()
    ensures exists i :: 0 <= i < |PresetColors| && f.ColorChecked(PresetColors[i])
    ensures forall i, j :: 0 <= i < j < |PresetColors| && f.ColorChecked(PresetColors[i]) ==> !f.ColorChecked(PresetColors[j])
    ensures var color := f.selectedColor; |Filter(PresetColors, (c: string) => c == color)| == 1
  {
    PresetColorsDistinct();
    CheckedOnce(f.selectedColor);
    var i :| 0 <= i < |PresetColors| && PresetColors[i] == f.selectedColor;
    assert f.ColorChecked(PresetColors[i]);
  }
}
