/** The step editor: a draft input whose add button emits the trimmed
    draft, and the numbered list of steps, each with a remove button. */
module RecipeStepEditor {
  import opened RecipeTypes
  import opened Seqs
  import opened Text

  /** What the add button emits for a draft: nothing for a blank one,
      otherwise the trimmed text. */
  function EmittedStep(draft: string): (r: Option<string>)
    ensures r.None? <==> IsBlank(draft)
    ensures r.Some? ==> r.value == Trim(draft)
    ensures r.Some? ==> !IsBlank(r.value) && Trim(r.value) == r.value
  {
    if IsBlank(draft) then None
    else
      TrimIdempotent(draft);
      Some(Trim(draft))
  }

  class StepInput {
    var currentStep: string

    constructor ()
      ensures currentStep == ""
    {
      currentStep := "";
    }

    /** `handleAdd()`: a non-blank draft is passed to `onAddStep` (the
        returned value) and cleared; a blank one is left as it is. */
    method HandleAdd() returns (added: Option<string>)
      modifies this
      ensures added == EmittedStep(old(currentStep))
      ensures currentStep == if added.Some? then "" else old(currentStep)
    {
      added := EmittedStep(currentStep);
      if added.Some? {
        currentStep := "";
      }
    }
  }

  /** One row of the list: its number, its text and the index its remove
      button passes on. */
  datatype StepRow = StepRow(number: int, text: string, removeIndex: int)

  function StepRows(steps: seq<string>): (r: seq<StepRow>)
    ensures |r| == |steps|
    ensures forall i :: 0 <= i < |r| ==> r[i].text == steps[i]
  {
    if steps == [] then []
    else StepRows(steps[..|steps| - 1]) + [StepRow(|steps|, steps[|steps| - 1], |steps| - 1)]
  }

  /** Rows are numbered 1, 2, … in list order and each remove button passes
      its own row's index, so removing through row `k` drops exactly step
      `k`. */
  lemma {:induction false} StepRowsSpec(steps: seq<string>, k: int)
    requires 0 <= k < |steps|
    ensures StepRows(steps)[k].number == k + 1
    ensures StepRows(steps)[k].removeIndex == k
    ensures RemoveAt(steps, StepRows(steps)[k].removeIndex) == steps[..k] + steps[k + 1..]
    decreases |steps|
  {
    if k < |steps| - 1 {
      StepRowsSpec(steps[..|steps| - 1], k);
    }
    var r := RemoveAt(steps, k);
    assert r == steps[..k] + steps[k + 1..];
  }
}
