/** The six-step form (src/components/WorksheetForm.tsx): the step the user is
    on, and the edits to the list of answers of the question shown at that
    step. Step `k` (0..5) shows question `k + 1`. */
module WorksheetForm {
  import opened Types
  import Storage
  import SentenceSelector

  /** `t.worksheet.questions.length`: both translations list six questions. */
  const QuestionCount: int := 6

  /** The list of the question step `step` shows, `worksheet['question' + (step + 1)]`. */
  function StepList(w: Worksheet, step: int): seq<string>
    requires 0 <= step < QuestionCount
  {
    w.Question(step + 1)
  }

  /** `handleMultiChange(index, value)`: copies the list into a new array,
      writes `value` at `index` and hands the worksheet with that list to
      `onChange`. The index comes from the rendered list, so it is in range. */
  method MultiChange(w: Worksheet, step: int, index: int, value: string) returns (r: Worksheet)
    requires 0 <= step < QuestionCount
    requires 0 <= index < |StepList(w, step)|
    ensures |StepList(r, step)| == |StepList(w, step)|
    ensures StepList(r, step)[index] == value
    ensures r == w.WithQuestion(step + 1, StepList(w, step)[index := value])
    ensures forall j :: 0 <= j < |StepList(w, step)| && j != index ==> StepList(r, step)[j] == StepList(w, step)[j]
    ensures forall k :: 1 <= k <= 6 && k != step + 1 ==> r.Question(k) == w.Question(k)
    ensures r.sentences == w.sentences && r.id == w.id && r.status == w.status
    ensures r.createdAt == w.createdAt && r.updatedAt == w.updatedAt
  {
    var currentArray := StepList(w, step);
    var newArray := new string[|currentArray|](i requires 0 <= i < |currentArray| => currentArray[i]);
    newArray[index] := value;
    r := w.WithQuestion(step + 1, newArray[..]);
  }

  /** `handleAddMultiInput`: one empty entry appended to the current list. */
  function AddMultiInput(w: Worksheet, step: int): (r: Worksheet)
    requires 0 <= step < QuestionCount
    ensures StepList(r, step) == StepList(w, step) + [""]
    ensures forall k :: 1 <= k <= 6 && k != step + 1 ==> r.Question(k) == w.Question(k)
    ensures r.sentences == w.sentences && r.id == w.id && r.status == w.status
    ensures r.createdAt == w.createdAt && r.updatedAt == w.updatedAt
  {
    w.WithQuestion(step + 1, StepList(w, step) + [""])
  }

  /** `handleRemoveMultiInput(index)`: drops the entry at `index`, and only
      when the list has more than one entry; otherwise `onChange` is not
      called (`None`). */
  function RemoveMultiInput(w: Worksheet, step: int, index: int): (r: Option<Worksheet>)
    requires 0 <= step < QuestionCount
    ensures r.None? <==> |StepList(w, step)| <= 1
    ensures r.Some? ==>
              && StepList(r.value, step) == RemoveAt(StepList(w, step), index)
              && (forall k :: 1 <= k <= 6 && k != step + 1 ==> r.value.Question(k) == w.Question(k))
              && r.value.sentences == w.sentences && r.value.id == w.id && r.value.status == w.status
              && r.value.createdAt == w.createdAt && r.value.updatedAt == w.updatedAt
  {
    var currentArray := StepList(w, step);
    if |currentArray| > 1 then Some(w.WithQuestion(step + 1, RemoveAt(currentArray, index)))
    else None
  }

  /** `isCurrentStepFilled`: the list is non-empty and some entry is not
      blank. The Next button is disabled otherwise. */
  function IsStepFilled(w: Worksheet, step: int): (r: bool)
    requires 0 <= step < QuestionCount
    ensures r <==> exists i :: 0 <= i < |StepList(w, step)| && !IsBlank(StepList(w, step)[i])
  {
    var list := StepList(w, step);
    |list| > 0 && exists item :: item in list && !IsBlank(item)
  }

  /** No edit of the form empties a list: adding grows the list, removing is
      refused at one entry, and writing an entry keeps the length. */
  lemma ListsStayNonEmpty(w: Worksheet, step: int, index: int)
    requires 0 <= step < QuestionCount
    requires forall k :: 1 <= k <= 6 ==> |w.Question(k)| >= 1
    ensures forall k :: 1 <= k <= 6 ==> |AddMultiInput(w, step).Question(k)| >= 1
    ensures RemoveMultiInput(w, step, index).Some? ==>
              forall k :: 1 <= k <= 6 ==> |RemoveMultiInput(w, step, index).value.Question(k)| >= 1
  {
    var list := StepList(w, step);
    if |list| > 1 {
      assert |RemoveAt(list, index)| >= |list| - 1;
    }
  }

  /** A step is filled exactly when its list yields at least one suggested
      sentence in the sentence selector. */
  lemma FilledIffSuggests(w: Worksheet, step: int)
    requires 0 <= step < QuestionCount
    ensures IsStepFilled(w, step) <==> SentenceSelector.SuggestionsOf(StepList(w, step), step + 1) != []
  {
    var list := StepList(w, step);
    SentenceSelector.SuggestionsOfFacts(list, step + 1);
    if SentenceSelector.SuggestionsOf(list, step + 1) != [] {
      var g := SentenceSelector.SuggestionsOf(list, step + 1)[0];
      assert g in SentenceSelector.SuggestionsOf(list, step + 1);
      var e :| e in list && Trim(e) == g.text;
      TrimIdempotent(e);
    }
  }

  /** Adding an entry does not change whether a step is filled (the new entry
      is blank); writing a non-blank entry fills it. */
  lemma FilledAfterEdits(w: Worksheet, step: int, index: int, value: string)
    requires 0 <= step < QuestionCount
    ensures IsStepFilled(AddMultiInput(w, step), step) <==> IsStepFilled(w, step)
    ensures 0 <= index < |StepList(w, step)| && !IsBlank(value) ==>
              IsStepFilled(w.WithQuestion(step + 1, StepList(w, step)[index := value]), step)
  {
    var list := StepList(w, step);
    assert Trim("") == "";
    if 0 <= index < |list| {
      assert list[index := value][index] in list[index := value];
    }
  }

  /** A blank record from `create` has no filled step: the form cannot be
      left forward before something is typed. */
  lemma FreshRecordNotFilled(id: string, createdAt: string, updatedAt: string, step: int)
    requires 0 <= step < QuestionCount
    ensures !IsStepFilled(Storage.Create(id, createdAt, updatedAt), step)
  {
    assert Trim("") == "";
  }

  /** The form's `currentStep` state. */
  class FormStepper {
    var currentStep: int

    ghost predicate Valid()
      reads this
    {
      0 <= currentStep < QuestionCount
    }

    /** `useState(0)` */
    constructor ()
      ensures currentStep == 0 && Valid()
    {
      currentStep := 0;
    }

    /** `handleNext`: one step forward, or `onComplete` (`complete`) at the
        last step, where the step stays. */
    method HandleNext() returns (complete: bool)
      requires Valid()
      modifies this
      ensures Valid()
      ensures complete <==> old(currentStep) == QuestionCount - 1
      ensures currentStep == if complete then old(currentStep) else old(currentStep) + 1
    {
      if currentStep < QuestionCount - 1 {
        currentStep := currentStep + 1;
        complete := false;
      } else {
        complete := true;
      }
    }

    /** `handlePrevious`: one step back, or `onBack` (`back`) at the first
        step, where the step stays. */
    method HandlePrevious() returns (back: bool)
      requires Valid()
      modifies this
      ensures Valid()
      ensures back <==> old(currentStep) == 0
      ensures currentStep == if back then old(currentStep) else old(currentStep) - 1
    {
      if currentStep > 0 {
        currentStep := currentStep - 1;
        back := false;
      } else {
        back := true;
      }
    }
  }
}
