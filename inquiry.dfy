/** The four-question inquiry for one sentence (src/components/InquiryProcess.tsx):
    the answer edits with their `completedQuestions` counter, the optional
    sub-question records and their counters, and the question index that the
    yes/no buttons, Next and Back step through. */
module InquiryProcess {
  import opened Types

  datatype Language = De | En
  datatype YesNo = Yes | No

  /** `t.inquiry.yes` and `t.inquiry.no`: the localized label stored as the
      answer to a yes/no question. */
  function Label(lang: Language, a: YesNo): (r: string)
    ensures !IsBlank(r)
  {
    var r := match (lang, a)
      case (De, Yes) => "JA"
      case (De, No) => "NEIN"
      case (En, Yes) => "YES"
      case (En, No) => "NO";
    assert !IsSpace(r[0]);
    r
  }

  // ---------------------------------------------------------------------
  // Answers and `completedQuestions`

  /** `a && a.trim().length > 0` */
  predicate Filled(a: Option<string>)
  {
    a.Some? && !IsBlank(a.value)
  }

  /** `answers.filter(a => a && a.trim().length > 0).length` */
  function CountFilled(answers: seq<Option<string>>): (r: nat)
    ensures r <= |answers|
  {
    if answers == [] then 0 else (if Filled(answers[0]) then 1 else 0) + CountFilled(answers[1..])
  }

  /** The counter `handleChange` stores: how many of answer1..answer4 are filled. */
  function CountAnsweredQuestions(s: SentenceInquiry): (r: nat)
    ensures r <= 4
  {
    CountFilled([s.answer1, s.answer2, s.answer3, s.answer4])
  }

  /** The cached counter agrees with the answers. */
  predicate QuestionsConsistent(s: SentenceInquiry)
  {
    s.completedQuestions == CountAnsweredQuestions(s)
  }

  /** The counter lies in 0..4; it is 4 exactly when all four answers are
      filled and 0 exactly when none is. */
  lemma CountAnsweredBounds(s: SentenceInquiry)
    ensures 0 <= CountAnsweredQuestions(s) <= 4
    ensures CountAnsweredQuestions(s) == 4 <==> forall k :: 0 <= k < 4 ==> Filled(s.Answer(k))
    ensures CountAnsweredQuestions(s) == 0 <==> forall k :: 0 <= k < 4 ==> !Filled(s.Answer(k))
  {
    var xs := [s.answer1, s.answer2, s.answer3, s.answer4];
    assert xs[1..] == [s.answer2, s.answer3, s.answer4];
    assert [s.answer2, s.answer3, s.answer4][1..] == [s.answer3, s.answer4];
    assert [s.answer3, s.answer4][1..] == [s.answer4];
    assert [s.answer4][1..] == [];
    assert CountFilled([s.answer4]) == (if Filled(s.answer4) then 1 else 0);
    assert CountFilled([s.answer3, s.answer4]) == (if Filled(s.answer3) then 1 else 0) + CountFilled([s.answer4]);
    assert CountFilled([s.answer2, s.answer3, s.answer4])
        == (if Filled(s.answer2) then 1 else 0) + CountFilled([s.answer3, s.answer4]);
    assert CountFilled(xs) == (if Filled(s.answer1) then 1 else 0) + CountFilled([s.answer2, s.answer3, s.answer4]);
    assert forall k :: 0 <= k < 4 ==> s.Answer(k) == xs[k];
  }

  /** One sentence after `{ ...s, [question.key]: value }` and the recount:
      the shown answer is `value`, the other answers are kept, and the counter
      agrees with the answers again. */
  function SetAnswer(s: SentenceInquiry, question: int, value: string): (t: SentenceInquiry)
    requires 0 <= question < 4
    ensures t.Answer(question) == Some(value)
    ensures forall k :: 0 <= k < 4 && k != question ==> t.Answer(k) == s.Answer(k)
    ensures QuestionsConsistent(t) && 0 <= t.completedQuestions <= 4
    ensures t.(answer1 := s.answer1, answer2 := s.answer2, answer3 := s.answer3, answer4 := s.answer4,
               completedQuestions := s.completedQuestions) == s
  {
    var u := s.WithAnswer(question, Some(value));
    CountAnsweredBounds(u);
    u.(completedQuestions := CountAnsweredQuestions(u))
  }

  /** `handleChange(value)` while question index `question` is shown: every
      sentence with the current id is edited as `SetAnswer` says; nothing else
      changes. */
  function HandleChange(w: Worksheet, currentSentenceId: string, question: int, value: string): (r: Worksheet)
    requires 0 <= question < 4
    ensures r == w.(sentences := r.sentences) && |r.sentences| == |w.sentences|
    ensures forall i :: 0 <= i < |w.sentences| ==>
              r.sentences[i] == if w.sentences[i].id == currentSentenceId
                                then SetAnswer(w.sentences[i], question, value) else w.sentences[i]
  {
    w.(sentences := UpdateSentences(w.sentences, currentSentenceId, s => SetAnswer(s, question, value)))
  }

  /** A yes/no answer always counts as answered: afterwards the counter of the
      current sentence is at least one. */
  lemma YesNoAnswerCounts(lang: Language, a: YesNo, w: Worksheet, id: string, question: int, i: int)
    requires 0 <= question < 4 && 0 <= i < |w.sentences| && w.sentences[i].id == id
    ensures var t := HandleChange(w, id, question, Label(lang, a)).sentences[i];
            Filled(t.Answer(question)) && t.completedQuestions >= 1
  {
    var t := HandleChange(w, id, question, Label(lang, a)).sentences[i];
    CountAnsweredBounds(t);
  }

  // ---------------------------------------------------------------------
  // Optional sub-questions of questions 3 and 4

  /** `subQuestionKeys`: the keys of the answer-3 sub-questions in six categories. */
  const SubQuestionKeys: seq<seq<string>> := [
    ["emotions", "bodyLocation"],
    ["treatOthers", "treatSelf", "whoseBusiness", "role"],
    ["habits", "images", "thoughtAge"],
    ["cost", "inability", "benefitOfHolding", "wholeLife", "missing"],
    ["stressOrPeace", "otherStressfulThoughts", "pretendNotToKnow", "heartOpenClose"],
    ["reasonToLetGo", "peacefulReasonToHold"]
  ]

  /** `subQuestion4Keys` */
  const SubQuestion4Keys: seq<string> :=
    ["breathFeeling", "whoNowMoment", "whoInSituation", "liveDifferently", "wholeLife", "bodyFeeling"]

  /** `totalSubQuestions` and `totalSubQuestions4`, the denominators shown. */
  const TotalSubQuestions := 20
  const TotalSubQuestions4 := 6

  function Flatten(xss: seq<seq<string>>): (r: seq<string>)
    ensures forall xs, x :: xs in xss && x in xs ==> x in r
    ensures forall x :: x in r ==> exists xs :: xs in xss && x in xs
  {
    if xss == [] then [] else xss[0] + Flatten(xss[1..])
  }

  /** Every key shown for question 3, in category order. */
  function AllSubQuestionKeys(): seq<string>
  {
    Flatten(SubQuestionKeys)
  }

  /** The catalogue: six categories of sizes 2, 4, 3, 5, 4, 2, which make up
      the 20 sub-questions counted against, and six keys for question 4. */
  lemma SubQuestionCatalogue()
    ensures |SubQuestionKeys| == 6
    ensures |SubQuestionKeys[0]| == 2 && |SubQuestionKeys[1]| == 4 && |SubQuestionKeys[2]| == 3
    ensures |SubQuestionKeys[3]| == 5 && |SubQuestionKeys[4]| == 4 && |SubQuestionKeys[5]| == 2
    ensures |AllSubQuestionKeys()| == TotalSubQuestions
    ensures |SubQuestion4Keys| == TotalSubQuestions4
  {
    var k := SubQuestionKeys;
    assert Flatten(k[5..]) == k[5];
    assert Flatten(k[4..]) == k[4] + Flatten(k[5..]);
    assert Flatten(k[3..]) == k[3] + Flatten(k[4..]);
    assert Flatten(k[2..]) == k[2] + Flatten(k[3..]);
    assert Flatten(k[1..]) == k[1] + Flatten(k[2..]);
    assert Flatten(k) == k[0] + Flatten(k[1..]);
  }

  /** `{ ...subs, [key]: value }` on a record that may not exist yet. */
  function SetSubAnswer(subs: Option<map<string, string>>, key: string, value: string): map<string, string>
  {
    (if subs.Some? then subs.value else map[])[key := value]
  }

  /** `after` is `before` with one key written: it exists, `key` holds
      `value`, and every other key is present exactly when it was before, with
      the value it had. */
  ghost predicate SubRecordEdited(before: Option<map<string, string>>, after: Option<map<string, string>>, key: string, value: string)
  {
    && after.Some? && key in after.value && after.value[key] == value
    && (forall k :: k != key ==> (k in after.value <==> before.Some? && k in before.value))
    && (forall k :: k != key && before.Some? && k in before.value ==> after.value[k] == before.value[k])
  }

  /** `handleSubQuestionChange(key, value)`: sets one answer-3 sub-question of
      the current sentence; the main answers and the counter stay as they were. */
  function HandleSubQuestionChange(w: Worksheet, currentSentenceId: string, key: string, value: string): (r: Worksheet)
    ensures r == w.(sentences := r.sentences) && |r.sentences| == |w.sentences|
    ensures forall i :: 0 <= i < |w.sentences| && w.sentences[i].id != currentSentenceId ==>
              r.sentences[i] == w.sentences[i]
    ensures forall i :: 0 <= i < |w.sentences| && w.sentences[i].id == currentSentenceId ==>
              && SubRecordEdited(w.sentences[i].answer3SubQuestions, r.sentences[i].answer3SubQuestions, key, value)
              && r.sentences[i].(answer3SubQuestions := w.sentences[i].answer3SubQuestions) == w.sentences[i]
  {
    var f := (s: SentenceInquiry) => s.(answer3SubQuestions := Some(SetSubAnswer(s.answer3SubQuestions, key, value)));
    w.(sentences := UpdateSentences(w.sentences, currentSentenceId, f))
  }

  /** `handleSubQuestion4Change(key, value)`: the same for question 4. */
  function HandleSubQuestion4Change(w: Worksheet, currentSentenceId: string, key: string, value: string): (r: Worksheet)
    ensures r == w.(sentences := r.sentences) && |r.sentences| == |w.sentences|
    ensures forall i :: 0 <= i < |w.sentences| && w.sentences[i].id != currentSentenceId ==>
              r.sentences[i] == w.sentences[i]
    ensures forall i :: 0 <= i < |w.sentences| && w.sentences[i].id == currentSentenceId ==>
              && SubRecordEdited(w.sentences[i].answer4SubQuestions, r.sentences[i].answer4SubQuestions, key, value)
              && r.sentences[i].(answer4SubQuestions := w.sentences[i].answer4SubQuestions) == w.sentences[i]
  {
    var f := (s: SentenceInquiry) => s.(answer4SubQuestions := Some(SetSubAnswer(s.answer4SubQuestions, key, value)));
    w.(sentences := UpdateSentences(w.sentences, currentSentenceId, f))
  }

  /** The keys of a sub-question record whose value is not blank. */
  function AnsweredKeys(m: map<string, string>): set<string>
  {
    set k | k in m && !IsBlank(m[k])
  }

  /** `countAnsweredSubQuestions` / `countAnsweredSubQuestions4`: the values of
      the record that are not blank (0 when there is no record). */
  function CountAnsweredSub(subs: Option<map<string, string>>): (r: nat)
    ensures subs.None? ==> r == 0
    ensures subs.Some? ==> r <= |subs.value.Keys|
  {
    if subs.None? then 0
    else
      SubsetBound(AnsweredKeys(subs.value), subs.value.Keys);
      |AnsweredKeys(subs.value)|
  }

  /** `countSubQuestionsInCategory`: how many keys of one category hold a
      non-blank value. */
  function CountInCategory(subs: Option<map<string, string>>, keys: seq<string>): (r: nat)
    ensures r <= |keys|
    ensures subs.None? ==> r == 0
  {
    if subs.None? || keys == [] then 0
    else (if keys[0] in subs.value && !IsBlank(subs.value[keys[0]]) then 1 else 0)
         + CountInCategory(subs, keys[1..])
  }

  lemma {:induction false} SetOfSeqBound(s: seq<string>)
    ensures |set x | x in s| <= |s|
  {
    if s != [] {
      SetOfSeqBound(s[1..]);
      assert (set x | x in s) == {s[0]} + (set x | x in s[1..]);
    }
  }

  lemma {:induction false} SubsetBound(a: set<string>, b: set<string>)
    requires a <= b
    ensures |a| <= |b|
  {
    if a != {} {
      var x :| x in a;
      SubsetBound(a - {x}, b - {x});
    }
  }

  /** As long as only the listed keys are ever written, the answered count
      never exceeds the number of sub-questions shown (20 for question 3,
      6 for question 4). */
  lemma SubAnsweredBound(subs: Option<map<string, string>>, keys: seq<string>)
    requires subs.Some? ==> forall k :: k in subs.value ==> k in keys
    ensures CountAnsweredSub(subs) <= |keys|
  {
    if subs.Some? {
      SetOfSeqBound(keys);
      SubsetBound(AnsweredKeys(subs.value), set x | x in keys);
    }
  }

  /** Writing a listed key keeps a record within the listed keys, so the bound
      above survives every edit the screen offers. */
  lemma SubEditKeepsKeys(subs: Option<map<string, string>>, keys: seq<string>, key: string, value: string)
    requires subs.Some? ==> forall k :: k in subs.value ==> k in keys
    requires key in keys
    ensures forall k :: k in SetSubAnswer(subs, key, value) ==> k in keys
  {
  }

  // ---------------------------------------------------------------------
  // The question index

  /** Where the index goes next: to another question, or out of the inquiry
      (`onComplete`). */
  datatype Step = GoTo(index: int) | Complete

  /** The auto-advance after a yes/no answer at index `q`: answering "no" to
      the first question skips the second; otherwise the next question, and
      past the last one the inquiry completes. */
  function YesNoStep(q: int, a: YesNo): (r: Step)
    requires 0 <= q < 4
    ensures r.Complete? <==> q == 3 && !(a == No && q == 0)
    ensures r.GoTo? ==> q < r.index <= 3
    ensures r.GoTo? && r.index != q + 1 ==> q == 0 && a == No && r.index == 2
    ensures r == GoTo(1) <==> q == 0 && a.Yes?
  {
    if a == No && q == 0 then GoTo(2)
    else if q < 3 then GoTo(q + 1)
    else Complete
  }

  /** `handleNext`: the next question, or completion at the last one. */
  function NextStep(q: int): (r: Step)
    requires 0 <= q < 4
    ensures r.Complete? <==> q == 3
    ensures r.GoTo? ==> r.index == q + 1 && r.index <= 3
  {
    if q < 3 then GoTo(q + 1) else Complete
  }

  /** `handlePrevious`: one question back, or nothing at the first question. */
  function PreviousIndex(q: int): (r: int)
    requires 0 <= q < 4
    ensures 0 <= r < 4
    ensures q > 0 ==> r == q - 1
    ensures q == 0 ==> r == 0
  {
    if q > 0 then q - 1 else q
  }

  /** Back does not undo the skip: answering "no" at the first question and
      then pressing Back shows the second question, which was skipped. */
  lemma BackAfterSkipShowsSkippedQuestion()
    ensures YesNoStep(0, No) == GoTo(2) && PreviousIndex(2) == 1
  {
  }

  /** `currentSentence[question.key] || ''` */
  function CurrentAnswer(s: SentenceInquiry, q: int): string
    requires 0 <= q < 4
  {
    if s.Answer(q).Some? then s.Answer(q).value else ""
  }

  /** `isCurrentStepFilled`: the `|| ''` fallback makes a missing answer
      count as unfilled, so the gate agrees with the answer counter's test. */
  function IsCurrentStepFilled(s: SentenceInquiry, q: int): (r: bool)
    requires 0 <= q < 4
    ensures r <==> Filled(s.Answer(q))
  {
    !IsBlank(CurrentAnswer(s, q))
  }

  /** The Next button: shown only for the free-text questions (indices 2 and
      3) and enabled only when the shown answer is filled. */
  function NextEnabled(s: SentenceInquiry, q: int): (r: bool)
    requires 0 <= q < 4
    ensures r <==> q >= 2 && Filled(s.Answer(q))
  {
    (q == 2 || q == 3) && IsCurrentStepFilled(s, q)
  }

  /** The Back button is disabled at the first question. */
  function PreviousEnabled(q: int): (r: bool)
    requires 0 <= q < 4
    ensures r <==> PreviousIndex(q) != q
  {
    q != 0
  }

  /** Next can only be pressed on an answered free-text question, so the
      inquiry is left through Next only with answer 4 filled. */
  lemma NextRequiresAnswer(s: SentenceInquiry, q: int)
    requires 0 <= q < 4 && NextEnabled(s, q)
    ensures Filled(s.Answer(q)) && q >= 2
    ensures NextStep(q).Complete? ==> Filled(s.answer4)
  {
  }

  /** The `currentQuestion` state of the inquiry screen. */
  class InquiryStepper {
    var currentQuestion: int

    ghost predicate Valid()
      reads this
    {
      0 <= currentQuestion < 4
    }

    /** `useState(0)`: every time the screen opens it starts at the first
        question, whatever answers already exist. */
    constructor ()
      ensures Valid() && currentQuestion == 0
    {
      currentQuestion := 0;
    }

    /** `handleYesNo`: records the label as the shown answer, then advances
        (the 300 ms delay is not modelled). */
    method HandleYesNo(lang: Language, w: Worksheet, currentSentenceId: string, a: YesNo)
      returns (updated: Worksheet, complete: bool)
      requires Valid()
      modifies this
      ensures Valid()
      ensures updated == HandleChange(w, currentSentenceId, old(currentQuestion), Label(lang, a))
      ensures complete <==> YesNoStep(old(currentQuestion), a).Complete?
      ensures !complete ==> currentQuestion == YesNoStep(old(currentQuestion), a).index
      ensures complete ==> currentQuestion == old(currentQuestion)
    {
      updated := HandleChange(w, currentSentenceId, currentQuestion, Label(lang, a));
      complete := false;
      if a == No && currentQuestion == 0 {
        currentQuestion := 2;
      } else if currentQuestion < 3 {
        currentQuestion := currentQuestion + 1;
      } else {
        complete := true;
      }
    }

    /** `handleNext` */
    method HandleNext() returns (complete: bool)
      requires Valid()
      modifies this
      ensures Valid()
      ensures complete <==> NextStep(old(currentQuestion)).Complete?
      ensures !complete ==> currentQuestion == NextStep(old(currentQuestion)).index
      ensures complete ==> currentQuestion == old(currentQuestion)
    {
      complete := false;
      if currentQuestion < 3 {
        currentQuestion := currentQuestion + 1;
      } else {
        complete := true;
      }
    }

    /** `handlePrevious` */
    method HandlePrevious()
      requires Valid()
      modifies this
      ensures Valid()
      ensures currentQuestion == PreviousIndex(old(currentQuestion))
    {
      if currentQuestion > 0 {
        currentQuestion := currentQuestion - 1;
      }
    }
  }
}
