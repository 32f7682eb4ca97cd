/** Sentence selection (src/components/SentenceSelector.tsx): the suggestions
    pulled from the six form lists, and adding, removing and toggling the
    sentences chosen for inquiry, which keeps their texts pairwise distinct. */
module SentenceSelector {
  import opened Types
  import InquiryProcess
  import TurnaroundProcess

  /** `{ text, source }`: a suggested sentence and the question (1..6) it
      came from. */
  datatype Suggestion = Suggestion(text: string, source: int)

  /** The suggestions one question list yields, in entry order: each entry
      that is not blank, trimmed. */
  function SuggestionsOf(items: seq<string>, source: int): seq<Suggestion>
  {
    if items == [] then []
    else
      var last := items[|items| - 1];
      SuggestionsOf(items[..|items| - 1], source)
      + (if !IsBlank(last) then [Suggestion(Trim(last), source)] else [])
  }

  /** The suggestions of the first `k` lists, list `j` tagged `j + 1`. */
  function SuggestionsUpTo(lists: seq<seq<string>>, k: nat): seq<Suggestion>
    requires k <= |lists|
  {
    if k == 0 then [] else SuggestionsUpTo(lists, k - 1) + SuggestionsOf(lists[k - 1], k)
  }

  /** What `getSuggestedSentences` returns for a worksheet. */
  function SuggestedSentences(w: Worksheet): (r: seq<Suggestion>)
    ensures forall a :: 0 <= a < |r| ==> 1 <= r[a].source <= 6
  {
    SuggestionsUpToOrdered(QuestionLists(w), 6);
    SuggestionsUpTo(QuestionLists(w), 6)
  }

  /** `getSuggestedSentences`: the nested `forEach` loops pushing onto a local
      array. */
  method GetSuggestedSentences(w: Worksheet) returns (sentences: seq<Suggestion>)
    ensures sentences == SuggestedSentences(w)
  {
    var lists := QuestionLists(w);
    sentences := [];
    var questionIndex := 0;
    while questionIndex < |lists|
      invariant 0 <= questionIndex <= |lists|
      invariant sentences == SuggestionsUpTo(lists, questionIndex)
    {
      var questionArray := lists[questionIndex];
      var j := 0;
      while j < |questionArray|
        invariant 0 <= j <= |questionArray|
        invariant sentences == SuggestionsUpTo(lists, questionIndex) + SuggestionsOf(questionArray[..j], questionIndex + 1)
      {
        var item := questionArray[j];
        assert questionArray[..j + 1][..j] == questionArray[..j];
        if Trim(item) != "" {
          sentences := sentences + [Suggestion(Trim(item), questionIndex + 1)];
        }
        j := j + 1;
      }
      assert questionArray[..j] == questionArray;
      questionIndex := questionIndex + 1;
    }
  }

  /** Every suggestion from one list is a trimmed, non-empty entry of it, and
      every non-blank entry yields one. */
  lemma {:induction false} SuggestionsOfFacts(items: seq<string>, source: int)
    ensures forall g :: g in SuggestionsOf(items, source) ==>
              g.source == source && g.text != "" && Trim(g.text) == g.text
              && exists e :: e in items && Trim(e) == g.text
    ensures forall e :: e in items && !IsBlank(e) ==> Suggestion(Trim(e), source) in SuggestionsOf(items, source)
  {
    if items != [] {
      var init := items[..|items| - 1];
      var last := items[|items| - 1];
      SuggestionsOfFacts(init, source);
      assert items == init + [last];
      if !IsBlank(last) {
        TrimIdempotent(last);
      }
    }
  }

  /** The suggestions of the first `k` lists carry sources 1..k that never
      decrease: question order first, then entry order. */
  lemma {:induction false} SuggestionsUpToOrdered(lists: seq<seq<string>>, k: nat)
    requires k <= |lists|
    ensures forall a :: 0 <= a < |SuggestionsUpTo(lists, k)| ==> 1 <= SuggestionsUpTo(lists, k)[a].source <= k
    ensures forall a, b :: 0 <= a < b < |SuggestionsUpTo(lists, k)| ==>
              SuggestionsUpTo(lists, k)[a].source <= SuggestionsUpTo(lists, k)[b].source
  {
    if k > 0 {
      SuggestionsUpToOrdered(lists, k - 1);
      SuggestionsOfFacts(lists[k - 1], k);
      var prev := SuggestionsUpTo(lists, k - 1);
      var more := SuggestionsOf(lists[k - 1], k);
      var r := prev + more;
      forall a | 0 <= a < |r|
        ensures 1 <= r[a].source <= k
      {
        if a < |prev| {
          assert r[a] == prev[a];
        } else {
          assert r[a] == more[a - |prev|];
          assert r[a] in more;
        }
      }
      forall a, b | 0 <= a < b < |r|
        ensures r[a].source <= r[b].source
      {
        if a < |prev| && b < |prev| {
          assert r[a] == prev[a] && r[b] == prev[b];
        } else if a < |prev| {
          assert r[a] == prev[a];
          assert r[b] == more[b - |prev|];
          assert r[b] in more;
        } else {
          assert r[a] == more[a - |prev|] && r[b] == more[b - |prev|];
          assert r[a] in more && r[b] in more;
        }
      }
    }
  }

  /** Each suggestion of the first `k` lists is a trimmed non-empty text that
      some entry of the list it names trims to. */
  lemma {:induction false} SuggestionsUpToSound(lists: seq<seq<string>>, k: nat)
    requires k <= |lists|
    ensures forall g :: g in SuggestionsUpTo(lists, k) ==>
              1 <= g.source <= k && g.text != "" && Trim(g.text) == g.text
              && exists e :: e in lists[g.source - 1] && Trim(e) == g.text
  {
    if k > 0 {
      SuggestionsUpToSound(lists, k - 1);
      SuggestionsOfFacts(lists[k - 1], k);
    }
  }

  /** Every non-blank entry of the first `k` lists is suggested, trimmed and
      tagged with its question. */
  lemma {:induction false} SuggestionsUpToComplete(lists: seq<seq<string>>, k: nat)
    requires k <= |lists|
    ensures forall j, e :: 0 <= j < k && e in lists[j] && !IsBlank(e) ==>
              Suggestion(Trim(e), j + 1) in SuggestionsUpTo(lists, k)
  {
    if k > 0 {
      SuggestionsUpToComplete(lists, k - 1);
      SuggestionsOfFacts(lists[k - 1], k);
    }
  }

  /** The suggestions of a worksheet are trimmed non-empty texts, each tagged
      with a question 1..6 one of whose entries trims to it, listed in
      question order. */
  lemma SuggestedSentencesSound(w: Worksheet)
    ensures forall g :: g in SuggestedSentences(w) ==>
              1 <= g.source <= 6 && g.text != "" && Trim(g.text) == g.text
              && exists e :: e in w.Question(g.source) && Trim(e) == g.text
    ensures forall a, b :: 0 <= a < b < |SuggestedSentences(w)| ==>
              SuggestedSentences(w)[a].source <= SuggestedSentences(w)[b].source
  {
    SuggestionsUpToSound(QuestionLists(w), 6);
    SuggestionsUpToOrdered(QuestionLists(w), 6);
    assert SuggestedSentences(w) == SuggestionsUpTo(QuestionLists(w), 6);
  }

  /** Every non-blank entry of every question is suggested. */
  lemma SuggestedSentencesComplete(w: Worksheet, k: int, e: string)
    requires 1 <= k <= 6 && e in w.Question(k) && !IsBlank(e)
    ensures Suggestion(Trim(e), k) in SuggestedSentences(w)
  {
    SuggestionsUpToComplete(QuestionLists(w), 6);
    assert e in QuestionLists(w)[k - 1];
  }

  // ---------------------------------------------------------------------
  // The chosen sentences

  /** A freshly chosen sentence: no answers, no turnarounds, counters at 0. */
  function NewSentence(id: string, text: string, source: int): (n: SentenceInquiry)
    ensures n.id == id && n.text == text && n.sourceQuestion == source
    ensures forall k :: 0 <= k < 4 ==> n.Answer(k).None?
    ensures n.answer3SubQuestions.None? && n.answer4SubQuestions.None?
    ensures n.turnarounds == [] && n.completedQuestions == 0 && n.completedTurnarounds == 0
  {
    SentenceInquiry(id, text, source, None, None, None, None, None, None, [], 0, 0)
  }

  /** `existingSentenceTexts.has(text)` */
  predicate HasText(w: Worksheet, text: string)
  {
    exists s :: s in w.sentences && s.text == text
  }

  /** No two sentences share a text. */
  predicate DistinctTexts(ss: seq<SentenceInquiry>)
  {
    ss == [] || ((forall s :: s in ss[1..] ==> s.text != ss[0].text) && DistinctTexts(ss[1..]))
  }

  /** `addSentence(text, source)`: nothing (`None`, no `onChange`) when a
      sentence with exactly that text exists; otherwise the new sentence is
      appended and nothing else changes. */
  function AddSentence(w: Worksheet, text: string, source: int, newId: string): (r: Option<Worksheet>)
    ensures r.None? <==> HasText(w, text)
    ensures r.Some? ==>
              && r.value == w.(sentences := r.value.sentences)
              && |r.value.sentences| == |w.sentences| + 1
              && r.value.sentences[..|w.sentences|] == w.sentences
              && r.value.sentences[|w.sentences|] == NewSentence(newId, text, source)
  {
    if HasText(w, text) then None
    else Some(w.(sentences := w.sentences + [NewSentence(newId, text, source)]))
  }

  /** `removeSentence(id)`: the sentence with that id, and with it its
      turnarounds, is gone; the others keep their order. */
  function RemoveSentence(w: Worksheet, id: string): (r: Worksheet)
    ensures r == w.(sentences := r.sentences)
    ensures forall s :: s in r.sentences ==> s.id != id && s in w.sentences
    ensures forall s :: s in w.sentences && s.id != id ==> s in r.sentences
    ensures IsSubsequence(r.sentences, w.sentences)
    ensures forall s :: multiset(r.sentences)[s] == if s.id != id then multiset(w.sentences)[s] else 0
  {
    FilterIsSubsequence(w.sentences, (s: SentenceInquiry) => s.id != id);
    FilterMultiplicity(w.sentences, (s: SentenceInquiry) => s.id != id);
    w.(sentences := Filter(w.sentences, (s: SentenceInquiry) => s.id != id))
  }

  /** `addCustomSentence`: the typed text, trimmed, with source 0, and only
      when it is not blank. */
  function AddCustomSentence(w: Worksheet, custom: string, newId: string): (r: Option<Worksheet>)
    ensures IsBlank(custom) ==> r.None?
    ensures !IsBlank(custom) ==> r == AddSentence(w, Trim(custom), 0, newId)
  {
    if Trim(custom) != "" then AddSentence(w, Trim(custom), 0, newId) else None
  }

  /** `worksheet.sentences.find(s => s.text === text)` */
  function FirstWithText(ss: seq<SentenceInquiry>, text: string): (r: Option<SentenceInquiry>)
    ensures r.Some? ==> r.value in ss && r.value.text == text
    ensures r.Some? ==> exists i :: 0 <= i < |ss| && ss[i] == r.value && forall j :: 0 <= j < i ==> ss[j].text != text
    ensures r.None? ==> forall s :: s in ss ==> s.text != text
  {
    if ss == [] then None
    else if ss[0].text == text then Some(ss[0])
    else FirstWithText(ss[1..], text)
  }

  /** `toggleSentence(text, source)`: removes the sentence with that text when
      there is one, otherwise adds it. */
  function ToggleSentence(w: Worksheet, text: string, source: int, newId: string): (r: Option<Worksheet>)
    ensures r.Some?
    ensures HasText(w, text) ==>
              FirstWithText(w.sentences, text).Some? && r.value == RemoveSentence(w, FirstWithText(w.sentences, text).value.id)
    ensures !HasText(w, text) ==> r == AddSentence(w, text, source, newId)
  {
    if HasText(w, text) then
      var found := FirstWithText(w.sentences, text);
      if found.Some? then Some(RemoveSentence(w, found.value.id)) else None
    else AddSentence(w, text, source, newId)
  }

  /** The button that starts the inquiry is disabled while no sentence is
      chosen. */
  function CanStartInquiry(w: Worksheet): (r: bool)
    ensures r <==> exists s :: s in w.sentences
  {
    assert |w.sentences| > 0 ==> w.sentences[0] in w.sentences;
    |w.sentences| > 0
  }

  // ---------------------------------------------------------------------
  // Properties

  lemma {:induction false} DistinctSnoc(ss: seq<SentenceInquiry>, n: SentenceInquiry)
    requires DistinctTexts(ss)
    requires forall s :: s in ss ==> s.text != n.text
    ensures DistinctTexts(ss + [n])
  {
    if ss != [] {
      assert (ss + [n])[1..] == ss[1..] + [n];
      DistinctSnoc(ss[1..], n);
    }
  }

  lemma {:induction false} DistinctFilter(ss: seq<SentenceInquiry>, p: SentenceInquiry -> bool)
    requires DistinctTexts(ss)
    ensures DistinctTexts(Filter(ss, p))
  {
    if ss != [] {
      DistinctFilter(ss[1..], p);
      var rest := Filter(ss[1..], p);
      if p(ss[0]) {
        assert Filter(ss, p) == [ss[0]] + rest;
        assert ([ss[0]] + rest)[1..] == rest;
      } else {
        assert Filter(ss, p) == rest;
      }
    }
  }

  /** Adding, removing, adding a custom sentence and toggling all keep the
      sentence texts pairwise distinct. */
  lemma SelectionKeepsTextsDistinct(w: Worksheet, text: string, custom: string, source: int, id: string, newId: string)
    requires DistinctTexts(w.sentences)
    ensures AddSentence(w, text, source, newId).Some? ==> DistinctTexts(AddSentence(w, text, source, newId).value.sentences)
    ensures DistinctTexts(RemoveSentence(w, id).sentences)
    ensures AddCustomSentence(w, custom, newId).Some? ==> DistinctTexts(AddCustomSentence(w, custom, newId).value.sentences)
    ensures ToggleSentence(w, text, source, newId).Some? ==> DistinctTexts(ToggleSentence(w, text, source, newId).value.sentences)
  {
    if !HasText(w, text) {
      DistinctSnoc(w.sentences, NewSentence(newId, text, source));
    }
    if !IsBlank(custom) && !HasText(w, Trim(custom)) {
      DistinctSnoc(w.sentences, NewSentence(newId, Trim(custom), 0));
    }
    DistinctFilter(w.sentences, (s: SentenceInquiry) => s.id != id);
    var found := FirstWithText(w.sentences, text);
    if found.Some? {
      DistinctFilter(w.sentences, (s: SentenceInquiry) => s.id != found.value.id);
    }
  }

  lemma {:induction false} FirstWithTextSnoc(ss: seq<SentenceInquiry>, n: SentenceInquiry)
    requires forall s :: s in ss ==> s.text != n.text
    ensures FirstWithText(ss + [n], n.text) == Some(n)
  {
    if ss != [] {
      assert (ss + [n])[1..] == ss[1..] + [n];
      FirstWithTextSnoc(ss[1..], n);
    }
  }

  /** Toggling a text that is not chosen, and toggling it again, gives back
      the worksheet (the new sentence's id being fresh, as a random UUID is). */
  lemma ToggleTwiceRestores(w: Worksheet, text: string, source: int, newId: string, laterId: string)
    requires !HasText(w, text)
    requires forall s :: s in w.sentences ==> s.id != newId
    ensures ToggleSentence(w, text, source, newId).Some?
    ensures ToggleSentence(ToggleSentence(w, text, source, newId).value, text, source, laterId) == Some(w)
  {
    var n := NewSentence(newId, text, source);
    var w1 := w.(sentences := w.sentences + [n]);
    assert ToggleSentence(w, text, source, newId) == Some(w1);
    assert n in w1.sentences;
    FirstWithTextSnoc(w.sentences, n);
    var p := (s: SentenceInquiry) => s.id != newId;
    FilterSnoc(w.sentences, n, p);
    FilterAll(w.sentences, p);
    assert RemoveSentence(w1, newId).sentences == w.sentences;
  }

  /** Two chosen sentences with the same text are the same sentence. */
  lemma {:induction false} DistinctUnique(ss: seq<SentenceInquiry>, a: SentenceInquiry, b: SentenceInquiry)
    requires DistinctTexts(ss) && a in ss && b in ss && a.text == b.text
    ensures a == b
  {
    if a != ss[0] && b != ss[0] {
      DistinctUnique(ss[1..], a, b);
    }
  }

  /** With distinct texts, a toggle flips whether the text is chosen: a chosen
      text is gone afterwards, an unchosen one is there. */
  lemma ToggleFlipsSelection(w: Worksheet, text: string, source: int, newId: string)
    requires DistinctTexts(w.sentences)
    ensures HasText(ToggleSentence(w, text, source, newId).value, text) <==> !HasText(w, text)
  {
    var r := ToggleSentence(w, text, source, newId).value;
    if HasText(w, text) {
      var found := FirstWithText(w.sentences, text).value;
      if HasText(r, text) {
        var s :| s in r.sentences && s.text == text;
        DistinctUnique(w.sentences, s, found);
        assert false;
      }
    } else {
      var n := NewSentence(newId, text, source);
      assert r.sentences[|w.sentences|] == n;
      assert n in r.sentences;
    }
  }

  /** A fresh sentence's counters agree with its (absent) answers and
      turnarounds. */
  lemma NewSentenceConsistent(id: string, text: string, source: int)
    ensures InquiryProcess.QuestionsConsistent(NewSentence(id, text, source))
    ensures TurnaroundProcess.TurnaroundsConsistent(NewSentence(id, text, source))
  {
    InquiryProcess.CountAnsweredBounds(NewSentence(id, text, source));
  }

  /** Picking a suggestion always leaves the inquiry startable: either the
      sentence is added, or one with that text was already chosen. */
  lemma PickingEnablesStart(w: Worksheet, text: string, source: int, newId: string)
    ensures AddSentence(w, text, source, newId).Some? ==> CanStartInquiry(AddSentence(w, text, source, newId).value)
    ensures AddSentence(w, text, source, newId).None? ==> CanStartInquiry(w)
  {
  }
}
