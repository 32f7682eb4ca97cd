/** The application shell (src/App.tsx): which record is open, which sentence
    is under work and which screen shows, and how the completion callbacks of
    the screens move between them. The React state hooks become the fields
    of an `App` object; the record store is a `Store` object it shares. */
module App {
  import opened Types
  import Storage

  /** `s.completedQuestions < 4 || s.completedTurnarounds < 3` */
  function Incomplete(s: SentenceInquiry): (r: bool)
    ensures !r ==> ViewFor(s) == TurnaroundsMode
  {
    s.completedQuestions < 4 || s.completedTurnarounds < 3
  }

  /** The screen a sentence opens on: the questions while fewer than four are
      answered, the turnarounds after. */
  function ViewFor(s: SentenceInquiry): (r: ViewMode)
    ensures r == InquiryMode <==> s.completedQuestions < 4
    ensures r == InquiryMode || r == TurnaroundsMode
  {
    if s.completedQuestions < 4 then InquiryMode else TurnaroundsMode
  }

  /** `ss.slice(from).find(isIncomplete)`, as an index into `ss`: the first
      incomplete sentence at or after `from`. */
  function FirstIncompleteFrom(ss: seq<SentenceInquiry>, from: nat): (r: Option<nat>)
    ensures r.Some? ==> from <= r.value < |ss| && Incomplete(ss[r.value])
                        && forall j :: from <= j < r.value ==> !Incomplete(ss[j])
    ensures r.None? ==> forall j :: from <= j < |ss| ==> !Incomplete(ss[j])
    decreases |ss| - from
  {
    if from >= |ss| then None
    else if Incomplete(ss[from]) then Some(from)
    else FirstIncompleteFrom(ss, from + 1)
  }

  /** `ss.findIndex(s => s.id === id)`; a `null` id matches nothing. */
  function SentenceIndex(ss: seq<SentenceInquiry>, id: Option<string>): (r: int)
    ensures -1 <= r < |ss|
    ensures r >= 0 ==> Some(ss[r].id) == id && forall j :: 0 <= j < r ==> Some(ss[j].id) != id
    ensures r == -1 ==> forall j :: 0 <= j < |ss| ==> Some(ss[j].id) != id
  {
    if ss == [] then -1
    else if Some(ss[0].id) == id then 0
    else
      var k := SentenceIndex(ss[1..], id);
      if k < 0 then -1 else k + 1
  }

  /** `x || null` on a string: the empty string is falsy. */
  function TruthyId(id: string): (r: Option<string>)
    ensures r.Some? <==> id != ""
    ensures r.Some? ==> r.value == id
  {
    if id == "" then None else Some(id)
  }

  /** What the shell renders. */
  datatype Screen = DashboardScreen | FormScreen | SelectorScreen | InquiryScreen | TurnaroundScreen | Nothing

  /** The chain of `if`s at the end of `AppContent`: a screen other than the
      dashboard needs an open record, and the two sentence screens a truthy
      sentence id; otherwise nothing is rendered. */
  function ScreenOf(viewMode: ViewMode, currentWorksheet: Option<Worksheet>, currentSentenceId: Option<string>): (r: Screen)
    ensures r == DashboardScreen <==> viewMode == DashboardMode
    ensures currentWorksheet.None? ==> r == DashboardScreen || r == Nothing
  {
    var hasSentence := currentSentenceId.Some? && currentSentenceId.value != "";
    match viewMode
    case DashboardMode => DashboardScreen
    case WorksheetMode => if currentWorksheet.Some? then FormScreen else Nothing
    case SelectSentencesMode => if currentWorksheet.Some? then SelectorScreen else Nothing
    case InquiryMode => if currentWorksheet.Some? && hasSentence then InquiryScreen else Nothing
    case TurnaroundsMode => if currentWorksheet.Some? && hasSentence then TurnaroundScreen else Nothing
  }

  /** The shell renders nothing exactly when a screen other than the dashboard
      has no record open, or a sentence screen has no sentence id; the screen
      shown otherwise is the one the view names. */
  lemma ScreenFollowsView(v: ViewMode, cw: Option<Worksheet>, cid: Option<string>)
    ensures ScreenOf(v, cw, cid) == Nothing <==>
              (v != DashboardMode && cw.None?)
              || ((v == InquiryMode || v == TurnaroundsMode) && (cid.None? || cid.value == ""))
    ensures ScreenOf(v, cw, cid) == InquiryScreen ==> v == InquiryMode
    ensures ScreenOf(v, cw, cid) == TurnaroundScreen ==> v == TurnaroundsMode
    ensures v == DashboardMode <==> ScreenOf(v, cw, cid) == DashboardScreen
  {
  }

  /** Finishing the turnarounds of a sentence marks the whole record
      completed although an earlier sentence is still incomplete: the scan
      for the next sentence looks only forward. */
  lemma CompletionSkipsEarlierSentences()
    ensures var s0 := SentenceInquiry("a", "x", 1, None, None, None, None, None, None, [], 0, 0);
            var s1 := SentenceInquiry("b", "y", 1, None, None, None, None, None, None, [], 4, 3);
            var ss := [s0, s1];
            Incomplete(s0)
            && FirstIncompleteFrom(ss, SentenceIndex(ss, Some("b")) + 1) == None
  {
    var s0 := SentenceInquiry("a", "x", 1, None, None, None, None, None, None, [], 0, 0);
    var s1 := SentenceInquiry("b", "y", 1, None, None, None, None, None, None, [], 4, 3);
    var ss := [s0, s1];
    assert ss[1..] == [s1];
    assert SentenceIndex(ss, Some("b")) == 1;
  }

  /** The shell's state. `worksheets` is the dashboard's copy of the stored
      records; `store` holds them. */
  class AppContent {
    const store: Storage.Store
    var worksheets: seq<Worksheet>
    var currentWorksheet: Option<Worksheet>
    var currentSentenceId: Option<string>
    var viewMode: ViewMode

    /** Every screen but the dashboard has a record open. */
    ghost predicate Valid()
      reads this
    {
      viewMode != DashboardMode ==> currentWorksheet.Some?
    }

    /** The initial state once the mount effect has loaded the records. */
    constructor (s: Storage.Store)
      ensures store == s && worksheets == s.records
      ensures currentWorksheet == None && currentSentenceId == None && viewMode == DashboardMode
      ensures Valid()
    {
      store := s;
      worksheets := s.records;
      currentWorksheet := None;
      currentSentenceId := None;
      viewMode := DashboardMode;
    }

    /** `handleCreateWorksheet`: opens a blank record on the form; the record
        is not stored until its first edit. */
    method CreateWorksheet(id: string, createdAt: string, updatedAt: string)
      modifies this
      ensures currentWorksheet == Some(Storage.Create(id, createdAt, updatedAt))
      ensures viewMode == WorksheetMode && Valid()
      ensures worksheets == old(worksheets) && currentSentenceId == old(currentSentenceId)
    {
      currentWorksheet := Some(Storage.Create(id, createdAt, updatedAt));
      viewMode := WorksheetMode;
    }

    /** `handleSelectWorksheet`: opens the stored record with that id. With no
        sentences it shows the form; otherwise the first incomplete sentence,
        or, when all are complete, the first sentence's turnarounds. An
        unknown id changes nothing. */
    method SelectWorksheet(id: string)
      requires Valid()
      modifies this
      ensures Valid() && worksheets == old(worksheets)
      ensures Storage.GetById(store.records, id).None? ==>
                currentWorksheet == old(currentWorksheet) && currentSentenceId == old(currentSentenceId)
                && viewMode == old(viewMode)
      ensures Storage.GetById(store.records, id).Some? ==>
                var w := Storage.GetById(store.records, id).value;
                var i := FirstIncompleteFrom(w.sentences, 0);
                && currentWorksheet == Some(w)
                && (w.sentences == [] ==> viewMode == WorksheetMode && currentSentenceId == old(currentSentenceId))
                && (w.sentences != [] && i.Some? ==>
                      currentSentenceId == Some(w.sentences[i.value].id) && viewMode == ViewFor(w.sentences[i.value]))
                && (w.sentences != [] && i.None? ==>
                      currentSentenceId == TruthyId(w.sentences[0].id) && viewMode == TurnaroundsMode)
    {
      var found := Storage.GetById(store.records, id);
      if found.Some? {
        var w := found.value;
        currentWorksheet := found;
        if |w.sentences| == 0 {
          viewMode := WorksheetMode;
        } else {
          var i := FirstIncompleteFrom(w.sentences, 0);
          if i.Some? {
            var s := w.sentences[i.value];
            currentSentenceId := Some(s.id);
            if s.completedQuestions < 4 {
              viewMode := InquiryMode;
            } else {
              viewMode := TurnaroundsMode;
            }
          } else {
            currentSentenceId := TruthyId(w.sentences[0].id);
            viewMode := TurnaroundsMode;
          }
        }
      }
    }

    /** `handleUpdateWorksheet`: stores the record (stamped with `now`), keeps
        the stamped record open and reloads the dashboard's copy. */
    method UpdateWorksheet(w: Worksheet, now: string)
      requires Valid()
      modifies this, store
      ensures Valid()
      ensures store.records == Storage.Saved(old(store.records), w, now)
      ensures currentWorksheet == Some(w.(updatedAt := now)) && worksheets == store.records
      ensures Storage.GetById(worksheets, w.id) == currentWorksheet
      ensures currentSentenceId == old(currentSentenceId) && viewMode == old(viewMode)
    {
      var stamped := store.Save(w, now);
      currentWorksheet := Some(stamped);
      worksheets := store.records;
      Storage.SaveThenGet(old(store.records), w, now);
    }

    /** `handleWorksheetComplete`: from the form to sentence selection. */
    method WorksheetComplete()
      requires Valid()
      modifies this
      ensures Valid()
      ensures viewMode == if old(currentWorksheet).Some? then SelectSentencesMode else old(viewMode)
      ensures currentWorksheet == old(currentWorksheet) && currentSentenceId == old(currentSentenceId)
      ensures worksheets == old(worksheets)
    {
      if currentWorksheet.Some? {
        viewMode := SelectSentencesMode;
      }
    }

    /** `handleSentenceSelectionComplete`: with at least one sentence chosen,
        the inquiry starts on the first one; otherwise nothing happens. */
    method SentenceSelectionComplete()
      requires Valid()
      modifies this
      ensures Valid()
      ensures var go := old(currentWorksheet).Some? && |old(currentWorksheet).value.sentences| > 0;
              && (go ==> currentSentenceId == Some(old(currentWorksheet).value.sentences[0].id) && viewMode == InquiryMode)
              && (!go ==> currentSentenceId == old(currentSentenceId) && viewMode == old(viewMode))
      ensures currentWorksheet == old(currentWorksheet) && worksheets == old(worksheets)
    {
      if currentWorksheet.Some? && |currentWorksheet.value.sentences| > 0 {
        currentSentenceId := Some(currentWorksheet.value.sentences[0].id);
        viewMode := InquiryMode;
      }
    }

    /** `handleInquiryComplete`: on to the turnarounds, only while a record is
        open and a (non-empty) sentence id is set. */
    method InquiryComplete()
      requires Valid()
      modifies this
      ensures Valid()
      ensures var go := old(currentWorksheet).Some? && old(currentSentenceId).Some? && old(currentSentenceId).value != "";
              viewMode == if go then TurnaroundsMode else old(viewMode)
      ensures currentWorksheet == old(currentWorksheet) && currentSentenceId == old(currentSentenceId)
      ensures worksheets == old(worksheets)
    {
      if currentWorksheet.Some? && currentSentenceId.Some? && currentSentenceId.value != "" {
        viewMode := TurnaroundsMode;
      }
    }

    /** `handleTurnaroundComplete`: moves to the next incomplete sentence
        after the current one (from the start when the current id is not
        found); when there is none the record is stored as completed and the
        dashboard shows with no record open. */
    method TurnaroundComplete(now: string)
      requires Valid()
      modifies this, store
      ensures Valid()
      ensures old(currentWorksheet).None? ==>
                currentWorksheet == None && viewMode == old(viewMode) && currentSentenceId == old(currentSentenceId)
                && store.records == old(store.records) && worksheets == old(worksheets)
      ensures old(currentWorksheet).Some? ==>
                var w := old(currentWorksheet).value;
                var next := FirstIncompleteFrom(w.sentences, SentenceIndex(w.sentences, old(currentSentenceId)) + 1);
                && (next.Some? ==>
                      && currentSentenceId == Some(w.sentences[next.value].id)
                      && viewMode == ViewFor(w.sentences[next.value])
                      && currentWorksheet == old(currentWorksheet)
                      && store.records == old(store.records) && worksheets == old(worksheets))
                && (next.None? ==>
                      && store.records == Storage.Saved(old(store.records), w.(status := Completed), now)
                      && Storage.GetById(store.records, w.id) == Some(w.(status := Completed, updatedAt := now))
                      && worksheets == store.records
                      && viewMode == DashboardMode && currentWorksheet == None
                      && currentSentenceId == old(currentSentenceId))
    {
      if currentWorksheet.None? {
        return;
      }
      var w := currentWorksheet.value;
      var currentIndex := SentenceIndex(w.sentences, currentSentenceId);
      var next := FirstIncompleteFrom(w.sentences, currentIndex + 1);
      if next.Some? {
        var s := w.sentences[next.value];
        currentSentenceId := Some(s.id);
        if s.completedQuestions < 4 {
          viewMode := InquiryMode;
        } else {
          viewMode := TurnaroundsMode;
        }
      } else {
        var updated := w.(status := Completed);
        UpdateWorksheet(updated, now);
        viewMode := DashboardMode;
        currentWorksheet := None;
      }
    }

    /** `handleSelectSentence`: the id is always taken; the screen changes
        only when the open record has a sentence with that id. */
    method SelectSentence(id: string)
      requires Valid()
      modifies this
      ensures Valid()
      ensures currentSentenceId == Some(id)
      ensures var k := if old(currentWorksheet).Some? then SentenceIndex(old(currentWorksheet).value.sentences, Some(id)) else -1;
              viewMode == if k >= 0 then ViewFor(old(currentWorksheet).value.sentences[k]) else old(viewMode)
      ensures currentWorksheet == old(currentWorksheet) && worksheets == old(worksheets)
    {
      currentSentenceId := Some(id);
      if currentWorksheet.Some? {
        var k := SentenceIndex(currentWorksheet.value.sentences, Some(id));
        if k >= 0 {
          var sentence := currentWorksheet.value.sentences[k];
          if sentence.completedQuestions < 4 {
            viewMode := InquiryMode;
          } else {
            viewMode := TurnaroundsMode;
          }
        }
      }
    }

    /** `handleBackToDashboard`: back to the dashboard with nothing open. */
    method BackToDashboard()
      modifies this
      ensures viewMode == DashboardMode && currentWorksheet == None && currentSentenceId == None
      ensures worksheets == old(worksheets) && Valid()
    {
      viewMode := DashboardMode;
      currentWorksheet := None;
      currentSentenceId := None;
    }

    /** The sentence selector's back button: to the form. */
    method BackToWorksheetForm()
      requires Valid() && viewMode == SelectSentencesMode
      modifies this
      ensures viewMode == WorksheetMode && Valid()
      ensures currentWorksheet == old(currentWorksheet) && currentSentenceId == old(currentSentenceId)
      ensures worksheets == old(worksheets)
    {
      viewMode := WorksheetMode;
    }

    /** The turnaround screen's back button: to the questions of the same
        sentence. */
    method BackToQuestions()
      requires Valid() && viewMode == TurnaroundsMode
      modifies this
      ensures viewMode == InquiryMode && Valid()
      ensures currentWorksheet == old(currentWorksheet) && currentSentenceId == old(currentSentenceId)
      ensures worksheets == old(worksheets)
    {
      viewMode := InquiryMode;
    }

    /** What is on screen. In every state the shell reaches, the form and the
        selector always have a record to render; nothing is rendered only
        when a sentence screen has no sentence id. */
    function CurrentScreen(): (r: Screen)
      reads this
      ensures Valid() && viewMode == WorksheetMode ==> r == FormScreen
      ensures Valid() && viewMode == SelectSentencesMode ==> r == SelectorScreen
      ensures Valid() && r == Nothing ==> currentSentenceId.None? || currentSentenceId.value == ""
    {
      ScreenOf(viewMode, currentWorksheet, currentSentenceId)
    }
  }
}
