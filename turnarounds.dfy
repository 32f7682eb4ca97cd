/** The turnaround stage of one sentence (src/components/TurnaroundProcess.tsx):
    adding, re-texting and removing turnarounds, adding and removing their
    examples, and the `completedTurnarounds` counter some of these refresh.
    Every operation builds a new worksheet for `onChange`. */
module TurnaroundProcess {
  import opened Types

  /** `t.text && t.examples.length >= 1`: the text is only tested for being
      non-empty, without trimming. */
  predicate TurnaroundDone(t: Turnaround)
  {
    t.text != "" && |t.examples| >= 1
  }

  /** The count stored as `completedTurnarounds`; no cap at 3 is applied. */
  function CountDone(ts: seq<Turnaround>): nat
  {
    |Filter(ts, TurnaroundDone)|
  }

  /** The cached counter agrees with the turnarounds. */
  predicate TurnaroundsConsistent(s: SentenceInquiry)
  {
    s.completedTurnarounds == CountDone(s.turnarounds)
  }

  /** `{ ...s, completedTurnarounds: completed }` after an example or
      turnaround edit. */
  function Recount(s: SentenceInquiry): (r: SentenceInquiry)
    ensures TurnaroundsConsistent(r) && r.completedTurnarounds <= |r.turnarounds|
    ensures r.(completedTurnarounds := s.completedTurnarounds) == s
  {
    s.(completedTurnarounds := CountDone(s.turnarounds))
  }

  /** `ts.map(t => t.id === id ? f(t) : t)` */
  function MapTurnarounds(ts: seq<Turnaround>, id: string, f: Turnaround -> Turnaround): (r: seq<Turnaround>)
    ensures |r| == |ts|
    ensures forall j :: 0 <= j < |ts| ==> r[j] == if ts[j].id == id then f(ts[j]) else ts[j]
  {
    seq(|ts|, j requires 0 <= j < |ts| => if ts[j].id == id then f(ts[j]) else ts[j])
  }

  // ---------------------------------------------------------------------
  // The edits on one sentence

  /** `addTurnaround` on the current sentence: exactly one empty turnaround of
      the given type is appended; the counter is left as it was. */
  function WithNewTurnaround(s: SentenceInquiry, kind: TurnaroundType, newId: string): (r: SentenceInquiry)
    ensures |r.turnarounds| == |s.turnarounds| + 1 && r.turnarounds[..|s.turnarounds|] == s.turnarounds
    ensures r.turnarounds[|s.turnarounds|] == Turnaround(newId, kind, "", [])
    ensures r.(turnarounds := s.turnarounds) == s
  {
    s.(turnarounds := s.turnarounds + [Turnaround(newId, kind, "", [])])
  }

  /** `updateTurnaroundText` on the current sentence: the text of every
      turnaround with that id is replaced; the counter is NOT recomputed. */
  function WithTurnaroundText(s: SentenceInquiry, turnaroundId: string, text: string): (r: SentenceInquiry)
    ensures |r.turnarounds| == |s.turnarounds|
    ensures forall j :: 0 <= j < |s.turnarounds| ==>
              if s.turnarounds[j].id == turnaroundId
              then r.turnarounds[j] == s.turnarounds[j].(text := text)
              else r.turnarounds[j] == s.turnarounds[j]
    ensures r.(turnarounds := s.turnarounds) == s
  {
    s.(turnarounds := MapTurnarounds(s.turnarounds, turnaroundId, (t: Turnaround) => t.(text := text)))
  }

  /** `addExample` on the current sentence with an already trimmed example:
      appended to the end of the matching turnaround's examples, then recount. */
  function WithExampleAdded(s: SentenceInquiry, turnaroundId: string, example: string): (r: SentenceInquiry)
    ensures |r.turnarounds| == |s.turnarounds|
    ensures forall j :: 0 <= j < |s.turnarounds| ==>
              if s.turnarounds[j].id == turnaroundId
              then r.turnarounds[j] == s.turnarounds[j].(examples := s.turnarounds[j].examples + [example])
              else r.turnarounds[j] == s.turnarounds[j]
    ensures TurnaroundsConsistent(r)
    ensures r.(turnarounds := s.turnarounds, completedTurnarounds := s.completedTurnarounds) == s
  {
    Recount(s.(turnarounds := MapTurnarounds(s.turnarounds, turnaroundId, (t: Turnaround) => t.(examples := t.examples + [example]))))
  }

  /** `removeExample` on the current sentence: the example at `index` of the
      matching turnaround is dropped (nothing when out of range), then recount. */
  function WithExampleRemoved(s: SentenceInquiry, turnaroundId: string, index: int): (r: SentenceInquiry)
    ensures |r.turnarounds| == |s.turnarounds|
    ensures forall j :: 0 <= j < |s.turnarounds| ==>
              if s.turnarounds[j].id == turnaroundId
              then r.turnarounds[j] == s.turnarounds[j].(examples := RemoveAt(s.turnarounds[j].examples, index))
              else r.turnarounds[j] == s.turnarounds[j]
    ensures TurnaroundsConsistent(r)
    ensures r.(turnarounds := s.turnarounds, completedTurnarounds := s.completedTurnarounds) == s
  {
    Recount(s.(turnarounds := MapTurnarounds(s.turnarounds, turnaroundId, (t: Turnaround) => t.(examples := RemoveAt(t.examples, index)))))
  }

  /** The turnarounds of a sentence without those carrying `turnaroundId`. */
  function WithoutId(ts: seq<Turnaround>, turnaroundId: string): (r: seq<Turnaround>)
  {
    Filter(ts, (t: Turnaround) => t.id != turnaroundId)
  }

  /** `removeTurnaround` on the current sentence: every turnaround with that id
      goes, the others stay in order, then recount. */
  function WithTurnaroundRemoved(s: SentenceInquiry, turnaroundId: string): (r: SentenceInquiry)
    ensures forall t :: t in r.turnarounds ==> t.id != turnaroundId && t in s.turnarounds
    ensures forall t :: t in s.turnarounds && t.id != turnaroundId ==> t in r.turnarounds
    ensures IsSubsequence(r.turnarounds, s.turnarounds)
    ensures forall t :: multiset(r.turnarounds)[t] == if t.id != turnaroundId then multiset(s.turnarounds)[t] else 0
    ensures TurnaroundsConsistent(r)
    ensures r.(turnarounds := s.turnarounds, completedTurnarounds := s.completedTurnarounds) == s
  {
    FilterIsSubsequence(s.turnarounds, (t: Turnaround) => t.id != turnaroundId);
    FilterMultiplicity(s.turnarounds, (t: Turnaround) => t.id != turnaroundId);
    Recount(s.(turnarounds := WithoutId(s.turnarounds, turnaroundId)))
  }

  // ---------------------------------------------------------------------
  // The handlers: the edit applied to every sentence with the current id

  /** `addTurnaround(type)`: a new empty turnaround of that type on the
      current sentence; the counter is not touched. */
  function AddTurnaround(w: Worksheet, currentSentenceId: string, kind: TurnaroundType, newId: string): (r: Worksheet)
    ensures r == w.(sentences := r.sentences) && |r.sentences| == |w.sentences|
    ensures forall i :: 0 <= i < |w.sentences| ==>
              r.sentences[i] == if w.sentences[i].id == currentSentenceId then WithNewTurnaround(w.sentences[i], kind, newId) else w.sentences[i]
  {
    w.(sentences := UpdateSentences(w.sentences, currentSentenceId, s => WithNewTurnaround(s, kind, newId)))
  }

  /** `updateTurnaroundText(turnaroundId, text)`: re-texts the turnaround on
      the current sentence; the counter is not recomputed. */
  function UpdateTurnaroundText(w: Worksheet, currentSentenceId: string, turnaroundId: string, text: string): (r: Worksheet)
    ensures r == w.(sentences := r.sentences) && |r.sentences| == |w.sentences|
    ensures forall i :: 0 <= i < |w.sentences| ==>
              r.sentences[i] == if w.sentences[i].id == currentSentenceId then WithTurnaroundText(w.sentences[i], turnaroundId, text) else w.sentences[i]
  {
    w.(sentences := UpdateSentences(w.sentences, currentSentenceId, s => WithTurnaroundText(s, turnaroundId, text)))
  }

  /** `addExample(turnaroundId)` with the pending input `pending`
      (`newExample[turnaroundId]`): no change at all (`None`, no `onChange`)
      when the input is missing or blank; otherwise its trimmed text is added. */
  function AddExample(w: Worksheet, currentSentenceId: string, turnaroundId: string, pending: Option<string>): (r: Option<Worksheet>)
    ensures r.None? <==> pending.None? || IsBlank(pending.value)
    ensures r.Some? ==>
              && Trim(pending.value) != ""
              && r.value == w.(sentences := UpdateSentences(w.sentences, currentSentenceId,
                                            s => WithExampleAdded(s, turnaroundId, Trim(pending.value))))
  {
    if pending.None? then None
    else
      var example := Trim(pending.value);
      if example == "" then None
      else Some(w.(sentences := UpdateSentences(w.sentences, currentSentenceId, s => WithExampleAdded(s, turnaroundId, example))))
  }

  /** `removeExample(turnaroundId, index)`: drops one example of the
      turnaround on the current sentence and recounts. */
  function RemoveExample(w: Worksheet, currentSentenceId: string, turnaroundId: string, index: int): (r: Worksheet)
    ensures r == w.(sentences := r.sentences) && |r.sentences| == |w.sentences|
    ensures forall i :: 0 <= i < |w.sentences| ==>
              r.sentences[i] == if w.sentences[i].id == currentSentenceId then WithExampleRemoved(w.sentences[i], turnaroundId, index) else w.sentences[i]
  {
    w.(sentences := UpdateSentences(w.sentences, currentSentenceId, s => WithExampleRemoved(s, turnaroundId, index)))
  }

  /** `removeTurnaround(turnaroundId)`: drops the turnaround from the
      current sentence and recounts. */
  function RemoveTurnaround(w: Worksheet, currentSentenceId: string, turnaroundId: string): (r: Worksheet)
    ensures r == w.(sentences := r.sentences) && |r.sentences| == |w.sentences|
    ensures forall i :: 0 <= i < |w.sentences| ==>
              r.sentences[i] == if w.sentences[i].id == currentSentenceId then WithTurnaroundRemoved(w.sentences[i], turnaroundId) else w.sentences[i]
  {
    w.(sentences := UpdateSentences(w.sentences, currentSentenceId, s => WithTurnaroundRemoved(s, turnaroundId)))
  }

  // ---------------------------------------------------------------------
  // Queries and gates

  /** `getTurnaroundsByType` */
  function ByType(ts: seq<Turnaround>, kind: TurnaroundType): (r: seq<Turnaround>)
    ensures forall t :: t in r <==> t in ts && t.kind == kind
  {
    Filter(ts, (t: Turnaround) => t.kind == kind)
  }

  /** The "add" button of a type is shown only while no turnaround of that
      type exists. */
  function AddOffered(s: SentenceInquiry, kind: TurnaroundType): (r: bool)
    ensures r <==> forall t :: t in s.turnarounds ==> t.kind != kind
  {
    var of := ByType(s.turnarounds, kind);
    assert |of| > 0 ==> of[0] in of;
    |of| == 0
  }

  /** `allTurnaroundsComplete`: at least three turnarounds, each with text and
      an example. It only picks the label of the button; the button calls
      `onComplete` either way. */
  function AllTurnaroundsComplete(s: SentenceInquiry): (r: bool)
    ensures r ==> CountDone(s.turnarounds) == |s.turnarounds| >= 3
  {
    if |s.turnarounds| >= 3 && forall t :: t in s.turnarounds ==> TurnaroundDone(t) then
      FilterAll(s.turnarounds, TurnaroundDone);
      true
    else
      false
  }

  // ---------------------------------------------------------------------
  // Properties

  /** The counter never exceeds the number of turnarounds, and a turnaround
      that is done is counted. */
  lemma CountDoneBounds(ts: seq<Turnaround>)
    ensures CountDone(ts) <= |ts|
    ensures (exists t :: t in ts && TurnaroundDone(t)) ==> CountDone(ts) >= 1
  {
    if exists t :: t in ts && TurnaroundDone(t) {
      var t :| t in ts && TurnaroundDone(t);
      assert t in Filter(ts, TurnaroundDone);
    }
  }

  /** Every handler that recounts leaves the edited sentences consistent. */
  lemma RecountingHandlersConsistent(w: Worksheet, id: string, tid: string, index: int, pending: Option<string>)
    ensures forall s :: s in RemoveExample(w, id, tid, index).sentences && s.id == id ==> TurnaroundsConsistent(s)
    ensures forall s :: s in RemoveTurnaround(w, id, tid).sentences && s.id == id ==> TurnaroundsConsistent(s)
    ensures AddExample(w, id, tid, pending).Some? ==>
              forall s :: s in AddExample(w, id, tid, pending).value.sentences && s.id == id ==> TurnaroundsConsistent(s)
  {
  }

  /** Each handler edits only the sentences carrying the current id; every
      other sentence, the six lists and the record's own fields stay as they
      were. */
  lemma HandlersEditOnlyCurrentSentence(w: Worksheet, id: string, kind: TurnaroundType, newId: string,
                                        tid: string, text: string, index: int, pending: Option<string>, i: int)
    requires 0 <= i < |w.sentences| && w.sentences[i].id != id
    ensures var r := AddTurnaround(w, id, kind, newId);
            r == w.(sentences := r.sentences) && |r.sentences| == |w.sentences| && r.sentences[i] == w.sentences[i]
    ensures var r := UpdateTurnaroundText(w, id, tid, text);
            r == w.(sentences := r.sentences) && |r.sentences| == |w.sentences| && r.sentences[i] == w.sentences[i]
    ensures var r := RemoveExample(w, id, tid, index);
            r == w.(sentences := r.sentences) && |r.sentences| == |w.sentences| && r.sentences[i] == w.sentences[i]
    ensures var r := RemoveTurnaround(w, id, tid);
            r == w.(sentences := r.sentences) && |r.sentences| == |w.sentences| && r.sentences[i] == w.sentences[i]
    ensures AddExample(w, id, tid, pending).Some? ==>
              var r := AddExample(w, id, tid, pending).value;
              r == w.(sentences := r.sentences) && |r.sentences| == |w.sentences| && r.sentences[i] == w.sentences[i]
  {
  }

  /** When the button reads "complete" and the counter is up to date, the
      sentence no longer counts as lacking turnarounds (counter >= 3). */
  lemma CompleteLabelMeansCounterAtLeastThree(s: SentenceInquiry)
    requires TurnaroundsConsistent(s) && AllTurnaroundsComplete(s)
    ensures s.completedTurnarounds >= 3
  {
    FilterAll(s.turnarounds, TurnaroundDone);
  }

  /** The converse fails: with four turnarounds of which three are done, the
      counter reads 3 while the button still reads "continue later". */
  lemma CounterCanPassWithoutCompleteLabel()
    ensures var done := Turnaround("a", ToOpposite, "x", ["e"]);
            var open := Turnaround("d", ToSelf, "", []);
            var ts := [done, done.(id := "b"), done.(id := "c"), open];
            CountDone(ts) == 3 && !(forall t :: t in ts ==> TurnaroundDone(t))
  {
    var done := Turnaround("a", ToOpposite, "x", ["e"]);
    var open := Turnaround("d", ToSelf, "", []);
    var ts := [done, done.(id := "b"), done.(id := "c"), open];
    assert ts[1..] == [done.(id := "b"), done.(id := "c"), open];
    assert ts[1..][1..] == [done.(id := "c"), open];
    assert ts[1..][1..][1..] == [open];
    assert Filter([open], TurnaroundDone) == [];
    assert Filter([done.(id := "c"), open], TurnaroundDone) == [done.(id := "c")];
    assert Filter([done.(id := "b"), done.(id := "c"), open], TurnaroundDone) == [done.(id := "b"), done.(id := "c")];
    assert Filter(ts, TurnaroundDone) == [done, done.(id := "b"), done.(id := "c")];
  }

  /** Re-texting does not refresh the counter, which can go stale: clearing
      the text of the only done turnaround leaves the counter at 1. */
  lemma RetextLeavesCounterStale()
    ensures var t := Turnaround("t", ToOther, "text", ["e"]);
            var s := SentenceInquiry("s", "x", 1, None, None, None, None, None, None, [t], 0, 1);
            var r := WithTurnaroundText(s, "t", "");
            TurnaroundsConsistent(s) && !TurnaroundsConsistent(r)
  {
    var t := Turnaround("t", ToOther, "text", ["e"]);
    var s := SentenceInquiry("s", "x", 1, None, None, None, None, None, None, [t], 0, 1);
    var r := WithTurnaroundText(s, "t", "");
    assert Filter([t], TurnaroundDone) == [t];
    assert r.turnarounds == [t.(text := "")];
    assert Filter(r.turnarounds, TurnaroundDone) == [];
  }

  /** Once a turnaround of a type is added, the "add" button of that type is
      no longer offered. */
  lemma AddWithdrawsOffer(s: SentenceInquiry, kind: TurnaroundType, newId: string)
    ensures !AddOffered(WithNewTurnaround(s, kind, newId), kind)
  {
    var r := WithNewTurnaround(s, kind, newId);
    assert r.turnarounds[|s.turnarounds|] in r.turnarounds;
  }

  /** Removing a freshly added turnaround undoes the addition: the sentence is
      back where it was, up to a refreshed counter. */
  lemma RemoveUndoesAdd(s: SentenceInquiry, kind: TurnaroundType, newId: string)
    requires forall t :: t in s.turnarounds ==> t.id != newId
    ensures WithTurnaroundRemoved(WithNewTurnaround(s, kind, newId), newId) == Recount(s)
  {
    var p := (t: Turnaround) => t.id != newId;
    var added := Turnaround(newId, kind, "", []);
    FilterSnoc(s.turnarounds, added, p);
    FilterAll(s.turnarounds, p);
    assert WithoutId(s.turnarounds + [added], newId) == s.turnarounds;
  }

  /** The same at the level of the worksheet: when the current sentence's
      counter was up to date, add-then-remove gives back the very worksheet. */
  lemma RemoveTurnaroundUndoesAdd(w: Worksheet, id: string, kind: TurnaroundType, newId: string)
    requires forall s :: s in w.sentences && s.id == id ==>
               TurnaroundsConsistent(s) && forall t :: t in s.turnarounds ==> t.id != newId
    ensures RemoveTurnaround(AddTurnaround(w, id, kind, newId), id, newId) == w
  {
    var a := AddTurnaround(w, id, kind, newId);
    var r := RemoveTurnaround(a, id, newId);
    assert |r.sentences| == |w.sentences|;
    forall i | 0 <= i < |w.sentences|
      ensures r.sentences[i] == w.sentences[i]
    {
      if w.sentences[i].id == id {
        assert a.sentences[i] == WithNewTurnaround(w.sentences[i], kind, newId);
        assert r.sentences[i] == WithTurnaroundRemoved(a.sentences[i], newId);
        RemoveUndoesAdd(w.sentences[i], kind, newId);
      } else {
        assert a.sentences[i] == w.sentences[i];
      }
    }
    assert r.sentences == w.sentences;
  }
}
