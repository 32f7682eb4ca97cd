/** The dashboard's helpers (src/components/Dashboard.tsx): the status and
    search filter over the records, the card title cut from the first
    question, and the two progress counters on each card. */
module Dashboard {
  import opened Types
  import Storage
  import InquiryProcess
  import TurnaroundProcess

  // ---------------------------------------------------------------------
  // Strings: `join`, `toLowerCase`, `includes`, `split('.')[0]`

  /** `items.join(sep)` */
  function Join(items: seq<string>, sep: string): string
  {
    if items == [] then ""
    else if |items| == 1 then items[0]
    else items[0] + sep + Join(items[1..], sep)
  }

  /** `toLowerCase` on one character, for the ASCII letters. */
  function LowerChar(c: char): char
  {
    if 'A' <= c <= 'Z' then (c as int + 32) as char else c
  }

  /** `s.toLowerCase()` */
  function Lower(s: string): (r: string)
    ensures |r| == |s|
    ensures forall i :: 0 <= i < |s| ==> r[i] == LowerChar(s[i])
  {
    seq(|s|, i requires 0 <= i < |s| => LowerChar(s[i]))
  }

  /** `hay.includes(needle)` */
  predicate Contains(hay: string, needle: string)
    decreases |hay|
  {
    needle <= hay || (hay != [] && Contains(hay[1..], needle))
  }

  /** Lower-casing twice is lower-casing once. */
  lemma LowerIdempotent(s: string)
    ensures Lower(Lower(s)) == Lower(s)
  {
    assert forall i :: 0 <= i < |s| ==> LowerChar(LowerChar(s[i])) == LowerChar(s[i]);
  }

  /** A substring stays a substring once both sides are lower-cased. */
  lemma {:induction false} ContainsLower(hay: string, needle: string)
    requires Contains(hay, needle)
    ensures Contains(Lower(hay), Lower(needle))
    decreases |hay|
  {
    if needle <= hay {
      assert Lower(needle) <= Lower(hay) by {
        assert forall i :: 0 <= i < |needle| ==> Lower(hay)[i] == LowerChar(needle[i]);
      }
    } else {
      ContainsLower(hay[1..], needle);
      assert Lower(hay)[1..] == Lower(hay[1..]);
    }
  }

  // ---------------------------------------------------------------------
  // The filter

  /** The filter buttons: `'all'` or one status. */
  datatype StatusFilter = All | Only(status: Status)

  /** `filter === 'all' || w.status === filter` */
  predicate MatchesFilter(filter: StatusFilter, w: Worksheet)
  {
    filter.All? || w.status == filter.status
  }

  /** The text searched in one question field: a list joined with spaces, a
      legacy string as it is, a missing field as the empty string
      (`String(v || '')`). */
  function SearchText(f: Storage.RawField): string
  {
    match f
    case List(items) => Join(items, " ")
    case Text(s) => s
    case Absent => ""
  }

  /** A field searches the same before and after migration, so the legacy
      branch of the search and the migrated list agree. */
  lemma SearchTextSurvivesMigration(f: Storage.RawField)
    ensures SearchText(Storage.List(Storage.MigrateField(f))) == SearchText(f)
  {
  }

  /** `matchesSearch`: an empty query matches everything; otherwise the
      lower-cased query must occur in the lower-cased text of question 1 or
      of question 5. */
  predicate MatchesSearch(w: Worksheet, query: string)
  {
    query == ""
    || Contains(Lower(SearchText(Storage.List(w.question1))), Lower(query))
    || Contains(Lower(SearchText(Storage.List(w.question5))), Lower(query))
  }

  predicate Shown(filter: StatusFilter, query: string, w: Worksheet)
  {
    MatchesFilter(filter, w) && MatchesSearch(w, query)
  }

  /** `filteredWorksheets` */
  function FilteredWorksheets(ws: seq<Worksheet>, filter: StatusFilter, query: string): (r: seq<Worksheet>)
    ensures forall w :: w in r <==> w in ws && MatchesFilter(filter, w) && MatchesSearch(w, query)
  {
    Filter(ws, (w: Worksheet) => Shown(filter, query, w))
  }

  /** The filtered list keeps the records in their order; with `all` and an
      empty query it is the whole list. */
  lemma FilteredIsSubsequence(ws: seq<Worksheet>, filter: StatusFilter, query: string)
    ensures IsSubsequence(FilteredWorksheets(ws, filter, query), ws)
    ensures filter == All && query == "" ==> FilteredWorksheets(ws, filter, query) == ws
  {
    FilterIsSubsequence(ws, (w: Worksheet) => Shown(filter, query, w));
    if filter == All && query == "" {
      FilterAll(ws, (w: Worksheet) => Shown(filter, query, w));
    }
  }

  /** The search ignores case: a query finds the same records as its
      lower-cased form, and a record whose question 1 or 5 text contains the
      query verbatim is found. */
  lemma SearchIgnoresCase(w: Worksheet, query: string)
    ensures MatchesSearch(w, Lower(query)) <==> MatchesSearch(w, query)
    ensures (Contains(Join(w.question1, " "), query) || Contains(Join(w.question5, " "), query))
              ==> MatchesSearch(w, query)
  {
    LowerIdempotent(query);
    if Contains(Join(w.question1, " "), query) {
      ContainsLower(Join(w.question1, " "), query);
    }
    if Contains(Join(w.question5, " "), query) {
      ContainsLower(Join(w.question5, " "), query);
    }
  }

  /** With an empty query the in-progress and the completed tabs split the
      records between them. */
  lemma {:induction false} StatusTabsPartition(ws: seq<Worksheet>)
    ensures |FilteredWorksheets(ws, Only(InProgress), "")| + |FilteredWorksheets(ws, Only(Completed), "")| == |ws|
  {
    if ws != [] {
      StatusTabsPartition(ws[1..]);
    }
  }

  // ---------------------------------------------------------------------
  // The card title

  /** `text.split('.')[0]`: the text before the first full stop. */
  function BeforeDot(s: string): (r: string)
    ensures r <= s && '.' !in r
    ensures |r| < |s| ==> s[|r|] == '.'
  {
    if s == [] || s[0] == '.' then [] else [s[0]] + BeforeDot(s[1..])
  }

  /** The 50-character cut with the ellipsis. */
  function Shorten(p: string): (r: string)
    ensures |r| <= 53
    ensures |p| <= 50 ==> r == p
    ensures |p| > 50 ==> r == p[..50] + "..."
  {
    if |p| > 50 then p[..50] + "..." else p
  }

  predicate NonBlank(s: string)
  {
    !IsBlank(s)
  }

  /** `getFirstSentence`: the non-blank entries joined with `'. '`, cut at the
      first full stop and shortened to 50 characters and an ellipsis; the
      empty string when no entry is filled. */
  function FirstSentence(question1: seq<string>): (r: string)
    ensures |r| <= 53
    ensures (forall e :: e in question1 ==> IsBlank(e)) ==> r == ""
  {
    var filled := Filter(question1, NonBlank);
    assert filled != [] ==> filled[0] in filled;
    var text := Join(filled, ". ");
    if text == "" then "" else Shorten(BeforeDot(text))
  }

  lemma {:induction false} FilterSkipsLeading<T>(s: seq<T>, p: T -> bool, i: int)
    requires 0 <= i < |s| && p(s[i])
    requires forall j :: 0 <= j < i ==> !p(s[j])
    ensures Filter(s, p) == [s[i]] + Filter(s[i + 1..], p)
  {
    if i > 0 {
      assert s[1..][i - 1] == s[i];
      assert s[1..][i..] == s[i + 1..];
      FilterSkipsLeading(s[1..], p, i - 1);
    }
  }

  lemma {:induction false} BeforeDotAppend(a: string, b: string)
    requires b != [] && b[0] == '.'
    ensures BeforeDot(a + b) == BeforeDot(a)
  {
    if a != [] && a[0] != '.' {
      assert (a + b)[1..] == a[1..] + b;
      BeforeDotAppend(a[1..], b);
    } else if a != [] {
      assert (a + b)[0] == '.';
    }
  }

  /** The title is the first sentence of the first filled entry: later
      entries never show in it. */
  lemma FirstSentenceOfFirstEntry(question1: seq<string>, i: int)
    requires 0 <= i < |question1| && !IsBlank(question1[i])
    requires forall j :: 0 <= j < i ==> IsBlank(question1[j])
    ensures FirstSentence(question1) == Shorten(BeforeDot(question1[i]))
  {
    var e := question1[i];
    var rest := Filter(question1[i + 1..], NonBlank);
    FilterSkipsLeading(question1, NonBlank, i);
    assert e != "" by { assert Trim("") == ""; }
    var text := Join([e] + rest, ". ");
    if rest != [] {
      assert ([e] + rest)[1..] == rest;
      assert text == e + (". " + Join(rest, ". "));
      BeforeDotAppend(e, ". " + Join(rest, ". "));
    }
  }

  /** An entry that starts with a full stop yields an empty title although
      it is filled, so the card shows the "untitled" label. */
  lemma LeadingDotGivesEmptyTitle()
    ensures !IsBlank(".abc") && FirstSentence([".abc"]) == ""
  {
    var q := [".abc"];
    assert TrimStart(".abc") == ".abc";
    assert TrimEnd(".abc") == ".abc";
    FirstSentenceOfFirstEntry(q, 0);
  }

  // ---------------------------------------------------------------------
  // The counters on a card

  function TurnaroundsOf(s: SentenceInquiry): int
  {
    |s.turnarounds|
  }

  function CompletedQuestionsOf(s: SentenceInquiry): int
  {
    s.completedQuestions
  }

  function CompletedTurnaroundsOf(s: SentenceInquiry): int
  {
    s.completedTurnarounds
  }

  /** `getTurnaroundCount`: every turnaround of every sentence, finished or
      not. */
  function TurnaroundCount(w: Worksheet): (r: int)
    ensures r >= 0
    ensures r == 0 <==> forall s :: s in w.sentences ==> s.turnarounds == []
  {
    SumZero(w.sentences, TurnaroundsOf);
    Sum(w.sentences, TurnaroundsOf)
  }

  /** The questions-answered figure: the sum of the sentences' counters. */
  function QuestionsAnswered(w: Worksheet): (r: int)
    ensures (forall s :: s in w.sentences ==> s.completedQuestions >= 0) ==>
              r >= 0 && (r == 0 <==> forall s :: s in w.sentences ==> s.completedQuestions == 0)
  {
    if forall s :: s in w.sentences ==> s.completedQuestions >= 0 then
      SumZero(w.sentences, CompletedQuestionsOf);
      Sum(w.sentences, CompletedQuestionsOf)
    else
      Sum(w.sentences, CompletedQuestionsOf)
  }

  /** When every counter agrees with its answers, the card shows between 0
      and `4 × sentences` questions answered. */
  lemma QuestionsAnsweredBounded(w: Worksheet)
    requires forall s :: s in w.sentences ==> InquiryProcess.QuestionsConsistent(s)
    ensures 0 <= QuestionsAnswered(w) <= 4 * |w.sentences|
  {
    forall s | s in w.sentences ensures 0 <= CompletedQuestionsOf(s) <= 4 {
      InquiryProcess.CountAnsweredBounds(s);
    }
    SumBounded(w.sentences, CompletedQuestionsOf, 0, 4);
  }

  /** The turnaround figure counts at least the finished turnarounds the
      counters record. */
  lemma TurnaroundCountCoversCompleted(w: Worksheet)
    requires forall s :: s in w.sentences ==> TurnaroundProcess.TurnaroundsConsistent(s)
    ensures Sum(w.sentences, CompletedTurnaroundsOf) <= TurnaroundCount(w)
  {
    forall s | s in w.sentences ensures CompletedTurnaroundsOf(s) <= TurnaroundsOf(s) {
      TurnaroundProcess.CountDoneBounds(s.turnarounds);
    }
    SumMonotone(w.sentences, CompletedTurnaroundsOf, TurnaroundsOf);
  }

  /** The turnaround figure is not capped at `3 × sentences`: one sentence
      with four turnarounds shows 4/3. */
  lemma TurnaroundCountUncapped()
    ensures var t := Turnaround("t", ToSelf, "", []);
            var s := TurnaroundProcess.WithNewTurnaround(
                       SentenceInquiry("s", "x", 1, None, None, None, None, None, None, [t, t, t], 0, 0), ToOther, "u");
            var w := Worksheet("w", "", "", InProgress, [""], [""], [""], [""], [""], [""], [s]);
            TurnaroundCount(w) == 4 > 3 * |w.sentences|
  {
    var t := Turnaround("t", ToSelf, "", []);
    var s := TurnaroundProcess.WithNewTurnaround(
               SentenceInquiry("s", "x", 1, None, None, None, None, None, None, [t, t, t], 0, 0), ToOther, "u");
    assert |s.turnarounds| == 4;
    var w := Worksheet("w", "", "", InProgress, [""], [""], [""], [""], [""], [""], [s]);
    assert [s][..0] == [];
    assert Sum([s], TurnaroundsOf) == Sum([s][..0], TurnaroundsOf) + TurnaroundsOf(s);
    assert TurnaroundCount(w) == 4;
  }
}
