/** Record shapes of the worksheet journal (src/types/index.ts) together with the
    string and sequence helpers every component uses: JavaScript's `trim`,
    `filter` and `reduce` over records. */
module Types {

  datatype Option<T> = None | Some(value: T)

  /** `WorksheetData.status` */
  datatype Status = InProgress | Completed

  /** `ViewMode`: which screen the application shows. */
  datatype ViewMode = DashboardMode | WorksheetMode | SelectSentencesMode | InquiryMode | TurnaroundsMode

  /** `Turnaround.type` ('to-opposite' | 'to-other' | 'to-self') */
  datatype TurnaroundType = ToOpposite | ToOther | ToSelf

  datatype Turnaround = Turnaround(id: string, kind: TurnaroundType, text: string, examples: seq<string>)

  /** One sentence under inquiry. The optional answers are `Option`s; the two
      optional sub-question records are JavaScript objects from key to text,
      modelled as maps. The two counters are cached numbers the components
      write, so they are plain `int`s here and their agreement with the
      answers is a property proved about each operation, not a type fact. */
  datatype SentenceInquiry = SentenceInquiry(
    id: string,
    text: string,
    sourceQuestion: int,
    answer1: Option<string>,
    answer2: Option<string>,
    answer3: Option<string>,
    answer4: Option<string>,
    answer3SubQuestions: Option<map<string, string>>,
    answer4SubQuestions: Option<map<string, string>>,
    turnarounds: seq<Turnaround>,
    completedQuestions: int,
    completedTurnarounds: int)
  {
    /** The answer stored under `questions[k].key`, i.e. `answer{k+1}`. */
    function Answer(k: int): Option<string>
      requires 0 <= k < 4
    {
      if k == 0 then answer1 else if k == 1 then answer2 else if k == 2 then answer3 else answer4
    }

    /** `{ ...s, ['answer{k+1}']: v }` */
    function WithAnswer(k: int, v: Option<string>): (r: SentenceInquiry)
      requires 0 <= k < 4
      ensures r.Answer(k) == v
      ensures forall j :: 0 <= j < 4 && j != k ==> r.Answer(j) == Answer(j)
      ensures r.(answer1 := answer1, answer2 := answer2, answer3 := answer3, answer4 := answer4) == this
    {
      if k == 0 then this.(answer1 := v)
      else if k == 1 then this.(answer2 := v)
      else if k == 2 then this.(answer3 := v)
      else this.(answer4 := v)
    }
  }

  datatype Worksheet = Worksheet(
    id: string,
    createdAt: string,
    updatedAt: string,
    status: Status,
    question1: seq<string>,
    question2: seq<string>,
    question3: seq<string>,
    question4: seq<string>,
    question5: seq<string>,
    question6: seq<string>,
    sentences: seq<SentenceInquiry>)
  {
    /** `worksheet['question' + k]` for the six form questions. */
    function Question(k: int): seq<string>
      requires 1 <= k <= 6
    {
      if k == 1 then question1 else if k == 2 then question2 else if k == 3 then question3
      else if k == 4 then question4 else if k == 5 then question5 else question6
    }

    /** `{ ...worksheet, ['question' + k]: v }` */
    function WithQuestion(k: int, v: seq<string>): (r: Worksheet)
      requires 1 <= k <= 6
      ensures r.Question(k) == v
      ensures forall j :: 1 <= j <= 6 && j != k ==> r.Question(j) == Question(j)
      ensures r.(question1 := question1, question2 := question2, question3 := question3,
                 question4 := question4, question5 := question5, question6 := question6) == this
    {
      if k == 1 then this.(question1 := v) else if k == 2 then this.(question2 := v)
      else if k == 3 then this.(question3 := v) else if k == 4 then this.(question4 := v)
      else if k == 5 then this.(question5 := v) else this.(question6 := v)
    }
  }

  /** The six question lists in question order. */
  function QuestionLists(w: Worksheet): (r: seq<seq<string>>)
    ensures |r| == 6 && forall k :: 1 <= k <= 6 ==> r[k - 1] == w.Question(k)
  {
    [w.question1, w.question2, w.question3, w.question4, w.question5, w.question6]
  }

  // ---------------------------------------------------------------------
  // Strings: `trim()` and truthiness

  /** The white-space characters `trim()` removes (the ASCII ones, no-break
      space and the byte-order mark). */
  predicate IsSpace(c: char)
  {
    c == ' ' || c == '\t' || c == '\n' || c == '\r' || c == '\U{000B}' || c == '\U{000C}'
    || c == '\U{00A0}' || c == '\U{FEFF}'
  }

  function TrimStart(s: string): string
  {
    if |s| > 0 && IsSpace(s[0]) then TrimStart(s[1..]) else s
  }

  function TrimEnd(s: string): string
  {
    if |s| > 0 && IsSpace(s[|s| - 1]) then TrimEnd(s[..|s| - 1]) else s
  }

  /** `TrimStart` drops the leading white space and nothing else. */
  lemma {:induction false} TrimStartFacts(s: string)
    ensures var r := TrimStart(s);
            && |r| <= |s| && r == s[|s| - |r|..]
            && (r != [] ==> !IsSpace(r[0]))
            && (forall i :: 0 <= i < |s| - |r| ==> IsSpace(s[i]))
  {
    if |s| > 0 && IsSpace(s[0]) {
      TrimStartFacts(s[1..]);
    }
  }

  /** `TrimEnd` drops the trailing white space and nothing else. */
  lemma {:induction false} TrimEndFacts(s: string)
    ensures var r := TrimEnd(s);
            && |r| <= |s| && r == s[..|r|]
            && (r != [] ==> !IsSpace(r[|r| - 1]))
            && (forall i :: |r| <= i < |s| ==> IsSpace(s[i]))
  {
    if |s| > 0 && IsSpace(s[|s| - 1]) {
      TrimEndFacts(s[..|s| - 1]);
    }
  }

  /** `s.trim()` */
  function Trim(s: string): string
  {
    TrimEnd(TrimStart(s))
  }

  /** `s.trim().length === 0` */
  predicate IsBlank(s: string)
  {
    Trim(s) == ""
  }

  /** `trim` removes white space at both ends and keeps the middle: the result
      is a slice of the input that neither starts nor ends with white space,
      and everything cut off is white space. */
  lemma TrimSlice(s: string)
    ensures |TrimStart(s)| <= |s|
    ensures var k := |s| - |TrimStart(s)|; k + |Trim(s)| <= |s| && Trim(s) == s[k..k + |Trim(s)|]
    ensures Trim(s) != "" ==> !IsSpace(Trim(s)[0]) && !IsSpace(Trim(s)[|Trim(s)| - 1])
  {
    TrimStartFacts(s);
    TrimEndFacts(TrimStart(s));
  }

  /** A string is blank exactly when it consists of white space only. */
  lemma BlankIffAllSpace(s: string)
    ensures IsBlank(s) <==> forall i :: 0 <= i < |s| ==> IsSpace(s[i])
  {
    var t := TrimStart(s);
    TrimStartFacts(s);
    TrimEndFacts(t);
    if IsBlank(s) {
      // a non-empty TrimStart result would start with a non-space, which TrimEnd keeps
      assert t == [];
    } else {
      TrimSlice(s);
      var k := |s| - |t|;
      assert s[k] == Trim(s)[0];
    }
  }

  /** Trimming twice is trimming once. */
  lemma TrimIdempotent(s: string)
    ensures Trim(Trim(s)) == Trim(s)
  {
    var t := Trim(s);
    if t != "" {
      TrimSlice(s);
      assert TrimStart(t) == t;
      TrimEndFacts(t);
    }
  }

  /** A non-blank string trims to a non-empty string (the contrapositive of the
      definition, stated for readers of the counters). */
  lemma TrimOfNonBlank(s: string)
    requires !IsBlank(s)
    ensures !IsBlank(Trim(s)) && Trim(s) != ""
  {
    TrimIdempotent(s);
  }

  // ---------------------------------------------------------------------
  // Sequences: `Array.prototype.filter`, order-preserving subsequences, sums

  /** `s.filter(p)` */
  function Filter<T>(s: seq<T>, p: T -> bool): (r: seq<T>)
    ensures |r| <= |s|
    ensures forall x :: x in r ==> x in s && p(x)
    ensures forall x :: x in s && p(x) ==> x in r
  {
    if s == [] then [] else (if p(s[0]) then [s[0]] else []) + Filter(s[1..], p)
  }

  /** `filter` keeps every passing element as often as it occurs, and no
      other element. */
  lemma {:induction false} FilterMultiplicity<T>(s: seq<T>, p: T -> bool)
    ensures forall x :: multiset(Filter(s, p))[x] == if p(x) then multiset(s)[x] else 0
  {
    if s != [] {
      FilterMultiplicity(s[1..], p);
      assert s == [s[0]] + s[1..];
      assert Filter(s, p) == (if p(s[0]) then [s[0]] else []) + Filter(s[1..], p);
    }
  }

  /** `r` is `s` with some elements dropped and the rest in their order. */
  predicate IsSubsequence<T(==)>(r: seq<T>, s: seq<T>)
  {
    if r == [] then true
    else if s == [] then false
    else if r[0] == s[0] then IsSubsequence(r[1..], s[1..])
    else IsSubsequence(r, s[1..])
  }

  lemma {:induction false} FilterIsSubsequence<T>(s: seq<T>, p: T -> bool)
    ensures IsSubsequence(Filter(s, p), s)
  {
    if s != [] {
      FilterIsSubsequence(s[1..], p);
      if !p(s[0]) {
        assert Filter(s, p) == Filter(s[1..], p);
      }
    }
  }

  /** Filtering a sequence whose every element passes returns it unchanged. */
  lemma {:induction false} FilterAll<T>(s: seq<T>, p: T -> bool)
    requires forall x :: x in s ==> p(x)
    ensures Filter(s, p) == s
  {
    if s != [] {
      FilterAll(s[1..], p);
    }
  }

  /** Filtering distributes over appending one element. */
  lemma {:induction false} FilterSnoc<T>(s: seq<T>, x: T, p: T -> bool)
    ensures Filter(s + [x], p) == Filter(s, p) + (if p(x) then [x] else [])
  {
    if s == [] {
      assert Filter([x], p) == (if p(x) then [x] else []) + Filter([x][1..], p);
    } else {
      assert (s + [x])[1..] == s[1..] + [x];
      FilterSnoc(s[1..], x, p);
    }
  }

  /** `s.filter((_, i) => i !== index)`: removes the element at `index`, or
      nothing when `index` is out of range. */
  function RemoveAt<T>(s: seq<T>, index: int): (r: seq<T>)
    ensures 0 <= index < |s| ==>
              && |r| == |s| - 1
              && (forall j :: 0 <= j < index ==> r[j] == s[j])
              && (forall j :: index <= j < |r| ==> r[j] == s[j + 1])
    ensures !(0 <= index < |s|) ==> r == s
  {
    if 0 <= index < |s| then s[..index] + s[index + 1..] else s
  }

  /** `xs.reduce((sum, x) => sum + f(x), 0)` */
  function Sum<T>(xs: seq<T>, f: T -> int): int
  {
    if xs == [] then 0 else Sum(xs[..|xs| - 1], f) + f(xs[|xs| - 1])
  }

  /** A sum of non-negative terms is non-negative, and zero exactly when
      every term is. */
  lemma {:induction false} SumZero<T>(xs: seq<T>, f: T -> int)
    requires forall x :: x in xs ==> f(x) >= 0
    ensures Sum(xs, f) >= 0
    ensures Sum(xs, f) == 0 <==> forall x :: x in xs ==> f(x) == 0
  {
    if xs != [] {
      var init := xs[..|xs| - 1];
      assert forall x :: x in init ==> x in xs;
      SumZero(init, f);
      assert xs == init + [xs[|xs| - 1]];
      assert forall x :: x in xs ==> x in init || x == xs[|xs| - 1];
    }
  }

  /** A sum is bounded by the length times a bound on its terms. */
  lemma {:induction false} SumBounded<T>(xs: seq<T>, f: T -> int, lo: int, hi: int)
    requires forall x :: x in xs ==> lo <= f(x) <= hi
    ensures lo * |xs| <= Sum(xs, f) <= hi * |xs|
  {
    if xs != [] {
      SumBounded(xs[..|xs| - 1], f, lo, hi);
      assert xs[|xs| - 1] in xs;
    }
  }

  /** Summing a larger term pointwise gives a larger sum. */
  lemma {:induction false} SumMonotone<T>(xs: seq<T>, f: T -> int, g: T -> int)
    requires forall x :: x in xs ==> f(x) <= g(x)
    ensures Sum(xs, f) <= Sum(xs, g)
  {
    if xs != [] {
      SumMonotone(xs[..|xs| - 1], f, g);
      assert xs[|xs| - 1] in xs;
    }
  }

  /** `sentences.map(s => s.id === id ? f(s) : s)`: the update every component
      applies to the sentence under work (to every sentence carrying that id). */
  function UpdateSentences(ss: seq<SentenceInquiry>, id: string, f: SentenceInquiry -> SentenceInquiry): (r: seq<SentenceInquiry>)
    ensures |r| == |ss|
    ensures forall i :: 0 <= i < |ss| ==> r[i] == if ss[i].id == id then f(ss[i]) else ss[i]
  {
    seq(|ss|, i requires 0 <= i < |ss| => if ss[i].id == id then f(ss[i]) else ss[i])
  }
}
