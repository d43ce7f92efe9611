/**
  The skill-quiz page (`SkillQuiz`): how each option string of a generated
  question is split into a choice letter and a text, the per-question answer
  map with its one-way `submitted` flag and submit gate, and the local
  percentage score.
 */
module Quiz {
  import opened JsText

  // ---------------------------------------------------------------------------
  // Option-token extraction: option.match(/^([A-D1-4][).]?)\s*(.*)/)
  // ---------------------------------------------------------------------------

  /** The pair the page derives from one option string: the token stored in the
      answer map when the option is clicked, and the text after the marker. */
  datatype OptionToken = OptionToken(letter: JsString, text: JsString)

  /** `[A-D1-4]`: upper-case A to D or a digit 1 to 4. */
  predicate IsMarker(c: CodeUnit) {
    ('A' as int <= c <= 'D' as int) || ('1' as int <= c <= '4' as int)
  }

  /** `[).]` */
  predicate IsMarkerPunct(c: CodeUnit) {
    c == ')' as int || c == '.' as int
  }

  predicate HasMarker(option: JsString) {
    option != [] && IsMarker(option[0])
  }

  predicate NoLineTerminator(s: JsString) {
    forall i | 0 <= i < |s| :: !IsLineTerminator(s[i])
  }

  /** What the greedy group `(.*)` captures: everything up to the first line
      terminator, because `.` does not match one. */
  function UpToLineBreak(s: JsString): (r: JsString)
    ensures |r| <= |s| && r == s[..|r|]
    ensures NoLineTerminator(r)
    ensures |r| == |s| || IsLineTerminator(s[|r|])
  {
    if s == [] || IsLineTerminator(s[0]) then []
    else [s[0]] + UpToLineBreak(s[1..])
  }

  /** `String.fromCharCode(65 + optIndex)`: the argument is reduced modulo 2^16. */
  function PositionalToken(optIndex: nat): (r: CodeUnit)
    ensures optIndex < 0x1_0000 - 65 ==> r == 'A' as int + optIndex
    ensures optIndex < 4 ==> IsMarker(r)
  {
    (65 + optIndex) % 0x1_0000
  }

  /** The letter and text of the option at position `optIndex`. */
  function ExtractOption(option: JsString, optIndex: nat): (r: OptionToken)
    ensures |r.letter| == 1
    ensures HasMarker(option) ==> r.letter == [option[0]] && |r.text| < |option|
    ensures !HasMarker(option) ==> r.letter == [PositionalToken(optIndex)] && r.text == option
  {
    if HasMarker(option) then
      var group1 := if |option| > 1 && IsMarkerPunct(option[1]) then 2 else 1;
      OptionToken([option[0]], UpToLineBreak(TrimStart(option[group1..])))
    else
      OptionToken([PositionalToken(optIndex)], option)
  }

  /** Reference reading of the regular expression: `option` is matched as
      `group1 + ws + group2 + tail`, with every quantifier taking as much as it
      can (the first match a backtracking matcher reports, since the pattern
      is not anchored at the end). */
  predicate RegexMatch(option: JsString, group1: JsString, ws: JsString, group2: JsString, tail: JsString) {
    && option == group1 + ws + group2 + tail
    && (|group1| == 1 || |group1| == 2)
    && IsMarker(group1[0])
    && (|group1| == 2 ==> IsMarkerPunct(group1[1]))
    && (|group1| == 1 && |option| > 1 ==> !IsMarkerPunct(option[1]))
    && AllWhiteSpace(ws)
    && (|option| > |group1| + |ws| ==> !IsWhiteSpace(option[|group1| + |ws|]))
    && NoLineTerminator(group2)
    && (tail == [] || IsLineTerminator(tail[0]))
  }

  lemma {:induction false} TrimStartSkipsWhiteSpace(ws: JsString, u: JsString)
    requires AllWhiteSpace(ws)
    requires u == [] || !IsWhiteSpace(u[0])
    ensures TrimStart(ws + u) == u
  {
    LeadingWhiteSpaceOf(ws, u);
    assert (ws + u)[|ws|..] == u;
  }

  lemma {:induction false} LeadingWhiteSpaceOf(ws: JsString, u: JsString)
    requires AllWhiteSpace(ws)
    requires u == [] || !IsWhiteSpace(u[0])
    ensures LeadingWhiteSpace(ws + u) == |ws|
  {
    if ws != [] {
      assert (ws + u)[1..] == ws[1..] + u;
      LeadingWhiteSpaceOf(ws[1..], u);
    } else {
      assert ws + u == u;
    }
  }

  lemma {:induction false} UpToLineBreakStops(g: JsString, tail: JsString)
    requires NoLineTerminator(g)
    requires tail == [] || IsLineTerminator(tail[0])
    ensures UpToLineBreak(g + tail) == g
  {
    if g != [] {
      assert (g + tail)[1..] == g[1..] + tail;
      UpToLineBreakStops(g[1..], tail);
    }
  }

  /** Whenever the regular expression matches, the page's token is the marker
      of group 1 with its punctuation removed and the text is group 2; and the
      expression matches only options that start with a marker. */
  lemma RegexMatchDeterminesExtraction(option: JsString, optIndex: nat,
                                       group1: JsString, ws: JsString, group2: JsString, tail: JsString)
    requires RegexMatch(option, group1, ws, group2, tail)
    ensures HasMarker(option)
    ensures ExtractOption(option, optIndex) == OptionToken([group1[0]], group2)
  {
    var n := if |option| > 1 && IsMarkerPunct(option[1]) then 2 else 1;
    assert HasMarker(option) && n == |group1| && option[n..] == ws + (group2 + tail) by {
      var rest := ws + group2 + tail;
      assert option == group1 + rest;
      assert option[0] == group1[0];
      if |group1| == 1 {
        assert rest != [] ==> option[1] == rest[0];
      } else {
        assert option[1] == group1[1];
      }
    }
    TrimStartSkipsWhiteSpace(ws, group2 + tail);
    UpToLineBreakStops(group2, tail);
  }

  /** The page's extraction of `option` is the match `group1 + ws + text + tail`. */
  predicate ExtractionIsMatch(option: JsString, optIndex: nat, group1: JsString, ws: JsString, tail: JsString) {
    var r := ExtractOption(option, optIndex);
    RegexMatch(option, group1, ws, r.text, tail) && r.letter == [group1[0]]
  }

  /** Conversely, every option that starts with a marker is matched (the
      groups of the match are returned), and the extracted text is the second
      group of that match. */
  lemma MarkedOptionMatchesRegex(option: JsString, optIndex: nat)
      returns (group1: JsString, ws: JsString, tail: JsString)
    requires HasMarker(option)
    ensures ExtractionIsMatch(option, optIndex, group1, ws, tail)
  {
    var n := if |option| > 1 && IsMarkerPunct(option[1]) then 2 else 1;
    group1 := option[..n];
    var rest := option[n..];
    assert option == group1 + rest;
    var t;
    ws, t := SplitLeadingWhiteSpace(rest);
    var optionText;
    optionText, tail := SplitAtLineBreak(t);
    assert optionText == ExtractOption(option, optIndex).text;
    Concat4(option, group1, rest, ws, t, optionText, tail);
    assert |group1| == 1 && |option| > 1 ==> !IsMarkerPunct(option[1]);
  }

  lemma SplitLeadingWhiteSpace(s: JsString) returns (ws: JsString, t: JsString)
    ensures t == TrimStart(s) && s == ws + t && AllWhiteSpace(ws)
    ensures t == [] || !IsWhiteSpace(t[0])
  {
    t := TrimStart(s);
    ws := s[..LeadingWhiteSpace(s)];
    assert s == ws + t;
  }

  lemma SplitAtLineBreak(t: JsString) returns (g: JsString, tail: JsString)
    ensures g == UpToLineBreak(t) && t == g + tail
    ensures NoLineTerminator(g)
    ensures tail == [] || IsLineTerminator(tail[0])
  {
    g := UpToLineBreak(t);
    tail := t[|g|..];
    assert t == t[..|g|] + tail;
    assert tail != [] ==> tail[0] == t[|g|];
  }

  lemma Concat4(option: JsString, group1: JsString, rest: JsString, ws: JsString, t: JsString,
                optionText: JsString, tail: JsString)
    requires option == group1 + rest && rest == ws + t && t == optionText + tail
    ensures option == group1 + ws + optionText + tail
    ensures |option| > |group1| + |ws| ==> option[|group1| + |ws|] == t[0]
  {
  }

  /** The positional fallback keeps counting past D: index 4 gives E. */
  lemma PositionalTokensContinuePastD(optIndex: nat)
    requires optIndex < 26
    ensures ExtractOption(Lit("Python"), optIndex).letter == [('A' as int) + optIndex]
  {
    assert Lit("Python")[0] == 'P' as int;
  }

  /** The common shape of a marked option: marker, optional punctuation,
      white space, then a one-line text. */
  lemma MarkedOptionShape(marker: CodeUnit, punct: JsString, ws: JsString, text: JsString, optIndex: nat)
    requires IsMarker(marker)
    requires punct == [] || (|punct| == 1 && IsMarkerPunct(punct[0]))
    requires punct == [] && ws == [] && text != [] ==> !IsMarkerPunct(text[0])
    requires AllWhiteSpace(ws) && (text == [] || !IsWhiteSpace(text[0])) && NoLineTerminator(text)
    ensures ExtractOption([marker] + punct + ws + text, optIndex) == OptionToken([marker], text)
  {
    var option := [marker] + punct + ws + text;
    assert option == ([marker] + punct) + ws + text + [];
    assert |option| > 1 + |punct| + |ws| ==> option[1 + |punct| + |ws|] == text[0];
    assert |punct| == 0 && |option| > 1 ==> option[1] == (ws + text)[0];
    RegexMatchDeterminesExtraction(option, optIndex, [marker] + punct, ws, text, []);
  }

  /** A lettered option with punctuation: `B) Paris` extracts `B` and `Paris`. */
  lemma MarkedOptionExample(optIndex: nat)
    ensures ExtractOption(Lit("B) Paris"), optIndex) == OptionToken(Lit("B"), Lit("Paris"))
  {
    assert Lit("B) Paris") == ['B' as int] + [')' as int] + [' ' as int] + Lit("Paris");
    MarkedOptionShape('B' as int, [')' as int], [' ' as int], Lit("Paris"), optIndex);
  }

  /** An option that starts with a marker letter counts as marked even without
      punctuation: `Apple` extracts the token `A` and the text `pple`, at any position. */
  lemma UnpunctuatedMarkerExample(optIndex: nat)
    ensures ExtractOption(Lit("Apple"), optIndex) == OptionToken(Lit("A"), Lit("pple"))
  {
    assert Lit("Apple") == ['A' as int] + [] + [] + Lit("pple");
    MarkedOptionShape('A' as int, [], [], Lit("pple"), optIndex);
  }

  // ---------------------------------------------------------------------------
  // Questions and local scoring (calculateScore)
  // ---------------------------------------------------------------------------

  /** The fields of a generated question that the page's logic reads. */
  datatype Question = Question(
    options: Option<seq<JsString>>,
    choices: Option<seq<JsString>>,
    correct: Option<JsString>,
    answer: Option<JsString>)

  /** The decoded body of the quiz-generation reply. */
  datatype QuizData = QuizData(statusOk: bool, questions: Option<seq<Question>>)

  /** `question.options || question.choices || []` (an array is truthy even when empty). */
  function OptionsOf(q: Question): (r: seq<JsString>)
    ensures q.options.Some? ==> r == q.options.value
    ensures q.options.None? && q.choices.Some? ==> r == q.choices.value
    ensures q.options.None? && q.choices.None? ==> r == []
  {
    var fields := [q.options, q.choices];
    assert fields[0] == q.options && fields[1] == q.choices;
    FirstTruthy(fields, _ => true, [])
  }

  /** `question.correct || question.answer || ''`: the answer the page highlights
      (an empty string is falsy, so it falls through). */
  function HighlightedAnswer(q: Question): (r: JsString)
    ensures q.correct.Some? && q.correct.value != [] ==> r == q.correct.value
    ensures (q.correct.None? || q.correct.value == []) && q.answer.Some? ==> r == q.answer.value
    ensures (q.correct.None? || q.correct.value == []) && q.answer.None? ==> r == []
  {
    var fields := [q.correct, q.answer];
    assert fields[0] == q.correct && fields[1] == q.answer;
    FirstTruthy(fields, NonEmpty, [])
  }

  /** `userAnswers[i]`: `undefined` when question `i` was never answered. */
  function AnswerAt(answers: map<int, JsString>, i: int): Option<JsString> {
    if i in answers then Some(answers[i]) else None
  }

  /** `userAnswers[index] === question.correct`; two `undefined`s are equal. */
  predicate IsCorrectAt(qs: seq<Question>, answers: map<int, JsString>, i: int)
    requires 0 <= i < |qs|
  {
    AnswerAt(answers, i) == qs[i].correct
  }

  /** How many of the first `n` questions count as correct. */
  function CountCorrect(qs: seq<Question>, answers: map<int, JsString>, n: nat): (k: nat)
    requires n <= |qs|
    ensures k <= n
  {
    if n == 0 then 0
    else CountCorrect(qs, answers, n - 1) + (if IsCorrectAt(qs, answers, n - 1) then 1 else 0)
  }

  /** The indices among the first `n` whose answer counts as correct. */
  function CorrectIndices(qs: seq<Question>, answers: map<int, JsString>, n: nat): set<int>
    requires n <= |qs|
  {
    set i | i in Indices(n) && IsCorrectAt(qs, answers, i)
  }

  /** The counter is the number of correctly answered indices. */
  lemma {:induction false} CountCorrectIsCardinality(qs: seq<Question>, answers: map<int, JsString>, n: nat)
    requires n <= |qs|
    ensures CountCorrect(qs, answers, n) == |CorrectIndices(qs, answers, n)|
  {
    if n > 0 {
      CountCorrectIsCardinality(qs, answers, n - 1);
      var before := CorrectIndices(qs, answers, n - 1);
      var after := CorrectIndices(qs, answers, n);
      var hit := IsCorrectAt(qs, answers, n - 1);
      forall i
        ensures i in after <==> i in before || (hit && i == n - 1)
      {
      }
      GrowByAtMostOne(before, after, n - 1, hit);
    }
  }

  /** A set that gains at most the one new element `k`. */
  lemma GrowByAtMostOne(before: set<int>, after: set<int>, k: int, hit: bool)
    requires k !in before
    requires forall i :: i in after <==> i in before || (hit && i == k)
    ensures |after| == |before| + (if hit then 1 else 0)
  {
    var grown := if hit then before + {k} else before;
    forall i
      ensures i in after <==> i in grown
    {
    }
    assert after == grown;
  }

  /** The value shown as `Score: …%`: `Math.round` of a ratio, or NaN for 0/0. */
  datatype Score = Percent(value: int) | NaN

  /** `Math.round(num / den)` in exact rational arithmetic: the integer
      within one half of `num / den`, a half rounding up. */
  function RoundHalfUp(num: nat, den: nat): (r: nat)
    requires den > 0
    ensures 2 * den * r <= 2 * num + den < 2 * den * (r + 1)
  {
    var q := 2 * num + den;
    assert q == 2 * den * (q / (2 * den)) + q % (2 * den);
    q / (2 * den)
  }

  /** `calculateScore()` as a function of the page state: 0 without a
      question list, NaN (0 / 0) for an empty one, otherwise a percentage
      between 0 and 100. */
  function QuizScore(result: Option<QuizData>, answers: map<int, JsString>): (r: Score)
    ensures (result.None? || result.value.questions.None?) ==> r == Percent(0)
    ensures r.NaN? <==> result.Some? && result.value.questions == Some([])
    ensures r.Percent? ==> 0 <= r.value <= 100
  {
    if result.None? || result.value.questions.None? then Percent(0)
    else
      var qs := result.value.questions.value;
      if |qs| == 0 then NaN
      else
        var k := CountCorrect(qs, answers, |qs|);
        assert 100 * k <= 100 * |qs|;
        RoundHalfUpAtMost(100 * k, |qs|, 100);
        Percent(RoundHalfUp(100 * k, |qs|))
  }

  /** A ratio of at most `bound` rounds to at most `bound`. */
  lemma RoundHalfUpAtMost(num: nat, den: nat, bound: nat)
    requires den > 0 && num <= bound * den
    ensures RoundHalfUp(num, den) <= bound
  {
    var q := 2 * num + den;
    assert q < (2 * den) * (bound + 1);
    DivBelow(q, 2 * den, bound + 1);
  }

  lemma DivBelow(a: nat, b: nat, c: nat)
    requires 0 < b && a < b * c
    ensures a / b < c
  {
    var d := a / b;
    assert b * d <= a;
    MulCancel(b, d, c);
  }

  lemma MulCancel(b: nat, d: nat, c: nat)
    requires 0 < b && b * d < b * c
    ensures d < c
  {
  }

  /** Every question answered correctly gives 100; none gives 0. */
  lemma {:induction false} ExtremeScores(qs: seq<Question>, answers: map<int, JsString>, n: nat)
    requires n <= |qs|
    ensures (forall i | 0 <= i < n :: IsCorrectAt(qs, answers, i)) ==> CountCorrect(qs, answers, n) == n
    ensures (forall i | 0 <= i < n :: !IsCorrectAt(qs, answers, i)) ==> CountCorrect(qs, answers, n) == 0
  {
    if n > 0 {
      ExtremeScores(qs, answers, n - 1);
    }
  }

  /** Scoring compares with `correct` only, while highlighting falls back to
      `answer`: a question that carries only `answer` is never scored correct,
      even when the highlighted choice was picked. */
  lemma ScoringIgnoresAnswerField(q: Question, token: JsString)
    requires q.correct.None? && q.answer == Some(token)
    ensures HighlightedAnswer(q) == token
    ensures !IsCorrectAt([q], map[0 := token], 0)
  {
  }

  /** Three questions, answers A, B, A against correct A, B, B: 67%. */
  lemma ScoreExample()
    ensures var a, b := Lit("A"), Lit("B");
      var q := (c: JsString) => Question(None, None, Some(c), None);
      QuizScore(Some(QuizData(true, Some([q(a), q(b), q(b)]))), map[0 := a, 1 := b, 2 := a]) == Percent(67)
  {
    var a, b := Lit("A"), Lit("B");
    assert a == ['A' as int] && b == ['B' as int];
    var q := (c: JsString) => Question(None, None, Some(c), None);
    var qs := [q(a), q(b), q(b)];
    var answers := map[0 := a, 1 := b, 2 := a];
    assert IsCorrectAt(qs, answers, 0) && IsCorrectAt(qs, answers, 1);
    assert !IsCorrectAt(qs, answers, 2);
    assert CountCorrect(qs, answers, 1) == 1;
    assert CountCorrect(qs, answers, 2) == 2;
    assert CountCorrect(qs, answers, 3) == 2;
    assert RoundHalfUp(200, 3) == 67;
  }

  // ---------------------------------------------------------------------------
  // Submit gate: Object.keys(userAnswers).length !== result.questions.length
  // ---------------------------------------------------------------------------

  /** The indices 0..n-1 of a list of length `n`. */
  function Indices(n: nat): (r: set<int>)
    ensures forall i :: i in r <==> 0 <= i < n
    ensures |r| == n
  {
    if n == 0 then {} else Indices(n - 1) + {n - 1}
  }

  /** A subset as large as its superset is the superset. */
  lemma SubsetOfSameSize(a: set<int>, b: set<int>)
    requires a <= b && |a| == |b|
    ensures a == b
  {
    assert a * b == a && a + b == b && a - b == {};
    assert |b - a| == 0;
  }

  /** With keys drawn from the rendered indices 0..n-1, the key count equals n
      exactly when every question has an answer. */
  lemma KeyCountMeansAllAnswered(keys: set<int>, n: nat)
    requires forall k | k in keys :: 0 <= k < n
    ensures |keys| == n <==> forall i | 0 <= i < n :: i in keys
  {
    var all := Indices(n);
    assert keys <= all;
    if |keys| == n {
      SubsetOfSameSize(keys, all);
    }
    if forall i | 0 <= i < n :: i in keys {
      assert keys == all;
    }
  }

  // ---------------------------------------------------------------------------
  // The page state and its handlers
  // ---------------------------------------------------------------------------

  /** The answer token `t` belongs to one of the rendered options of `q`. */
  ghost predicate IsTokenOf(q: Question, t: JsString) {
    exists j | 0 <= j < |OptionsOf(q)| :: ExtractOption(OptionsOf(q)[j], j).letter == t
  }

  /** Every stored answer belongs to a question and is one of its tokens. */
  ghost predicate AnswersAreTokens(qs: seq<Question>, answers: map<int, JsString>) {
    forall k | k in answers :: 0 <= k < |qs| && IsTokenOf(qs[k], answers[k])
  }

  class QuizSession {
    var skill: JsString
    var loading: bool
    var error: JsString
    var result: Option<QuizData>
    var userAnswers: map<int, JsString>
    var submitted: bool

    /** `result && result.status === "ok" && result.questions`: the questions are on screen. */
    predicate Displayed()
      reads this
    {
      result.Some? && result.value.statusOk && result.value.questions.Some?
    }

    /** The rendered questions (none when the quiz is not displayed). */
    function Questions(): seq<Question>
      reads this
    {
      if Displayed() then result.value.questions.value else []
    }

    /** The state every sequence of UI events keeps: answers exist only for
        rendered questions and are tokens of their options; a submitted quiz has
        every question answered. */
    ghost predicate Valid()
      reads this
    {
      && (loading ==> result == None && userAnswers == map[] && !submitted)
      && AnswersAreTokens(Questions(), userAnswers)
      && (submitted ==> |Questions()| > 0 && |userAnswers.Keys| == |Questions()|)
    }

    constructor ()
      ensures Valid()
      ensures skill == [] && !loading && error == [] && result == None
      ensures userAnswers == map[] && !submitted
    {
      skill, loading, error, result := [], false, [], None;
      userAnswers, submitted := map[], false;
    }

    /** The skill text field. */
    method SetSkill(s: JsString)
      requires Valid()
      modifies this`skill
      ensures Valid() && skill == s
    {
      skill := s;
    }

    /** `disabled={loading || !skill.trim()}` on the Generate button, negated. */
    predicate GenerateEnabled()
      reads this
    {
      !loading && !IsBlank(skill)
    }

    /** The Generate button is usable exactly when nothing is loading and the
        skill holds a character that is not white space. */
    lemma GenerateEnabledIff()
      ensures GenerateEnabled() <==> !loading && !AllWhiteSpace(skill)
    {
      BlankIffAllWhiteSpace(skill);
    }

    /** What `postToFastAPI` does before awaiting the request: everything of the
        previous quiz is cleared; the handler itself checks nothing. */
    method BeginGenerate()
      requires Valid()
      modifies this
      ensures Valid()
      ensures loading && error == [] && result == None && userAnswers == map[] && !submitted
      ensures skill == old(skill)
    {
      loading, error, result := true, [], None;
      userAnswers, submitted := map[], false;
    }

    /** What `postToFastAPI` does once the request settles. */
    method FinishGenerate(outcome: FetchOutcome<QuizData>)
      requires Valid() && loading
      modifies this
      ensures Valid() && !loading && skill == old(skill)
      ensures userAnswers == map[] && !submitted
      ensures outcome.Received? ==> result == Some(outcome.data) && error == old(error)
      ensures outcome.Failed? ==> result == None && error == outcome.message
    {
      if outcome.Received? {
        result := Some(outcome.data);
      } else {
        error := outcome.message;
      }
      loading := false;
    }

    /** A click on option `optIndex` of question `questionIndex`:
        `!submitted && handleAnswerSelect(index, optionLetter)`. The option's
        token overwrites that question's entry; nothing else changes, and after
        submission nothing changes at all. */
    method ClickOption(questionIndex: nat, optIndex: nat)
      requires Valid() && questionIndex < |Questions()|
      requires optIndex < |OptionsOf(Questions()[questionIndex])|
      modifies this`userAnswers
      ensures Valid()
      ensures old(submitted) ==> userAnswers == old(userAnswers)
      ensures !old(submitted) ==>
        userAnswers == old(userAnswers)[questionIndex :=
          ExtractOption(OptionsOf(Questions()[questionIndex])[optIndex], optIndex).letter]
    {
      if !submitted {
        var q := Questions()[questionIndex];
        var token := ExtractOption(OptionsOf(q)[optIndex], optIndex).letter;
        assert IsTokenOf(q, token);
        userAnswers := userAnswers[questionIndex := token];
      }
    }

    /** `!submitted && result.questions.length > 0`: the Submit button is rendered. */
    predicate SubmitOffered()
      reads this
    {
      Displayed() && !submitted && |Questions()| > 0
    }

    /** The Submit button is enabled when the number of answered keys equals the
        number of questions. */
    predicate SubmitEnabled()
      reads this
    {
      |userAnswers.Keys| == |Questions()|
    }

    /** A click on the rendered Submit button: `handleSubmitQuiz` runs only when
        the button is enabled, i.e. when every question has been answered. */
    method ClickSubmit()
      requires Valid() && SubmitOffered()
      modifies this`submitted
      ensures Valid()
      ensures submitted <==> SubmitEnabled()
      ensures submitted <==> forall i | 0 <= i < |Questions()| :: i in userAnswers
    {
      var n := |Questions()|;
      assert forall k | k in userAnswers.Keys :: 0 <= k < n;
      KeyCountMeansAllAnswered(userAnswers.Keys, n);
      if |userAnswers.Keys| == n {
        submitted := true;
      }
    }

    /** "Take Another Quiz", rendered once the quiz is submitted. */
    method TakeAnother()
      requires Valid() && submitted
      modifies this
      ensures Valid()
      ensures result == None && userAnswers == map[] && !submitted
      ensures skill == old(skill) && loading == old(loading) && error == old(error)
    {
      result := None;
      userAnswers := map[];
      submitted := false;
    }

    /** `calculateScore()`: counts, question by question, the answers equal to
        `question.correct`, then rounds the percentage. */
    method CalculateScore() returns (score: Score)
      ensures score == QuizScore(result, userAnswers)
      ensures Valid() && submitted ==> score.Percent? && 0 <= score.value <= 100
    {
      if result.None? || result.value.questions.None? {
        return Percent(0);
      }
      var qs := result.value.questions.value;
      var correct := 0;
      var index := 0;
      while index < |qs|
        invariant 0 <= index <= |qs|
        invariant correct == CountCorrect(qs, userAnswers, index)
      {
        if AnswerAt(userAnswers, index) == qs[index].correct {
          correct := correct + 1;
        }
        index := index + 1;
      }
      if |qs| == 0 {
        return NaN;
      }
      score := Percent(RoundHalfUp(100 * correct, |qs|));
    }
  }
}
