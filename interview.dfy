/**
  The mock-interview page (`MockInterview`): the navigator that steps through
  the generated questions (`currentQuestionIndex`, `interviewStarted`,
  `interviewCompleted`), the per-question answer map, the two reset paths, and
  the case-insensitive colour lookups for a question's difficulty and type.
 */
module Interview {
  import opened JsText

  // ---------------------------------------------------------------------------
  // Navigation: nextQuestion / prevQuestion on (index, completed)
  // ---------------------------------------------------------------------------

  /** The navigator's position: the current question and whether the
      interview has been completed. */
  datatype Position = Position(index: int, completed: bool)

  /** Where `startInterview` puts the navigator. */
  const Start := Position(0, false)

  /** `nextQuestion()` with `n` questions: step forward, or complete the
      interview on the last question. */
  function Next(p: Position, n: int): (r: Position)
    ensures r.completed <==> p.completed || p.index >= n - 1
    ensures r.index == p.index + 1 <==> p.index < n - 1
    ensures r.index != p.index + 1 ==> r.index == p.index
  {
    if p.index < n - 1 then p.(index := p.index + 1) else p.(completed := true)
  }

  /** `prevQuestion()`: step back, except on the first question. */
  function Prev(p: Position): (r: Position)
    ensures r.completed == p.completed
    ensures p.index > 0 ==> r.index == p.index - 1
    ensures p.index <= 0 ==> r == p
  {
    if p.index > 0 then p.(index := p.index - 1) else p
  }

  /** The position after pressing "Next" `k` times from `p`. */
  function NextTimes(p: Position, n: int, k: nat): Position {
    if k == 0 then p else Next(NextTimes(p, n, k - 1), n)
  }

  /** Neither button leaves the range of question indices, and "Previous"
      never completes the interview. */
  lemma NavigationStaysInRange(p: Position, n: int)
    requires 0 <= p.index < n
    ensures 0 <= Next(p, n).index < n
    ensures 0 <= Prev(p).index < n && Prev(p).completed == p.completed
  {
  }

  /** "Next" completes the interview only from the last question, and there it
      leaves the index where it is. */
  lemma CompletesOnlyAtLast(p: Position, n: int)
    requires !p.completed
    ensures Next(p, n).completed <==> p.index >= n - 1
    ensures Next(p, n).completed ==> Next(p, n).index == p.index
  {
  }

  /** "Previous" undoes "Next" before the last question, and "Next" undoes
      "Previous" after the first. */
  lemma NextAndPrevAreInverse(p: Position, n: int)
    requires 0 <= p.index
    ensures p.index < n - 1 ==> Prev(Next(p, n)) == p
    ensures 0 < p.index < n ==> Next(Prev(p), n) == p
  {
  }

  /** From the start, the first `n - 1` presses of "Next" visit questions 1 to
      n-1 in order without completing; the n-th press completes the interview
      on the last question. */
  lemma {:induction false} CompletionAfterExactlyNPresses(n: int, k: nat)
    requires n > 0 && k <= n
    ensures k < n ==> NextTimes(Start, n, k) == Position(k, false)
    ensures k == n ==> NextTimes(Start, n, k) == Position(n - 1, true)
  {
    if k > 0 {
      CompletionAfterExactlyNPresses(n, k - 1);
    }
  }

  // ---------------------------------------------------------------------------
  // Colour lookups: getDifficultyColor / getTypeColor
  // ---------------------------------------------------------------------------

  /** The text colour classes of `getDifficultyColor`. */
  datatype DifficultyColor = Green | Yellow | Red | Gray

  /** `switch (level?.toLowerCase())` over easy / medium / hard, default grey;
      an absent level falls to the default. */
  function DifficultyColorOf(level: Option<JsString>): (r: DifficultyColor)
    ensures r == Gray <==>
      level.None? || (ToLower(level.value) != Lit("easy") && ToLower(level.value) != Lit("medium")
                      && ToLower(level.value) != Lit("hard"))
  {
    if level.None? then Gray
    else if EqualsIgnoringCase(level.value, Lit("easy")) then Green
    else if EqualsIgnoringCase(level.value, Lit("medium")) then Yellow
    else if EqualsIgnoringCase(level.value, Lit("hard")) then Red
    else Gray
  }

  /** The class string each difficulty colour stands for. */
  function DifficultyClass(c: DifficultyColor): JsString {
    match c
    case Green => Lit("text-green-400")
    case Yellow => Lit("text-yellow-400")
    case Red => Lit("text-red-400")
    case Gray => Lit("text-gray-400")
  }

  /** The badge colours of `getTypeColor`. */
  datatype TypeColor = Blue | Purple | GreenBadge | GrayBadge

  /** `switch (type?.toLowerCase())` over technical / behavioral /
      system design, default grey. */
  function TypeColorOf(kind: Option<JsString>): (r: TypeColor)
    ensures r == GrayBadge <==>
      kind.None? || (ToLower(kind.value) != Lit("technical") && ToLower(kind.value) != Lit("behavioral")
                     && ToLower(kind.value) != Lit("system design"))
  {
    if kind.None? then GrayBadge
    else if EqualsIgnoringCase(kind.value, Lit("technical")) then Blue
    else if EqualsIgnoringCase(kind.value, Lit("behavioral")) then Purple
    else if EqualsIgnoringCase(kind.value, Lit("system design")) then GreenBadge
    else GrayBadge
  }

  /** The class string each type colour stands for. */
  function TypeClass(c: TypeColor): JsString {
    match c
    case Blue => Lit("bg-blue-500/20 text-blue-300 border-blue-500/30")
    case Purple => Lit("bg-purple-500/20 text-purple-300 border-purple-500/30")
    case GreenBadge => Lit("bg-green-500/20 text-green-300 border-green-500/30")
    case GrayBadge => Lit("bg-gray-500/20 text-gray-300 border-gray-500/30")
  }

  /** The difficulty lookup ignores ASCII case. */
  lemma DifficultyColorIgnoresCase(s: JsString, t: JsString)
    requires |s| == |t|
    requires forall i | 0 <= i < |s| :: LowerUnit(s[i]) == LowerUnit(t[i])
    ensures DifficultyColorOf(Some(s)) == DifficultyColorOf(Some(t))
  {
    assert ToLower(s) == ToLower(t);
  }

  /** The type lookup ignores ASCII case. */
  lemma TypeColorIgnoresCase(s: JsString, t: JsString)
    requires |s| == |t|
    requires forall i | 0 <= i < |s| :: LowerUnit(s[i]) == LowerUnit(t[i])
    ensures TypeColorOf(Some(s)) == TypeColorOf(Some(t))
  {
    assert ToLower(s) == ToLower(t);
  }

  // ---------------------------------------------------------------------------
  // Generated questions
  // ---------------------------------------------------------------------------

  /** The fields of a generated question that the page reads for its badges. */
  datatype InterviewQuestion = InterviewQuestion(kind: Option<JsString>, difficulty: Option<JsString>)

  /** The decoded body of the interview-generation reply. */
  datatype InterviewData = InterviewData(statusOk: bool, questions: Option<seq<InterviewQuestion>>)

  /** `question.type || 'technical'`: the type shown on a question's badge. */
  function DisplayedType(q: InterviewQuestion): (r: JsString)
    ensures r != []
    ensures q.kind.Some? && q.kind.value != [] ==> r == q.kind.value
    ensures (q.kind.None? || q.kind.value == []) ==> r == Lit("technical")
  {
    FirstTruthy([q.kind], NonEmpty, Lit("technical"))
  }

  /** `question.difficulty || difficulty`: a question without its own level
      shows the level chosen in the form. */
  function DisplayedDifficulty(q: InterviewQuestion, chosen: JsString): (r: JsString)
    ensures q.difficulty.Some? && q.difficulty.value != [] ==> r == q.difficulty.value
    ensures (q.difficulty.None? || q.difficulty.value == []) ==> r == chosen
  {
    FirstTruthy([q.difficulty], NonEmpty, chosen)
  }

  /** A question without a type (or with an empty one) wears the technical badge. */
  lemma UntypedQuestionIsTechnical(q: InterviewQuestion)
    requires q.kind.None? || q.kind.value == []
    ensures TypeColorOf(Some(DisplayedType(q))) == Blue
  {
    var t := Lit("technical");
    assert t == ['t' as int, 'e' as int, 'c' as int, 'h' as int, 'n' as int, 'i' as int, 'c' as int, 'a' as int, 'l' as int];
    assert ToLower(t) == t;
  }

  // ---------------------------------------------------------------------------
  // The page state and its handlers
  // ---------------------------------------------------------------------------

  class InterviewSession {
    var domain: JsString
    var role: JsString
    var difficulty: JsString
    var loading: bool
    var error: JsString
    var result: Option<InterviewData>
    var userAnswers: map<int, JsString>
    var currentQuestionIndex: int
    var interviewStarted: bool
    var interviewCompleted: bool

    /** `result && result.status === "ok" && result.questions`: the interview panel is rendered. */
    predicate Displayed()
      reads this
    {
      result.Some? && result.value.statusOk && result.value.questions.Some?
    }

    /** `result.questions.length` while the panel is rendered, otherwise 0. */
    function Count(): nat
      reads this
    {
      if Displayed() then |result.value.questions.value| else 0
    }

    function Pos(): Position
      reads this
    {
      Position(currentQuestionIndex, interviewCompleted)
    }

    /** `interviewStarted && !interviewCompleted && result.questions.length > 0`:
        the question view with the answer box and the two buttons. */
    predicate InProgress()
      reads this
    {
      Displayed() && interviewStarted && !interviewCompleted && Count() > 0
    }

    /** The state every sequence of UI events keeps: the index stays on a
        question; a completed interview was started and ended on its last
        question; answers exist only for questions of the current result. */
    ghost predicate Valid()
      reads this
    {
      && (loading ==> result == None && userAnswers == map[] && !interviewStarted && currentQuestionIndex == 0)
      && (!interviewStarted ==> currentQuestionIndex == 0 && !interviewCompleted)
      && (interviewStarted ==> Displayed())
      && 0 <= currentQuestionIndex && (currentQuestionIndex < Count() || currentQuestionIndex == 0)
      && (interviewCompleted ==> Count() > 0 && currentQuestionIndex == Count() - 1)
      && (forall k | k in userAnswers :: 0 <= k < Count())
    }

    constructor ()
      ensures Valid()
      ensures domain == [] && role == [] && difficulty == Lit("intermediate")
      ensures !loading && error == [] && result == None && userAnswers == map[]
      ensures currentQuestionIndex == 0 && !interviewStarted && !interviewCompleted
    {
      domain, role, difficulty := [], [], Lit("intermediate");
      loading, error, result, userAnswers := false, [], None, map[];
      currentQuestionIndex, interviewStarted, interviewCompleted := 0, false, false;
    }

    /** The Domain, Target Role and Difficulty fields of the form. */
    method SetFields(newDomain: JsString, newRole: JsString, newDifficulty: JsString)
      requires Valid()
      modifies this`domain, this`role, this`difficulty
      ensures Valid() && domain == newDomain && role == newRole && difficulty == newDifficulty
    {
      domain, role, difficulty := newDomain, newRole, newDifficulty;
    }

    /** `disabled={loading || !domain.trim() || !role.trim()}`, negated; the
        form itself is rendered only while there is no result. */
    predicate GenerateEnabled()
      reads this
    {
      result.None? && !loading && !IsBlank(domain) && !IsBlank(role)
    }

    /** The Generate button is usable exactly when the form is shown, nothing
        is loading and both text fields hold a character that is not white
        space. */
    lemma GenerateEnabledIff()
      ensures GenerateEnabled() <==>
        result.None? && !loading && !AllWhiteSpace(domain) && !AllWhiteSpace(role)
    {
      BlankIffAllWhiteSpace(domain);
      BlankIffAllWhiteSpace(role);
    }

    /** What `postToFastAPI` does before awaiting the request; the handler
        itself checks nothing. */
    method BeginGenerate()
      requires Valid()
      modifies this
      ensures Valid()
      ensures loading && error == [] && result == None && userAnswers == map[]
      ensures !interviewStarted && !interviewCompleted && currentQuestionIndex == 0
      ensures domain == old(domain) && role == old(role) && difficulty == old(difficulty)
    {
      loading, error, result, userAnswers := true, [], None, map[];
      interviewStarted, interviewCompleted, currentQuestionIndex := false, false, 0;
    }

    /** What `postToFastAPI` does once the request settles. */
    method FinishGenerate(outcome: FetchOutcome<InterviewData>)
      requires Valid() && loading
      modifies this
      ensures Valid() && !loading
      ensures userAnswers == map[] && !interviewStarted && !interviewCompleted && currentQuestionIndex == 0
      ensures outcome.Received? ==> result == Some(outcome.data) && error == old(error)
      ensures outcome.Failed? ==> result == None && error == outcome.message
      ensures domain == old(domain) && role == old(role) && difficulty == old(difficulty)
    {
      if outcome.Received? {
        result := Some(outcome.data);
      } else {
        error := outcome.message;
      }
      loading := false;
    }

    /** "Start Mock Interview", rendered while neither started nor completed. */
    method StartInterview()
      requires Valid() && Displayed() && !interviewStarted && !interviewCompleted
      modifies this`interviewStarted, this`currentQuestionIndex
      ensures Valid()
      ensures interviewStarted && Pos() == Start
    {
      interviewStarted := true;
      currentQuestionIndex := 0;
    }

    /** Typing in the answer box: only the current question's entry is written. */
    method AnswerChange(answer: JsString)
      requires Valid() && InProgress()
      modifies this`userAnswers
      ensures Valid()
      ensures userAnswers == old(userAnswers)[currentQuestionIndex := answer]
    {
      userAnswers := userAnswers[currentQuestionIndex := answer];
    }

    /** "Next Question" / "Complete Interview". */
    method NextQuestion()
      requires Valid() && InProgress()
      modifies this`currentQuestionIndex, this`interviewCompleted
      ensures Valid()
      ensures Pos() == Next(old(Pos()), Count())
    {
      if currentQuestionIndex < |result.value.questions.value| - 1 {
        currentQuestionIndex := currentQuestionIndex + 1;
      } else {
        interviewCompleted := true;
      }
    }

    /** "Previous Question" (disabled, and a no-op, on the first question). */
    method PrevQuestion()
      requires Valid() && InProgress()
      modifies this`currentQuestionIndex
      ensures Valid()
      ensures Pos() == Prev(old(Pos()))
    {
      if currentQuestionIndex > 0 {
        currentQuestionIndex := currentQuestionIndex - 1;
      }
    }

    /** "Practice Another Interview", rendered once the interview is completed. */
    method PracticeAnother()
      requires Valid() && Displayed() && interviewCompleted
      modifies this`result, this`userAnswers, this`interviewStarted, this`interviewCompleted,
               this`currentQuestionIndex
      ensures Valid()
      ensures result == None && userAnswers == map[]
      ensures !interviewStarted && !interviewCompleted && currentQuestionIndex == 0
    {
      result := None;
      userAnswers := map[];
      interviewStarted, interviewCompleted, currentQuestionIndex := false, false, 0;
    }
  }
}
