/**
 * The quiz attempt engine: a state machine over the current question index,
 * one answer slot per question and a results flag. The user chooses options,
 * steps forward and back, and finally submits; submitting reports
 * `(score, total)` to the caller and switches to the results view.
 */
module QuizAttempt {
  import opened Common

  /** A decoded quiz question. `correctAnswer` is meant to be one of `options`, but nothing enforces it. */
  datatype Question = Question(question: string, options: seq<string>, correctAnswer: string)

  /** The component's state: `currentQuestionIndex`, `userAnswers`, `showResults`. */
  datatype Attempt = Attempt(index: nat, answers: seq<string>, showResults: bool)

  /** What `onQuizFinished(score, total)` receives. */
  datatype Report = Report(score: nat, total: nat)

  /** The result of one handler: the next state and the report it emitted, if any. */
  datatype Step = Step(state: Attempt, finished: Option<Report>)

  /**
   * A user action on the attempt screen: choosing an option, or one of its two
   * buttons. There is no separate submit button; submitting happens only through
   * next (labelled "finish") on the last question.
   */
  datatype Event = Choose(value: string) | GoNext | GoPrevious

  /**
   * The states the screen can be rendered in: the question list is non-empty
   * (the render reads `questions[currentQuestionIndex]` unguarded), the index
   * is in range and there is one answer slot per question.
   */
  predicate Valid(qs: seq<Question>, s: Attempt) {
    && |qs| > 0
    && s.index < |qs|
    && |s.answers| == |qs|
  }

  /** The state a fresh attempt starts in. */
  function Initial(qs: seq<Question>): (s: Attempt)
    ensures s.index == 0 && !s.showResults
    ensures |s.answers| == |qs|
    ensures forall i :: 0 <= i < |s.answers| ==> s.answers[i] == ""
    ensures |qs| > 0 ==> Valid(qs, s)
  {
    Attempt(0, seq(|qs|, _ => ""), false)
  }

  /** Choosing an option records it in the slot of the current question. */
  function Answer(s: Attempt, value: string): (r: Attempt)
    requires s.index < |s.answers|
    ensures r.index == s.index && r.showResults == s.showResults
    ensures |r.answers| == |s.answers|
    ensures r.answers[s.index] == value
    ensures forall j :: 0 <= j < |s.answers| && j != s.index ==> r.answers[j] == s.answers[j]
  {
    s.(answers := s.answers[s.index := value])
  }

  /** Question `i` is answered correctly: its slot exists and equals `correctAnswer` exactly. */
  predicate Matches(qs: seq<Question>, answers: seq<string>, i: nat)
    requires i < |qs|
  {
    i < |answers| && answers[i] == qs[i].correctAnswer
  }

  /** The indices of the correctly answered questions. */
  function MatchIndices(qs: seq<Question>, answers: seq<string>): (m: set<nat>)
    ensures forall i: nat :: i in m <==> i < |qs| && Matches(qs, answers, i)
  {
    set i: nat | i < |qs| && Matches(qs, answers, i)
  }

  /** The score, counted question by question in list order. */
  function Score(qs: seq<Question>, answers: seq<string>): (n: nat)
    ensures n <= |qs|
    ensures n == |qs| ==> forall i :: 0 <= i < |qs| ==> Matches(qs, answers, i)
    decreases |qs|
  {
    if |qs| == 0 then 0
    else
      var k := |qs| - 1;
      var prefix := Score(qs[..k], answers);
      assert forall i :: 0 <= i < k ==> Matches(qs[..k], answers, i) == Matches(qs, answers, i);
      prefix + (if Matches(qs, answers, k) then 1 else 0)
  }

  /** The score is the number of correctly answered questions. */
  lemma {:induction false} ScoreCountsMatches(qs: seq<Question>, answers: seq<string>)
    ensures Score(qs, answers) == |MatchIndices(qs, answers)|
    decreases |qs|
  {
    if |qs| > 0 {
      var k := |qs| - 1;
      ScoreCountsMatches(qs[..k], answers);
      var before := MatchIndices(qs[..k], answers);
      var all := MatchIndices(qs, answers);
      var last: set<nat> := if Matches(qs, answers, k) then {k} else {};
      assert all == before + last;
      assert before !! last;
    } else {
      assert MatchIndices(qs, answers) == {};
    }
  }

  /** Submitting reports the score out of the number of questions and shows the results. */
  function Submit(qs: seq<Question>, s: Attempt): (r: Step)
    ensures r.state == s.(showResults := true)
    ensures r.finished.Some?
    ensures r.finished.value.total == |qs|
    ensures r.finished.value.score == |MatchIndices(qs, s.answers)|
    ensures r.finished.value.score <= r.finished.value.total
  {
    ScoreCountsMatches(qs, s.answers);
    Step(s.(showResults := true), Some(Report(Score(qs, s.answers), |qs|)))
  }

  /** The next button is labelled "finish" on the last question. */
  predicate OnLastQuestion(qs: seq<Question>, s: Attempt) {
    s.index == |qs| - 1
  }

  /** Next advances one question, or submits on the last one. */
  function Next(qs: seq<Question>, s: Attempt): (r: Step)
    requires Valid(qs, s)
    ensures !OnLastQuestion(qs, s) ==> r == Step(s.(index := s.index + 1), None)
    ensures OnLastQuestion(qs, s) ==> r == Submit(qs, s)
    ensures Valid(qs, r.state)
  {
    if s.index < |qs| - 1 then Step(s.(index := s.index + 1), None)
    else Submit(qs, s)
  }

  /** The previous button is disabled on the first question. */
  predicate PreviousEnabled(s: Attempt) {
    s.index != 0
  }

  /** Previous steps back one question; on the first question it does nothing. */
  function Previous(s: Attempt): (r: Attempt)
    ensures PreviousEnabled(s) ==> r == s.(index := s.index - 1)
    ensures !PreviousEnabled(s) ==> r == s
  {
    if s.index > 0 then s.(index := s.index - 1) else s
  }

  /**
   * One user action, as the component's handlers perform it. Once the results
   * are shown the component renders only the results screen, which has no
   * option, previous or next control, so no action reaches the handlers.
   */
  function Apply(qs: seq<Question>, s: Attempt, e: Event): (r: Step)
    requires Valid(qs, s)
    ensures Valid(qs, r.state)
    ensures s.showResults ==> r == Step(s, None)
    ensures !s.showResults && e.Choose? ==> r == Step(s.(answers := s.answers[s.index := e.value]), None)
    ensures !s.showResults && e.GoNext? && !OnLastQuestion(qs, s) ==> r == Step(s.(index := s.index + 1), None)
    ensures !s.showResults && e.GoPrevious? && PreviousEnabled(s) ==> r == Step(s.(index := s.index - 1), None)
    ensures !s.showResults && e.GoPrevious? && !PreviousEnabled(s) ==> r == Step(s, None)
    ensures r.state.answers != s.answers ==> e.Choose?
    ensures r.state.index != s.index ==> e.GoNext? || e.GoPrevious?
    ensures r.finished.Some? <==> !s.showResults && e.GoNext? && OnLastQuestion(qs, s)
    ensures r.finished.Some? ==> r == Submit(qs, s)
  {
    if s.showResults then Step(s, None)
    else
      match e
      case Choose(v) => Step(Answer(s, v), None)
      case GoNext => Next(qs, s)
      case GoPrevious => Step(Previous(s), None)
  }

  /** The state after a sequence of user actions. */
  function Run(qs: seq<Question>, s: Attempt, es: seq<Event>): (r: Attempt)
    requires Valid(qs, s)
    ensures Valid(qs, r)
    ensures s.showResults ==> r == s
    ensures (forall k :: 0 <= k < |es| ==> !es[k].Choose?) ==> r.answers == s.answers
    ensures (forall k :: 0 <= k < |es| ==> es[k].Choose? || es[k].GoPrevious?) ==> r.showResults == s.showResults
    decreases |es|
  {
    if |es| == 0 then s
    else
      assert forall k :: 1 <= k < |es| ==> es[1..][k - 1] == es[k];
      Run(qs, Apply(qs, s, es[0]).state, es[1..])
  }

  // ---------------------------------------------------------------------
  // Transition properties

  /** Repeated choices at one question: the last one wins. */
  lemma AnswerLastWriteWins(s: Attempt, a: string, b: string)
    requires s.index < |s.answers|
    ensures Answer(Answer(s, a), b) == Answer(s, b)
  {
  }

  /** Next away from the last question is undone by previous. */
  lemma PreviousUndoesNext(qs: seq<Question>, s: Attempt)
    requires Valid(qs, s) && !OnLastQuestion(qs, s)
    ensures Next(qs, s).finished == None
    ensures Previous(Next(qs, s).state) == s
  {
  }

  /** Previous away from the first question is undone by next. */
  lemma NextUndoesPrevious(qs: seq<Question>, s: Attempt)
    requires Valid(qs, s) && PreviousEnabled(s)
    ensures Next(qs, Previous(s)) == Step(s, None)
  {
  }

  /** Previous changes the state exactly when its button is enabled, and never leaves the valid range. */
  lemma PreviousNoOpExactlyAtStart(qs: seq<Question>, s: Attempt)
    requires Valid(qs, s)
    ensures Previous(s) == s <==> !PreviousEnabled(s)
    ensures Valid(qs, Previous(s))
  {
  }

  // ---------------------------------------------------------------------
  // Scoring

  /** An empty slot counts as correct exactly when the expected answer is also empty. */
  lemma EmptyAnswerMatchesIff(qs: seq<Question>, i: nat)
    requires i < |qs|
    ensures Matches(qs, Initial(qs).answers, i) <==> qs[i].correctAnswer == ""
  {
  }

  /** The score of an untouched attempt is the number of questions whose expected answer is empty. */
  lemma {:induction false} UntouchedScore(qs: seq<Question>)
    ensures Score(qs, Initial(qs).answers) == |set i: nat | i < |qs| && qs[i].correctAnswer == ""|
  {
    ScoreCountsMatches(qs, Initial(qs).answers);
    assert MatchIndices(qs, Initial(qs).answers) == set i: nat | i < |qs| && qs[i].correctAnswer == "";
  }

  /**
   * The results view recomputes the score with its own loop (`calculateScore`);
   * it is the number of correctly answered questions, the same number submit reported.
   */
  method CalculateScore(qs: seq<Question>, answers: seq<string>) returns (score: nat)
    ensures score == |MatchIndices(qs, answers)|
    ensures score <= |qs|
  {
    score := 0;
    var i := 0;
    while i < |qs|
      invariant i <= |qs|
      invariant score == Score(qs[..i], answers)
    {
      assert qs[..i + 1][..i] == qs[..i];
      if i < |answers| && answers[i] == qs[i].correctAnswer {
        score := score + 1;
      }
      i := i + 1;
    }
    assert qs[..i] == qs;
    ScoreCountsMatches(qs, answers);
  }

  // ---------------------------------------------------------------------
  // Results view

  /** Shown instead of an empty answer ("not answered"). */
  const NotAnswered: string := "لم تجب"

  /** One row of the results breakdown. */
  datatype Row = Row(number: nat, prompt: string, shownAnswer: string, correct: bool, correctAnswer: Option<string>)

  /** The results screen: the score line and one row per question. */
  datatype Results = Results(score: nat, total: nat, rows: seq<Row>)

  /** `userAnswers[index] || "لم تجب"`. */
  function ShownAnswer(answers: seq<string>, i: nat): (r: string)
    ensures r != ""
    ensures i < |answers| && answers[i] != "" ==> r == answers[i]
    ensures !(i < |answers| && answers[i] != "") ==> r == NotAnswered
  {
    if i < |answers| && answers[i] != "" then answers[i] else NotAnswered
  }

  /** The row for question `i`. */
  function RowAt(qs: seq<Question>, answers: seq<string>, i: nat): Row
    requires i < |qs|
  {
    var ok := Matches(qs, answers, i);
    Row(i + 1, qs[i].question, ShownAnswer(answers, i), ok, if ok then None else Some(qs[i].correctAnswer))
  }

  /** The results view: a pure projection of the questions and the answers. */
  function ResultsView(qs: seq<Question>, s: Attempt): (v: Results)
    ensures v.total == |qs| && |v.rows| == |qs|
    ensures forall i :: 0 <= i < |v.rows| ==>
      && v.rows[i].number == i + 1
      && v.rows[i].prompt == qs[i].question
      && v.rows[i].shownAnswer == ShownAnswer(s.answers, i)
      && (v.rows[i].correct <==> Matches(qs, s.answers, i))
      && (v.rows[i].correctAnswer.Some? <==> !v.rows[i].correct)
      && (v.rows[i].correctAnswer.Some? ==> v.rows[i].correctAnswer.value == qs[i].correctAnswer)
  {
    Results(Score(qs, s.answers), |qs|, seq(|qs|, i requires 0 <= i < |qs| => RowAt(qs, s.answers, i)))
  }

  /** The indices of the rows marked correct. */
  function CorrectRows(rows: seq<Row>): (m: set<nat>)
    ensures forall i: nat :: i in m <==> i < |rows| && rows[i].correct
  {
    set i: nat | i < |rows| && rows[i].correct
  }

  /**
   * The score line of the results view agrees with its rows (score = number of
   * rows marked correct) and with the report submit handed to the caller.
   */
  lemma ResultsAgreeWithSubmit(qs: seq<Question>, s: Attempt)
    ensures ResultsView(qs, s).score == |CorrectRows(ResultsView(qs, s).rows)|
    ensures Some(Report(ResultsView(qs, s).score, ResultsView(qs, s).total)) == Submit(qs, s).finished
  {
    var v := ResultsView(qs, s);
    ScoreCountsMatches(qs, s.answers);
    assert CorrectRows(v.rows) == MatchIndices(qs, s.answers);
  }
}
