/**
 * The quiz session of the app component: the five state cells, the four
 * callbacks that update them, the guards the view puts around those
 * callbacks, and the scorer with its result bands.
 *
 * The cells are fields of the class `Session`, and each callback is one of
 * its methods.  The pure functions `AfterSelect`, `AfterSubmit`, `AfterNext`
 * and `AfterRetry` give each callback's effect on a `SessionState` value,
 * and `Step`/`Run` replay user intents through the view's guards, so that
 * the lemmas can speak about whole sessions.
 */
module App {
  import opened Wrappers
  import opened Models
  import opened QuestionComponent

  /** The number of questions in one quiz. */
  const QUIZ_SIZE: nat := 5
  /** Passed to the sampler, which ignores it. */
  const TOTAL_QUESTIONS: nat := 10

  datatype QuizState = InProgress | Completed

  /** The values of the five state cells at one moment. */
  datatype SessionState = SessionState(
    questions: seq<Question>,
    currentQuestion: nat,
    selectedAnswers: seq<Option<nat>>,
    isSubmitted: bool,
    quizState: QuizState)

  /** `vec![None; n]`. */
  function Unanswered(n: nat): (answers: seq<Option<nat>>)
    ensures |answers| == n
    ensures forall j :: 0 <= j < n ==> answers[j] == None
  {
    seq(n, _ => None)
  }

  /** The cells' initial values, given the questions the sampler returned. */
  function Initial(questions: seq<Question>): SessionState
  {
    SessionState(questions, 0, Unanswered(QUIZ_SIZE), false, InProgress)
  }

  /**
   * What every session keeps, whatever bank the sampler returned: one answer
   * slot per quiz position, an index inside the quiz, every earlier position
   * answered and every later one not yet, a submitted answer present, and
   * completion only from the last position with its answer submitted and
   * shown, so that a completed session has a question for every position.
   */
  predicate Consistent(s: SessionState)
  {
    && |s.selectedAnswers| == QUIZ_SIZE
    && s.currentQuestion < QUIZ_SIZE
    && (forall j :: 0 <= j < s.currentQuestion ==> s.selectedAnswers[j].Some?)
    && (forall j :: s.currentQuestion < j < QUIZ_SIZE ==> s.selectedAnswers[j].None?)
    && (s.isSubmitted ==> s.selectedAnswers[s.currentQuestion].Some?)
    && (s.quizState == Completed ==> s.isSubmitted && s.currentQuestion == QUIZ_SIZE - 1)
    && (s.quizState == Completed ==> |s.questions| >= QUIZ_SIZE)
  }

  /**
   * The full session invariant: in addition, there is one question per quiz
   * position and every recorded answer names one of its question's options.
   */
  predicate WellFormed(s: SessionState)
  {
    && Consistent(s)
    && |s.questions| == QUIZ_SIZE
    && (forall j :: 0 <= j < QUIZ_SIZE && s.selectedAnswers[j].Some? ==>
          s.selectedAnswers[j].value < |s.questions[j].options|)
  }

  /** The in-progress view can render: `questions[current_question_index]` and the current answer slot exist. */
  predicate QuestionShown(s: SessionState)
  {
    s.quizState == InProgress && s.currentQuestion < |s.questions| && s.currentQuestion < |s.selectedAnswers|
  }

  /** `on_option_select`: record the option for the current question and nothing else. */
  function AfterSelect(s: SessionState, optionIndex: nat): (r: SessionState)
    requires s.currentQuestion < |s.selectedAnswers|
    ensures r.questions == s.questions && r.currentQuestion == s.currentQuestion
    ensures r.isSubmitted == s.isSubmitted && r.quizState == s.quizState
    ensures |r.selectedAnswers| == |s.selectedAnswers|
    ensures r.selectedAnswers[s.currentQuestion] == Some(optionIndex)
    ensures forall j :: 0 <= j < |s.selectedAnswers| && j != s.currentQuestion ==>
              r.selectedAnswers[j] == s.selectedAnswers[j]
  {
    var newAnswers := s.selectedAnswers[s.currentQuestion := Some(optionIndex)];
    s.(selectedAnswers := newAnswers)
  }

  /** `on_submit`: lock in the answer and change nothing else. */
  function AfterSubmit(s: SessionState): (r: SessionState)
    ensures r.isSubmitted
    ensures r.(isSubmitted := s.isSubmitted) == s
  {
    s.(isSubmitted := true)
  }

  /**
   * `on_next`: move to the following question with a fresh submit button,
   * or, from the last one, complete the quiz leaving index and flag as they are.
   */
  function AfterNext(s: SessionState): (r: SessionState)
    ensures r.questions == s.questions && r.selectedAnswers == s.selectedAnswers
    ensures s.currentQuestion + 1 < QUIZ_SIZE ==>
              r.currentQuestion == s.currentQuestion + 1 && !r.isSubmitted && r.quizState == s.quizState
    ensures s.currentQuestion + 1 >= QUIZ_SIZE ==>
              r.currentQuestion == s.currentQuestion && r.isSubmitted == s.isSubmitted && r.quizState == Completed
  {
    var nextIndex := s.currentQuestion + 1;
    if nextIndex < QUIZ_SIZE then s.(currentQuestion := nextIndex, isSubmitted := false)
    else s.(quizState := Completed)
  }

  /** `on_retry`: newly sampled questions and every other cell back to its initial value. */
  function AfterRetry(s: SessionState, questions: seq<Question>): (r: SessionState)
    ensures r == Initial(questions)
    ensures r.questions == questions && r.currentQuestion == 0 && !r.isSubmitted && r.quizState == InProgress
    ensures |r.selectedAnswers| == QUIZ_SIZE && forall j :: 0 <= j < QUIZ_SIZE ==> r.selectedAnswers[j] == None
  {
    SessionState(questions, 0, Unanswered(QUIZ_SIZE), false, InProgress)
  }

  /** A user intent delivered through the view. */
  datatype Event = Click(option: nat) | Submit | Next | Retry(start: nat)

  /**
   * When the view lets an intent through: option buttons exist for the
   * current question's options and swallow clicks once submitted; the
   * submit button is shown before submission and enabled only with a
   * selection; the next button is shown only after submission; the retry
   * button only on the results screen.  A retry re-samples `bank`, the bank
   * loaded from the embedded table, from a start the random draw can give.
   */
  predicate Enabled(bank: seq<Question>, s: SessionState, e: Event)
  {
    match e
    case Click(i) =>
      QuestionShown(s) && i < |s.questions[s.currentQuestion].options| && ClickEmits(i, s.isSubmitted) == Some(i)
    case Submit => QuestionShown(s) && !s.isSubmitted && s.selectedAnswers[s.currentQuestion].Some?
    case Next => QuestionShown(s) && s.isSubmitted
    case Retry(start) => s.quizState == Completed && StartInRange(|bank|, QUIZ_SIZE, start)
  }

  /** One intent: the callback's effect when the view lets it through, no change otherwise. */
  function Step(bank: seq<Question>, s: SessionState, e: Event): (r: SessionState)
    ensures !Enabled(bank, s, e) ==> r == s
    ensures r.quizState == Completed && s.quizState == InProgress ==> e.Next? && s.currentQuestion + 1 >= QUIZ_SIZE
  {
    if !Enabled(bank, s, e) then s
    else match e
      case Click(i) => AfterSelect(s, i)
      case Submit => AfterSubmit(s)
      case Next => AfterNext(s)
      case Retry(start) => AfterRetry(s, Sample(bank, QUIZ_SIZE, start))
  }

  /** A sequence of intents, applied in order. */
  function Run(bank: seq<Question>, s: SessionState, events: seq<Event>): SessionState
    decreases |events|
  {
    if events == [] then s else Run(bank, Step(bank, s, events[0]), events[1..])
  }

  /** Running two sequences of intents one after the other is running their concatenation. */
  lemma {:induction false} RunAppend(bank: seq<Question>, s: SessionState, first: seq<Event>, second: seq<Event>)
    ensures Run(bank, s, first + second) == Run(bank, Run(bank, s, first), second)
    decreases |first|
  {
    if first == [] {
      assert first + second == second;
    } else {
      assert (first + second)[0] == first[0];
      assert (first + second)[1..] == first[1..] + second;
      RunAppend(bank, Step(bank, s, first[0]), first[1..], second);
    }
  }

  /** The initial state is consistent; it is well formed exactly when the sampler returned a full quiz. */
  lemma InitialConsistent(questions: seq<Question>)
    ensures Consistent(Initial(questions))
    ensures WellFormed(Initial(questions)) <==> |questions| == QUIZ_SIZE
  {
  }

  /** Every guarded intent keeps the session consistent. */
  lemma StepPreservesConsistent(bank: seq<Question>, s: SessionState, e: Event)
    requires Consistent(s)
    ensures Consistent(Step(bank, s, e))
  {
    if Enabled(bank, s, e) && e.Next? && s.currentQuestion + 1 < QUIZ_SIZE {
      var r := Step(bank, s, e);
      assert r.currentQuestion == s.currentQuestion + 1;
    }
  }

  /** Every guarded intent keeps the full invariant when the bank holds at least a full quiz. */
  lemma StepPreservesWellFormed(bank: seq<Question>, s: SessionState, e: Event)
    requires WellFormed(s) && |bank| >= QUIZ_SIZE
    ensures WellFormed(Step(bank, s, e))
  {
    StepPreservesConsistent(bank, s, e);
    if Enabled(bank, s, e) && e.Retry? {
      SampleLength(bank, QUIZ_SIZE, e.start);
    }
  }

  /** Whole runs keep the full invariant when the bank holds at least a full quiz. */
  lemma {:induction false} RunPreservesWellFormed(bank: seq<Question>, s: SessionState, events: seq<Event>)
    requires WellFormed(s) && |bank| >= QUIZ_SIZE
    ensures WellFormed(Run(bank, s, events))
    decreases |events|
  {
    if events != [] {
      StepPreservesWellFormed(bank, s, events[0]);
      RunPreservesWellFormed(bank, Step(bank, s, events[0]), events[1..]);
    }
  }

  /**
   * A session started on a bank of at least `QUIZ_SIZE` questions stays well
   * formed through any sequence of intents, retries included.
   */
  lemma SessionOnFullBankWellFormed(bank: seq<Question>, start: nat, events: seq<Event>)
    requires |bank| >= QUIZ_SIZE && StartInRange(|bank|, QUIZ_SIZE, start)
    ensures WellFormed(Run(bank, Initial(Sample(bank, QUIZ_SIZE, start)), events))
  {
    SampleLength(bank, QUIZ_SIZE, start);
    InitialConsistent(Sample(bank, QUIZ_SIZE, start));
    RunPreservesWellFormed(bank, Initial(Sample(bank, QUIZ_SIZE, start)), events);
  }

  /** Under the full invariant the in-progress view always has a question to show. */
  lemma WellFormedShowsQuestion(s: SessionState)
    requires WellFormed(s) && s.quizState == InProgress
    ensures QuestionShown(s)
  {
  }

  /** Outside a retry, an intent never lowers the index and raises it by at most one. */
  lemma StepIndexMonotone(bank: seq<Question>, s: SessionState, e: Event)
    requires !e.Retry?
    ensures s.currentQuestion <= Step(bank, s, e).currentQuestion <= s.currentQuestion + 1
  {
  }

  /** Outside retries, the index never decreases over a whole run. */
  lemma {:induction false} RunIndexMonotone(bank: seq<Question>, s: SessionState, events: seq<Event>)
    requires forall k :: 0 <= k < |events| ==> !events[k].Retry?
    ensures s.currentQuestion <= Run(bank, s, events).currentQuestion
    decreases |events|
  {
    if events != [] {
      StepIndexMonotone(bank, s, events[0]);
      assert forall k :: 0 <= k < |events| - 1 ==> events[1..][k] == events[k + 1];
      RunIndexMonotone(bank, Step(bank, s, events[0]), events[1..]);
    }
  }

  /** Once the answer is submitted, clicking an option changes nothing. */
  lemma ClickAfterSubmitIgnored(bank: seq<Question>, s: SessionState, i: nat)
    requires s.isSubmitted
    ensures Step(bank, s, Click(i)) == s
  {
  }

  /**
   * Outside a retry, no intent touches an answer that is submitted or
   * belongs to an earlier question.
   */
  lemma AnswersFinalOnceSubmitted(bank: seq<Question>, s: SessionState, e: Event)
    requires Consistent(s) && !e.Retry?
    ensures s.isSubmitted ==> Step(bank, s, e).selectedAnswers == s.selectedAnswers
    ensures forall j :: 0 <= j < s.currentQuestion ==> Step(bank, s, e).selectedAnswers[j] == s.selectedAnswers[j]
  {
  }

  /** Submitting and advancing from the last question completes the quiz. */
  lemma LastQuestionCompletes(bank: seq<Question>, s: SessionState)
    requires Consistent(s) && QuestionShown(s) && !s.isSubmitted
    requires s.currentQuestion == QUIZ_SIZE - 1 && s.selectedAnswers[s.currentQuestion].Some?
    ensures Step(bank, Step(bank, s, Submit), Next).quizState == Completed
  {
  }

  /** On the results screen every quiz position has an answer. */
  lemma CompletedFullyAnswered(s: SessionState)
    requires Consistent(s) && s.quizState == Completed
    ensures forall j :: 0 <= j < QUIZ_SIZE ==> s.selectedAnswers[j].Some?
  {
  }

  /** Retry from the results screen starts over exactly as a fresh session on the new sample. */
  lemma RetryRestarts(bank: seq<Question>, s: SessionState, start: nat)
    requires s.quizState == Completed && StartInRange(|bank|, QUIZ_SIZE, start)
    ensures Step(bank, s, Retry(start)) == Initial(Sample(bank, QUIZ_SIZE, start))
  {
  }

  /** One round on the current question: pick an option, submit it, go on. */
  function Round(option: nat): seq<Event>
  {
    [Click(option), Submit, Next]
  }

  /** `n` rounds, each picking the first option. */
  function Rounds(n: nat): (events: seq<Event>)
    ensures |events| == 3 * n
  {
    if n == 0 then [] else Round(0) + Rounds(n - 1)
  }

  /** A round on a rendered question records the pick and either moves on or, on the last question, completes. */
  lemma RoundEffect(bank: seq<Question>, s: SessionState, option: nat)
    requires Consistent(s) && QuestionShown(s) && !s.isSubmitted
    requires option < |s.questions[s.currentQuestion].options|
    ensures var r := Run(bank, s, Round(option));
      && r.questions == s.questions
      && r.selectedAnswers == s.selectedAnswers[s.currentQuestion := Some(option)]
      && (s.currentQuestion + 1 < QUIZ_SIZE ==>
            r.currentQuestion == s.currentQuestion + 1 && !r.isSubmitted && r.quizState == InProgress)
      && (s.currentQuestion + 1 == QUIZ_SIZE ==> r.quizState == Completed)
  {
    var s1 := Step(bank, s, Click(option));
    var s2 := Step(bank, s1, Submit);
    var s3 := Step(bank, s2, Next);
    assert Run(bank, s, Round(option)) == Run(bank, s1, [Submit, Next]);
    assert Run(bank, s1, [Submit, Next]) == Run(bank, s2, [Next]);
    assert Run(bank, s2, [Next]) == s3;
  }

  /** From any question of a well-formed session, answering every remaining question reaches the results screen. */
  lemma {:induction false} RoundsComplete(bank: seq<Question>, s: SessionState, n: nat)
    requires WellFormed(s) && s.quizState == InProgress && !s.isSubmitted
    requires n >= 1 && s.currentQuestion + n == QUIZ_SIZE
    requires forall q :: q in s.questions ==> |q.options| > 0
    ensures Run(bank, s, Rounds(n)).quizState == Completed
    decreases n
  {
    RoundEffect(bank, s, 0);
    var r := Run(bank, s, Round(0));
    RunAppend(bank, s, Round(0), Rounds(n - 1));
    if n > 1 {
      assert s.questions[s.currentQuestion] in s.questions;
      assert WellFormed(r);
      RoundsComplete(bank, r, n - 1);
    }
  }

  /** A fresh session on a full sample completes after one round per question. */
  lemma FullQuizCompletes(bank: seq<Question>, questions: seq<Question>)
    requires |questions| == QUIZ_SIZE
    requires forall q :: q in questions ==> |q.options| > 0
    ensures Run(bank, Initial(questions), Rounds(QUIZ_SIZE)).quizState == Completed
  {
    InitialConsistent(questions);
    RoundsComplete(bank, Initial(questions), QUIZ_SIZE);
  }

  /** With any unreadable row the session starts on the three fallback questions and is not well formed. */
  lemma FallbackSessionNotWellFormed(records: seq<Result<QuestionRecord, CsvError>>, start: nat)
    requires exists j :: 0 <= j < |records| && records[j].Err?
    ensures StartInRange(|GetAllQuestions(records)|, QUIZ_SIZE, start)
    ensures var s := Initial(GetRandomQuestionSequence(TOTAL_QUESTIONS, QUIZ_SIZE, records, start));
      |s.questions| == 3 && Consistent(s) && !WellFormed(s)
  {
    FallbackSequence(TOTAL_QUESTIONS, QUIZ_SIZE, records, start);
  }

  /**
   * With the fallback bank, answering the three questions it has moves the
   * index to 3 while the quiz is still in progress: the view would read
   * `questions[3]` of a three-element list, where the view's indexing
   * panics (see `OverrunIsStuck` for how the model represents that).
   */
  lemma FallbackSessionOverruns(records: seq<Result<QuestionRecord, CsvError>>, start: nat)
    requires exists j :: 0 <= j < |records| && records[j].Err?
    ensures StartInRange(|GetAllQuestions(records)|, QUIZ_SIZE, start)
    ensures var s := Run(GetAllQuestions(records), Initial(GetRandomQuestionSequence(TOTAL_QUESTIONS, QUIZ_SIZE, records, start)), Rounds(3));
      && Consistent(s) && s.quizState == InProgress
      && s.currentQuestion == 3 && |s.questions| == 3
      && !QuestionShown(s)
  {
    FallbackSequence(TOTAL_QUESTIONS, QUIZ_SIZE, records, start);
    var bank := GetAllQuestions(records);
    var s0 := Initial(FallbackQuestions());
    InitialConsistent(FallbackQuestions());
    assert FallbackQuestions()[0] in FallbackQuestions();
    RoundEffect(bank, s0, 0);
    var s1 := Run(bank, s0, Round(0));
    assert FallbackQuestions()[1] in FallbackQuestions();
    RunPreservesConsistent(bank, s0, Round(0));
    RoundEffect(bank, s1, 0);
    var s2 := Run(bank, s1, Round(0));
    assert FallbackQuestions()[2] in FallbackQuestions();
    RunPreservesConsistent(bank, s1, Round(0));
    RoundEffect(bank, s2, 0);
    var s3 := Run(bank, s2, Round(0));
    RunPreservesConsistent(bank, s2, Round(0));
    RunAppend(bank, s2, Round(0), []);
    RunAppend(bank, s1, Round(0), Rounds(1));
    RunAppend(bank, s0, Round(0), Rounds(2));
    assert Rounds(1) == Round(0) + [];
  }

  /**
   * An in-progress session with no question to show is stuck for good: no
   * control is rendered, and retry is offered only on the results screen,
   * so every intent leaves it as it is.
   */
  lemma OverrunIsStuck(bank: seq<Question>, s: SessionState, e: Event)
    requires s.quizState == InProgress && !QuestionShown(s)
    ensures Step(bank, s, e) == s
  {
  }

  /** No sequence of intents gets a session out of that state. */
  lemma {:induction false} OverrunIsPermanent(bank: seq<Question>, s: SessionState, events: seq<Event>)
    requires s.quizState == InProgress && !QuestionShown(s)
    ensures Run(bank, s, events) == s
    decreases |events|
  {
    if events != [] {
      OverrunIsStuck(bank, s, events[0]);
      OverrunIsPermanent(bank, s, events[1..]);
    }
  }

  /** Whole runs keep the session consistent. */
  lemma {:induction false} RunPreservesConsistent(bank: seq<Question>, s: SessionState, events: seq<Event>)
    requires Consistent(s)
    ensures Consistent(Run(bank, s, events))
    decreases |events|
  {
    if events != [] {
      StepPreservesConsistent(bank, s, events[0]);
      RunPreservesConsistent(bank, Step(bank, s, events[0]), events[1..]);
    }
  }

  /** A table with no data rows yields a session whose very first render has no question to show. */
  lemma EmptyTableSessionOverruns(start: nat)
    ensures StartInRange(|GetAllQuestions([])|, QUIZ_SIZE, start)
    ensures var s := Initial(GetRandomQuestionSequence(TOTAL_QUESTIONS, QUIZ_SIZE, [], start));
      s.questions == [] && s.quizState == InProgress && !QuestionShown(s)
  {
    EmptyTableGivesEmptyBank();
  }

  // ---------------------------------------------------------------------
  // Scoring

  /** Whether the answer at position `i` is the question's correct index. */
  predicate AnsweredCorrectly(questions: seq<Question>, answers: seq<Option<nat>>, i: nat)
    requires i < |answers| <= |questions|
  {
    answers[i] == Some(questions[i].correctAnswerIndex)
  }

  /** The positions whose answer is correct; unanswered positions are never among them. */
  function CorrectPositions(questions: seq<Question>, answers: seq<Option<nat>>): (positions: set<nat>)
    requires |answers| <= |questions|
    ensures forall i :: i in positions ==> i < |answers| && answers[i].Some?
  {
    set i: nat | i < |answers| && AnsweredCorrectly(questions, answers, i)
  }

  /** The score as the calculation loop accumulates it, position by position. */
  function CountCorrect(questions: seq<Question>, answers: seq<Option<nat>>): (score: nat)
    requires |answers| <= |questions|
    ensures score <= |answers|
    decreases |answers|
  {
    if answers == [] then 0
    else
      var last := |answers| - 1;
      CountCorrect(questions, answers[..last]) + if AnsweredCorrectly(questions, answers, last) then 1 else 0
  }

  /** The accumulated score is the number of correctly answered positions. */
  lemma {:induction false} CountCorrectIsCardinality(questions: seq<Question>, answers: seq<Option<nat>>)
    requires |answers| <= |questions|
    ensures CountCorrect(questions, answers) == |CorrectPositions(questions, answers)|
    decreases |answers|
  {
    if answers == [] {
      assert CorrectPositions(questions, answers) == {};
    } else {
      var last := |answers| - 1;
      var prefix := answers[..last];
      CountCorrectIsCardinality(questions, prefix);
      var before := CorrectPositions(questions, prefix);
      forall i: nat | i < last
        ensures AnsweredCorrectly(questions, prefix, i) == AnsweredCorrectly(questions, answers, i)
      {
      }
      if AnsweredCorrectly(questions, answers, last) {
        assert CorrectPositions(questions, answers) == before + {last};
      } else {
        assert CorrectPositions(questions, answers) == before;
      }
    }
  }

  /** With no answers at all the score is zero. */
  lemma {:induction false} UnansweredScoresZero(questions: seq<Question>, answers: seq<Option<nat>>)
    requires |answers| <= |questions|
    requires forall j :: 0 <= j < |answers| ==> answers[j] == None
    ensures CountCorrect(questions, answers) == 0
    decreases |answers|
  {
    if answers != [] {
      UnansweredScoresZero(questions, answers[..|answers| - 1]);
    }
  }

  /** With every answer correct the score is the number of answers. */
  lemma {:induction false} AllCorrectScoresFull(questions: seq<Question>, answers: seq<Option<nat>>)
    requires |answers| <= |questions|
    requires forall j :: 0 <= j < |answers| ==> answers[j] == Some(questions[j].correctAnswerIndex)
    ensures CountCorrect(questions, answers) == |answers|
    decreases |answers|
  {
    if answers != [] {
      AllCorrectScoresFull(questions, answers[..|answers| - 1]);
    }
  }

  /**
   * `calculate_score`: walk the answer vector, counting positions whose
   * answer equals the question's correct index.  `questions[i]` is read for
   * every answered position, so the answers must not outnumber the
   * questions; `CompletedScoreDefined` shows this holds on the results
   * screen, the only place the score is computed.
   */
  method CalculateScore(questions: seq<Question>, answers: seq<Option<nat>>) returns (score: nat)
    requires |answers| <= |questions|
    ensures score == CountCorrect(questions, answers)
    ensures score == |CorrectPositions(questions, answers)|
    ensures score <= |answers|
  {
    score := 0;
    var i := 0;
    while i < |answers|
      invariant 0 <= i <= |answers|
      invariant score == CountCorrect(questions, answers[..i])
    {
      match answers[i] {
        case Some(selected) =>
          if selected == questions[i].correctAnswerIndex {
            score := score + 1;
          }
        case None =>
      }
      assert answers[..i + 1][..i] == answers[..i];
      i := i + 1;
    }
    assert answers[..i] == answers;
    CountCorrectIsCardinality(questions, answers);
  }

  /** On the results screen there is a question for every answer slot, so the score can be computed. */
  lemma CompletedScoreDefined(s: SessionState)
    requires Consistent(s) && s.quizState == Completed
    ensures |s.selectedAnswers| <= |s.questions|
  {
  }

  /** The percentage shown on the results screen: `score * 100 / QUIZ_SIZE`, rounded down. */
  function Percentage(score: nat): (percentage: nat)
    requires score <= QUIZ_SIZE
    ensures percentage <= 100
    ensures percentage * QUIZ_SIZE <= score * 100 < (percentage + 1) * QUIZ_SIZE
  {
    score * 100 / QUIZ_SIZE
  }

  /** The five result messages, best first. */
  datatype Band = Expert | VeryGood | Good | NotBad | KeepLearning

  /** The position of a band, best (0) to worst (4). */
  function Rank(band: Band): nat
  {
    match band
    case Expert => 0
    case VeryGood => 1
    case Good => 2
    case NotBad => 3
    case KeepLearning => 4
  }

  /** The message chosen by the percentage match: four ranges, everything else the last message. */
  function ResultBand(percentage: nat): (band: Band)
    ensures band == Expert <==> 90 <= percentage <= 100
    ensures band == VeryGood <==> 70 <= percentage <= 89
    ensures band == Good <==> 50 <= percentage <= 69
    ensures band == NotBad <==> 30 <= percentage <= 49
    ensures band == KeepLearning <==> percentage < 30 || percentage > 100
  {
    if 90 <= percentage <= 100 then Expert
    else if 70 <= percentage <= 89 then VeryGood
    else if 50 <= percentage <= 69 then Good
    else if 30 <= percentage <= 49 then NotBad
    else KeepLearning
  }

  /** On percentages up to 100, a higher percentage never gets a worse message. */
  lemma BandMonotone(p: nat, q: nat)
    requires p <= q <= 100
    ensures Rank(ResultBand(q)) <= Rank(ResultBand(p))
  {
  }

  /** What each possible score of a five-question quiz shows. */
  lemma ScoreBands()
    ensures ResultBand(Percentage(0)) == KeepLearning && ResultBand(Percentage(1)) == KeepLearning
    ensures ResultBand(Percentage(2)) == NotBad && ResultBand(Percentage(3)) == Good
    ensures ResultBand(Percentage(4)) == VeryGood && ResultBand(Percentage(5)) == Expert
  {
  }

  /** Confetti is shown from 70 percent, that is, exactly for the two best messages. */
  function ShowsConfetti(percentage: nat): (shows: bool)
    requires percentage <= 100
    ensures shows <==> ResultBand(percentage) == Expert || ResultBand(percentage) == VeryGood
  {
    percentage >= 70
  }

  // ---------------------------------------------------------------------
  // The state cells

  /** The app component's state cells; each callback is a method that sets them. */
  class Session {
    /** The embedded question table, fixed for the life of the page. */
    const records: seq<Result<QuestionRecord, CsvError>>
    var questions: seq<Question>
    var currentQuestion: nat
    var selectedAnswers: seq<Option<nat>>
    var isSubmitted: bool
    var quizState: QuizState

    /** The cells' current values. */
    function State(): SessionState
      reads this
    {
      SessionState(questions, currentQuestion, selectedAnswers, isSubmitted, quizState)
    }

    /** The bank every sample, the first and each retry, is drawn from. */
    function Bank(): seq<Question>
    {
      GetAllQuestions(records)
    }

    predicate Valid()
      reads this
    {
      Consistent(State())
    }

    /** The `use_state` initialisers; the sampler's random start is the parameter `start`. */
    constructor (records: seq<Result<QuestionRecord, CsvError>>, start: nat)
      requires StartInRange(|GetAllQuestions(records)|, QUIZ_SIZE, start)
      ensures this.records == records
      ensures State() == Initial(GetRandomQuestionSequence(TOTAL_QUESTIONS, QUIZ_SIZE, records, start))
      ensures Valid()
      ensures |GetAllQuestions(records)| >= QUIZ_SIZE ==> WellFormed(State())
    {
      var sampled := GetRandomQuestionSequence(TOTAL_QUESTIONS, QUIZ_SIZE, records, start);
      this.records := records;
      questions := sampled;
      currentQuestion := 0;
      selectedAnswers := Unanswered(QUIZ_SIZE);
      isSubmitted := false;
      quizState := InProgress;
      InitialConsistent(sampled);
      if |GetAllQuestions(records)| >= QUIZ_SIZE {
        SampleLength(GetAllQuestions(records), QUIZ_SIZE, start);
      }
    }

    /** `on_option_select`, reached through an option button's click handler. */
    method OnOptionSelect(optionIndex: nat)
      requires Valid() && Enabled(Bank(), State(), Click(optionIndex))
      modifies this
      ensures State() == AfterSelect(old(State()), optionIndex)
      ensures Valid()
      ensures old(WellFormed(State())) ==> WellFormed(State())
    {
      ghost var before := State();
      var newAnswers := selectedAnswers;
      newAnswers := newAnswers[currentQuestion := Some(optionIndex)];
      selectedAnswers := newAnswers;
      StepPreservesConsistent(Bank(), before, Click(optionIndex));
    }

    /** `on_submit`, reached through the enabled submit button. */
    method OnSubmit()
      requires Valid() && Enabled(Bank(), State(), Submit)
      modifies this
      ensures State() == AfterSubmit(old(State()))
      ensures Valid()
      ensures old(WellFormed(State())) ==> WellFormed(State())
    {
      ghost var before := State();
      isSubmitted := true;
      StepPreservesConsistent(Bank(), before, Submit);
    }

    /** `on_next`, reached through the next button shown after submission. */
    method OnNext()
      requires Valid() && Enabled(Bank(), State(), Next)
      modifies this
      ensures State() == AfterNext(old(State()))
      ensures Valid()
      ensures old(WellFormed(State())) ==> WellFormed(State())
    {
      ghost var before := State();
      var nextIndex := currentQuestion + 1;
      if nextIndex < QUIZ_SIZE {
        currentQuestion := nextIndex;
        isSubmitted := false;
      } else {
        quizState := Completed;
      }
      StepPreservesConsistent(Bank(), before, Next);
    }

    /** `on_retry`, reached through the retry button of the results screen; it samples the same bank afresh. */
    method OnRetry(start: nat)
      requires Valid() && Enabled(Bank(), State(), Retry(start))
      modifies this
      ensures State() == AfterRetry(old(State()), GetRandomQuestionSequence(TOTAL_QUESTIONS, QUIZ_SIZE, records, start))
      ensures State() == Step(Bank(), old(State()), Retry(start))
      ensures Valid()
      ensures |GetAllQuestions(records)| >= QUIZ_SIZE ==> WellFormed(State())
    {
      questions := GetRandomQuestionSequence(TOTAL_QUESTIONS, QUIZ_SIZE, records, start);
      currentQuestion := 0;
      selectedAnswers := Unanswered(QUIZ_SIZE);
      isSubmitted := false;
      quizState := InProgress;
      InitialConsistent(questions);
      if |GetAllQuestions(records)| >= QUIZ_SIZE {
        SampleLength(GetAllQuestions(records), QUIZ_SIZE, start);
      }
    }

    /** The results screen's score, percentage and band, computed once the quiz is completed. */
    method Results() returns (score: nat, percentage: nat, band: Band)
      requires Valid() && quizState == Completed
      ensures score == |CorrectPositions(questions, selectedAnswers)| && score <= QUIZ_SIZE
      ensures percentage == Percentage(score) && band == ResultBand(percentage)
    {
      CompletedScoreDefined(State());
      score := CalculateScore(questions, selectedAnswers);
      percentage := Percentage(score);
      band := ResultBand(percentage);
    }
  }
}
