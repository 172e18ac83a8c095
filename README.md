# Quiz session model

A Dafny model of the logic of a single-player trivia quiz written as a Yew
(Rust/WebAssembly) app. The model covers three parts:

- **Question model** (`models.dfy`, module `Models`). Questions are built
  from CSV rows. The model covers parsing that stops at the first bad row,
  the hard-coded bank of three fallback questions, and the sampler. The
  sampler returns the whole bank, or `count` consecutive questions starting
  at a random index.
- **Session** (`app.dfy`, module `App`). The five state cells of the app
  component are fields of the class `Session`: questions, current index,
  answer vector, submitted flag and quiz state. The four callbacks (select,
  submit, next, retry) are its methods. Each method is specified by a pure
  function on a `SessionState` value. `Enabled` states the guards the view
  puts around the callbacks. `Step` and `Run` replay user intents through
  those guards, so lemmas can speak about whole sessions. The module also
  holds the score loop, the percentage and the result-message bands.
- **Question view** (`question_component.dfy`, module `QuestionComponent`).
  For each option it gives the style (plain, selected, correct, incorrect),
  the mark (check, cross, none) and whether a click reaches the selection
  callback. It also gives the feedback shown for the whole question.

`wrappers.dfy` defines `Option` and `Result`.

Two invariants describe the session. `Consistent` holds in every session:

- there are `QUIZ_SIZE` answer slots;
- the index stays below `QUIZ_SIZE`;
- earlier positions are answered and later ones are not;
- a submitted answer is present;
- the quiz completes only from the last question.

`WellFormed` adds two conditions: exactly `QUIZ_SIZE` questions, and every
answer names an option of its question. `WellFormed` is what keeps the
view's `questions[current_question_index]` read in bounds.

The code does not keep `WellFormed`. When any CSV row fails, the bank
falls back to three questions while `QUIZ_SIZE` is 5. The sampler then
returns all three, and the session starts with five answer slots.
`FallbackSessionOverruns` shows what follows: after three
pick–submit–next rounds, the quiz is still in progress at index 3 of a
three-question list. The view then reads `questions[3]` at
src/main.rs:104, which panics in the source. The model has no panic: it
represents that point as a state in which no intent gets through.
`OverrunIsStuck` and `OverrunIsPermanent` show that every intent, retry
included, leaves that state as it is, since retry is offered only on the
results screen.
`EmptyTableSessionOverruns` shows the same for a table with no data rows,
which parses to an empty bank rather than falling back.

The system's specification asks for two things the code does
not do. It asks for a fallback bank at least as large as the quiz. It also
asks that an out-of-range correct index be rejected at load time. The model
follows the code in both places. `FromRecordValidIff`,
`CorrectShownIffIndexInRange` and `OutOfRangeNeverCorrect` state what an
unchecked index does: no option is highlighted as correct, and no pick
gets correct feedback. The specification also has a `Loading` phase,
a `loadingFailed` flag, and a rule that too few parsed rows trigger the
fallback. None of these exist in the code, so none are modelled.

The class methods take the view's guards as preconditions. Each callback is
reachable only through its widget. Option buttons exist only for the
current question's options, and their click handler drops clicks after
submission. The submit button is shown before submission and is enabled
only with a selection. The next button is shown only after submission. The
retry button is shown only on the results screen. A retry samples the
same bank the session started from: `Session` keeps the embedded table in
a constant field, and a retry intent carries only the random start.
`SessionOnFullBankWellFormed` shows that on a bank of at least `QUIZ_SIZE`
questions every session, retries included, stays `WellFormed`.

## Model

| member | source | states |
|---|---|---|
| Models.NewQuestion | src/models.rs:25-31 | the question keeps the text, the options' number and order, and the given correct index |
| Models.FromRecord | src/models.rs:34-40 | a row always gives exactly four options in column order option1..option4, with the text and the unchecked correct index copied |
| Models.FromRecordValidIff | src/models.rs:34-40 | a converted row names a valid option iff its index is below 4; nothing rejects other rows |
| Models.ParseAllOk | src/models.rs:58-68 | when every row deserialises, parsing gives one question per row, in row order |
| Models.ParseFirstErr | src/models.rs:62-63 | the error returned is the one of the first failing row |
| Models.ParseOkIff | src/models.rs:58-68 | parsing succeeds iff no row fails |
| Models.ParseQuestionsFromCsv | src/models.rs:58-68 | the push loop with early return computes exactly `Parse`: first row error, or one question per row |
| Models.FallbackQuestions | src/models.rs:76-109 | exactly three fallback questions, each with four options and a correct index inside them |
| Models.GetAllQuestions | src/models.rs:47-55 | the parsed list on success, even an empty one, and the fallback list exactly on error |
| Models.GetAllQuestionsCases | src/models.rs:47-55 | any failing row gives the fallback bank; otherwise the bank has one question per row, in order |
| Models.EmptyTableGivesEmptyBank | src/models.rs:47-49 | a table with no data rows gives an empty bank, not the fallback |
| Models.Sample | src/models.rs:119-127 | a bank of at most `count` questions is returned unchanged; otherwise exactly `count` questions, `bank[start + k]` at position k |
| Models.SampleLength | src/models.rs:119-127 | the sample has length min(bank length, count) |
| Models.SampleIsContiguous | src/models.rs:123-127 | the sample is a contiguous run of the bank, in bank order, from a start in `0..=len-count` |
| Models.GetRandomQuestionSequence | src/models.rs:112-128 | at most `count` questions, all taken from the loaded bank |
| Models.TotalQuestionsIgnored | src/models.rs:112 | the result does not depend on the `_total_questions` argument |
| Models.FallbackSequence | src/models.rs:116-121 | after any row error, a request for three or more questions gets exactly the three fallback questions |
| QuestionComponent.StyleOf | src/components/question.rs:24-39 | once submitted: correct iff the index is the correct one, incorrect iff selected and not correct, never selected; before: selected iff picked, otherwise plain |
| QuestionComponent.MarkOf | src/components/question.rs:57-64 | a check iff submitted and correct; a cross iff submitted, selected and not correct |
| QuestionComponent.MarkAgreesWithStyle | src/components/question.rs:24-64 | the check appears exactly on the correct style, the cross exactly on the incorrect style |
| QuestionComponent.OptionStyles | src/components/question.rs:23-39 | one style per option, in option order |
| QuestionComponent.OptionMarks | src/components/question.rs:23-64 | one mark per option, in option order |
| QuestionComponent.AtMostOneOfEach | src/components/question.rs:24-39 | two different options are never both styled correct, both incorrect or both selected |
| QuestionComponent.CorrectShownIffIndexInRange | src/components/question.rs:25-29 | after submission some option is styled correct iff the correct index names an option |
| QuestionComponent.ClickEmits | src/components/question.rs:43-46 | a click reaches the selection callback, with its own index, iff the answer is not submitted |
| QuestionComponent.FeedbackOf | src/components/question.rs:73-84 | feedback is shown iff submitted, and it is "correct" iff the selection is the correct index |
| QuestionComponent.FeedbackAgreesWithStyles | src/components/question.rs:24-84 | correct feedback iff the picked option is styled correct; incorrect feedback iff it is styled incorrect |
| QuestionComponent.OutOfRangeNeverCorrect | src/components/question.rs:74-84 | with an out-of-range correct index, no pick of an existing option gets correct feedback |
| App.Unanswered | src/main.rs:21 | `vec![None; n]`: n slots, all unanswered |
| App.AfterSelect | src/main.rs:26-33 | the current slot becomes `Some(i)`; every other slot, the answer vector's length and every other cell are unchanged |
| App.AfterSubmit | src/main.rs:35-40 | the submitted flag becomes true and nothing else changes |
| App.AfterNext | src/main.rs:42-56 | before the last question: index + 1 and the flag cleared; from the last: Completed, index and flag unchanged; answers and questions unchanged |
| App.AfterRetry | src/main.rs:58-72 | the new sample, index 0, all answers None, not submitted, InProgress: the same as a fresh session |
| App.Step | src/main.rs:119-143 | an intent the view does not let through changes nothing; leaving InProgress happens only by Next from the last question |
| App.InitialConsistent | src/main.rs:19-23 | the initial cells are consistent; they are well formed iff the sampler returned `QUIZ_SIZE` questions |
| App.StepPreservesConsistent | src/main.rs:26-72 | every guarded intent keeps `Consistent` |
| App.RunPreservesConsistent | src/main.rs:26-72 | whole runs keep `Consistent` |
| App.StepPreservesWellFormed | src/main.rs:26-72 | every guarded intent, retry included, keeps `WellFormed` when the bank holds at least `QUIZ_SIZE` questions |
| App.RunPreservesWellFormed | src/main.rs:26-72 | whole runs, retries from the same bank included, keep `WellFormed` when the bank holds at least `QUIZ_SIZE` questions |
| App.SessionOnFullBankWellFormed | src/main.rs:19-72 | a session started by sampling a bank of at least `QUIZ_SIZE` questions stays `WellFormed` through any intents |
| App.WellFormedShowsQuestion | src/main.rs:103-105 | under `WellFormed` the in-progress view's question and answer reads are in bounds |
| App.StepIndexMonotone | src/main.rs:47-55 | outside retry, an intent never lowers the index and raises it by at most one |
| App.RunIndexMonotone | src/main.rs:47-55 | outside retry, the index never decreases over a run |
| App.ClickAfterSubmitIgnored | src/components/question.rs:43-46 | after submission an option click changes nothing |
| App.AnswersFinalOnceSubmitted | src/main.rs:26-56 | outside retry, no intent changes a submitted answer or an earlier question's answer |
| App.LastQuestionCompletes | src/main.rs:47-55 | submit then next on the last question completes the quiz |
| App.CompletedFullyAnswered | src/main.rs:47-55 | on the results screen every position has an answer |
| App.RetryRestarts | src/main.rs:65-71 | retry from the results screen gives exactly the initial state on a new sample of the same bank |
| App.RunAppend | src/main.rs:26-72 | running two intent sequences in turn is running their concatenation |
| App.RoundEffect | src/main.rs:26-56 | pick, submit, next records the pick and moves to the next question, or completes on the last |
| App.RoundsComplete | src/main.rs:42-56 | from a well-formed session, answering every remaining question reaches Completed |
| App.FullQuizCompletes | src/main.rs:19-56 | a fresh session on `QUIZ_SIZE` questions completes after one round per question |
| App.FallbackSessionNotWellFormed | src/main.rs:19-21 | after a row error the session starts on 3 questions with 5 answer slots: consistent but not well formed |
| App.FallbackSessionOverruns | src/main.rs:104 | after three rounds on the fallback bank the quiz is in progress at index 3 of 3 questions, with no question to show |
| App.OverrunIsStuck | src/main.rs:102-148 | an in-progress session with no question to show (where the source panics at line 104) renders no control and no retry button, so no intent changes it |
| App.OverrunIsPermanent | src/main.rs:102-148 | no sequence of intents leaves that state |
| App.EmptyTableSessionOverruns | src/main.rs:104 | a table with no data rows starts a session with no question to show |
| App.CorrectPositions | src/main.rs:74-84 | only answered positions can be correct |
| App.CountCorrect | src/main.rs:74-84 | the accumulated score never exceeds the number of answers |
| App.CountCorrectIsCardinality | src/main.rs:74-84 | the score is the number of positions whose answer equals the correct index |
| App.UnansweredScoresZero | src/main.rs:77-81 | unanswered positions never score: no answers gives 0 |
| App.AllCorrectScoresFull | src/main.rs:77-81 | all answers correct gives a score equal to the number of answers |
| App.CalculateScore | src/main.rs:74-84 | the counting loop returns the number of correctly answered positions, at most the number of answers |
| App.CompletedScoreDefined | src/main.rs:150-151 | on the results screen there is a question for every answer slot, so the score's `questions[i]` reads are in bounds |
| App.Percentage | src/main.rs:152 | the percentage is `score * 100 / QUIZ_SIZE` rounded down, at most 100 |
| App.ResultBand | src/main.rs:155-161 | 90–100, 70–89, 50–69 and 30–49 give the four named messages; every other value gives the last |
| App.BandMonotone | src/main.rs:155-161 | up to 100, a higher percentage never gets a worse message |
| App.ScoreBands | src/main.rs:152-161 | scores 0..5 give 0, 20, 40, 60, 80 and 100 percent, which map to the last, last, fourth, third, second and first messages |
| App.ShowsConfetti | src/main.rs:175 | confetti is shown exactly for the two best messages |
| App.Session.constructor | src/main.rs:19-23 | the cells start at the initial state on a fresh sample of the embedded table, consistent, and well formed when the bank holds at least `QUIZ_SIZE` questions |
| App.Session.OnOptionSelect | src/main.rs:26-33 | the cells become `AfterSelect` of the old cells; `Consistent` and `WellFormed` are kept |
| App.Session.OnSubmit | src/main.rs:35-40 | the cells become `AfterSubmit` of the old cells; `Consistent` and `WellFormed` are kept |
| App.Session.OnNext | src/main.rs:42-56 | the cells become `AfterNext` of the old cells; `Consistent` and `WellFormed` are kept |
| App.Session.OnRetry | src/main.rs:58-72 | the cells become `AfterRetry` of the old cells on a fresh sample of the same table, which is `Step` on the retry intent; `Consistent` is kept, and `WellFormed` holds when the bank holds at least `QUIZ_SIZE` questions |
| App.Session.Results | src/main.rs:150-161 | on the results screen: the score is the number of correct positions, at most `QUIZ_SIZE`, with its percentage and message band |

## Left out

- Rendering (`html!`), `use_state` reactivity, `Callback` plumbing and `main` (src/main.rs:196-198): UI framework code. The cells are the fields of `Session`, and the callbacks are its methods.
- The `csv`/`serde` deserialisation and the `include_str!` embedded table (src/models.rs:44, 58-63): foreign libraries. Their output is a parameter, a sequence of row results.
- Console logging of the load error (src/models.rs:51, 71-73): I/O.
- The random draw of the start index (src/models.rs:124-125): randomness. The start is a parameter, required to lie in `0..=len-count`.
- The progress text and progress bar (src/main.rs:94-98): `f32` arithmetic, cosmetic.
- The confetti positions and animation delays (src/main.rs:177-183): cosmetic. Only the decision to show confetti is modelled.
- Percentage: the `f32` division at src/main.rs:152 is modelled as the integer `score * 100 / QUIZ_SIZE`. Both give 0, 20, 40, 60, 80 and 100 for scores 0 to 5.
- The message texts, emoji, CSS class names and option letters: static text. Styles, marks, feedback and bands are enumerations.
- `usize` is modelled as `nat`; none of the source's `usize` arithmetic can wrap or underflow:
  - src/models.rs:123 `len - count`: reached only when `len > count` (line 119).
  - src/models.rs:127 `start + count`: `start <= len - count`, so the sum is at most `len`.
  - src/main.rs:48 and src/main.rs:94 `current + 1`: the index stays below 5.
  - src/main.rs:79 `score += 1`: the score is at most the number of answers, 5.
  - src/main.rs:136 `QUIZ_SIZE - 1`: `QUIZ_SIZE` is the constant 5.
- The panic when the view indexes past the question list (src/main.rs:104-105): the model has no panic; it represents that point as an in-progress state with no question shown, in which no intent gets through (`OverrunIsPermanent`).
- Stale in-flight loads: the code loads synchronously from embedded data, so there is no asynchronous load to cancel.
