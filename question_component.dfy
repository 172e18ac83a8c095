/**
 * The decisions the question view makes for one question: which style each
 * option button gets, which mark it shows, whether a click on it reaches the
 * selection callback, and which overall feedback is shown.  All of them are
 * total functions of the selected option, the submitted flag and the
 * question's correct index.
 */
module QuestionComponent {
  import opened Wrappers
  import opened Models

  /** The CSS class chosen for an option button. */
  datatype OptionStyle = Plain | Selected | Correct | Incorrect

  /** The mark shown after the option text. */
  datatype Mark = NoMark | Checkmark | Cross

  /** The feedback block under the options. */
  datatype Feedback = Hidden | FeedbackCorrect | FeedbackIncorrect

  /** The style of option `index`: after submission correct and wrong picks are revealed, before it only the pick is. */
  function StyleOf(index: nat, selectedOption: Option<nat>, isSubmitted: bool, correctAnswer: nat): (style: OptionStyle)
    ensures isSubmitted ==> (style == Correct <==> index == correctAnswer)
    ensures isSubmitted ==> (style == Incorrect <==> selectedOption == Some(index) && index != correctAnswer)
    ensures isSubmitted ==> style != Selected
    ensures !isSubmitted ==> (style == Selected <==> selectedOption == Some(index))
    ensures !isSubmitted ==> style == Selected || style == Plain
  {
    var isSelected := selectedOption == Some(index);
    var isCorrect := index == correctAnswer;
    if isSubmitted then
      if isCorrect then Correct
      else if isSelected && !isCorrect then Incorrect
      else Plain
    else if isSelected then Selected
    else Plain
  }

  /** The mark of option `index`: a check on the correct option and a cross on a wrong pick, only once submitted. */
  function MarkOf(index: nat, selectedOption: Option<nat>, isSubmitted: bool, correctAnswer: nat): (mark: Mark)
    ensures mark == Checkmark <==> isSubmitted && index == correctAnswer
    ensures mark == Cross <==> isSubmitted && selectedOption == Some(index) && index != correctAnswer
  {
    var isSelected := selectedOption == Some(index);
    var isCorrect := index == correctAnswer;
    if isSubmitted && isCorrect then Checkmark
    else if isSubmitted && isSelected && !isCorrect then Cross
    else NoMark
  }

  /** The mark always agrees with the style: a check exactly on the correct style, a cross exactly on the incorrect one. */
  lemma MarkAgreesWithStyle(index: nat, selectedOption: Option<nat>, isSubmitted: bool, correctAnswer: nat)
    ensures var mark, style := MarkOf(index, selectedOption, isSubmitted, correctAnswer),
                               StyleOf(index, selectedOption, isSubmitted, correctAnswer);
      && (mark == Checkmark <==> style == Correct)
      && (mark == Cross <==> style == Incorrect)
      && (mark == NoMark <==> style == Plain || style == Selected)
  {
  }

  /** The styles of all option buttons, in option order. */
  function OptionStyles(question: Question, selectedOption: Option<nat>, isSubmitted: bool): (styles: seq<OptionStyle>)
    ensures |styles| == |question.options|
    ensures forall i :: 0 <= i < |styles| ==>
              styles[i] == StyleOf(i, selectedOption, isSubmitted, question.correctAnswerIndex)
  {
    seq(|question.options|, i requires 0 <= i => StyleOf(i, selectedOption, isSubmitted, question.correctAnswerIndex))
  }

  /** The marks of all option buttons, in option order. */
  function OptionMarks(question: Question, selectedOption: Option<nat>, isSubmitted: bool): (marks: seq<Mark>)
    ensures |marks| == |question.options|
    ensures forall i :: 0 <= i < |marks| ==>
              marks[i] == MarkOf(i, selectedOption, isSubmitted, question.correctAnswerIndex)
  {
    seq(|question.options|, i requires 0 <= i => MarkOf(i, selectedOption, isSubmitted, question.correctAnswerIndex))
  }

  /**
   * Whatever is selected, two different buttons are never both styled
   * correct, never both incorrect and never both selected.
   */
  lemma AtMostOneOfEach(question: Question, selectedOption: Option<nat>, isSubmitted: bool, j: nat, k: nat)
    requires j < |question.options| && k < |question.options| && j != k
    ensures var styles := OptionStyles(question, selectedOption, isSubmitted);
      && !(styles[j] == Correct && styles[k] == Correct)
      && !(styles[j] == Incorrect && styles[k] == Incorrect)
      && !(styles[j] == Selected && styles[k] == Selected)
  {
  }

  /**
   * After submission some button is styled correct exactly when the correct
   * index names an option: the loader's missing range check leaves a
   * question with no highlighted answer.
   */
  lemma CorrectShownIffIndexInRange(question: Question, selectedOption: Option<nat>)
    ensures var styles := OptionStyles(question, selectedOption, true);
      (exists j :: 0 <= j < |styles| && styles[j] == Correct) <==> HasValidAnswer(question)
  {
    var styles := OptionStyles(question, selectedOption, true);
    if HasValidAnswer(question) {
      assert styles[question.correctAnswerIndex] == Correct;
    }
  }

  /** `on_click` of option `index`: the selection callback gets the index only while the answer is not submitted. */
  function ClickEmits(index: nat, isSubmitted: bool): (emitted: Option<nat>)
    ensures emitted.Some? <==> !isSubmitted
    ensures emitted.Some? ==> emitted.value == index
  {
    if !isSubmitted then Some(index) else None
  }

  /** The feedback block: shown only after submission, and correct exactly when the pick is the correct index. */
  function FeedbackOf(selectedOption: Option<nat>, isSubmitted: bool, correctAnswer: nat): (feedback: Feedback)
    ensures feedback == Hidden <==> !isSubmitted
    ensures feedback == FeedbackCorrect <==> isSubmitted && selectedOption == Some(correctAnswer)
  {
    if isSubmitted then
      if selectedOption == Some(correctAnswer) then FeedbackCorrect else FeedbackIncorrect
    else Hidden
  }

  /**
   * After submission the feedback agrees with the picked button: correct
   * feedback exactly when the pick is styled correct, incorrect feedback
   * exactly when it is styled incorrect.
   */
  lemma FeedbackAgreesWithStyles(question: Question, picked: nat)
    requires picked < |question.options|
    ensures var styles := OptionStyles(question, Some(picked), true);
      && (FeedbackOf(Some(picked), true, question.correctAnswerIndex) == FeedbackCorrect <==> styles[picked] == Correct)
      && (FeedbackOf(Some(picked), true, question.correctAnswerIndex) == FeedbackIncorrect <==> styles[picked] == Incorrect)
  {
  }

  /** With an out-of-range correct index no pick of a rendered option can ever get correct feedback. */
  lemma OutOfRangeNeverCorrect(question: Question, picked: nat)
    requires !HasValidAnswer(question)
    requires picked < |question.options|
    ensures FeedbackOf(Some(picked), true, question.correctAnswerIndex) == FeedbackIncorrect
  {
  }
}
