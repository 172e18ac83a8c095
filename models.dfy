/**
 * The question model of the quiz: questions, the rows of the embedded CSV
 * table, parsing with early exit on the first bad row, the hard-coded
 * fallback bank, and the sampler that picks a contiguous run of questions.
 *
 * The CSV reader itself is a foreign library: its output is modelled as the
 * sequence of row results it yields, one `Result` per row.  The random start
 * index of the sampler is a parameter.
 */
module Models {
  import opened Wrappers

  /** A multiple-choice question.  `correctAnswerIndex` is a `usize`. */
  datatype Question = Question(text: string, options: seq<string>, correctAnswerIndex: nat)

  /** One deserialised row of the CSV table (the `id` column is read and ignored). */
  datatype QuestionRecord = QuestionRecord(
    id: nat,
    question: string,
    option1: string,
    option2: string,
    option3: string,
    option4: string,
    correctAnswerIndex: nat)

  /** What the CSV reader reports for a row it cannot deserialise. */
  datatype CsvError = CsvError(message: string)

  /** The integrity condition the loader never checks: the correct index names an option. */
  predicate HasValidAnswer(q: Question)
  {
    q.correctAnswerIndex < |q.options|
  }

  /** `Question::new`: options keep their number and order, the index is stored as given. */
  function NewQuestion(text: string, options: seq<string>, correctAnswerIndex: nat): (q: Question)
    ensures q.text == text
    ensures |q.options| == |options|
    ensures forall i :: 0 <= i < |options| ==> q.options[i] == options[i]
    ensures q.correctAnswerIndex == correctAnswerIndex
  {
    Question(text, options, correctAnswerIndex)
  }

  /** `Question::from_record`: always four options, in column order; the index is not range-checked. */
  function FromRecord(record: QuestionRecord): (q: Question)
    ensures q.text == record.question
    ensures |q.options| == 4
    ensures q.options[0] == record.option1 && q.options[1] == record.option2
    ensures q.options[2] == record.option3 && q.options[3] == record.option4
    ensures q.correctAnswerIndex == record.correctAnswerIndex
  {
    Question(record.question, [record.option1, record.option2, record.option3, record.option4],
             record.correctAnswerIndex)
  }

  /** A row becomes a well-formed question exactly when its index is below four; nothing rejects the others. */
  lemma FromRecordValidIff(record: QuestionRecord)
    ensures HasValidAnswer(FromRecord(record)) <==> record.correctAnswerIndex < 4
  {
  }

  /**
   * The meaning of parsing: stop at the first failing row and report its
   * error, otherwise one question per row in row order.
   */
  function Parse(records: seq<Result<QuestionRecord, CsvError>>): Result<seq<Question>, CsvError>
    decreases |records|
  {
    if records == [] then Ok([])
    else match records[0]
      case Err(e) => Err(e)
      case Ok(record) =>
        match Parse(records[1..])
        case Err(e) => Err(e)
        case Ok(rest) => Ok([FromRecord(record)] + rest)
  }

  /** When every row deserialises, parsing yields one question per row, in order. */
  lemma {:induction false} ParseAllOk(records: seq<Result<QuestionRecord, CsvError>>)
    requires forall j :: 0 <= j < |records| ==> records[j].Ok?
    ensures Parse(records).Ok?
    ensures |Parse(records).value| == |records|
    ensures forall j :: 0 <= j < |records| ==> Parse(records).value[j] == FromRecord(records[j].value)
  {
    if records != [] {
      ParseAllOk(records[1..]);
      var rest := Parse(records[1..]).value;
      assert Parse(records).value == [FromRecord(records[0].value)] + rest;
      forall j | 0 <= j < |records|
        ensures Parse(records).value[j] == FromRecord(records[j].value)
      {
        if j > 0 {
          assert records[1..][j - 1] == records[j];
        }
      }
    }
  }

  /** The error reported is the one of the first failing row. */
  lemma {:induction false} ParseFirstErr(records: seq<Result<QuestionRecord, CsvError>>, i: nat)
    requires i < |records| && records[i].Err?
    requires forall j :: 0 <= j < i ==> records[j].Ok?
    ensures Parse(records) == Err(records[i].error)
  {
    if i > 0 {
      assert records[1..][i - 1] == records[i];
      ParseFirstErr(records[1..], i - 1);
    }
  }

  /** Parsing succeeds if and only if no row fails. */
  lemma {:induction false} ParseOkIff(records: seq<Result<QuestionRecord, CsvError>>)
    ensures Parse(records).Ok? <==> forall j :: 0 <= j < |records| ==> records[j].Ok?
    decreases |records|
  {
    if records != [] {
      ParseOkIff(records[1..]);
      assert forall j :: 0 <= j < |records| - 1 ==> records[1..][j] == records[j + 1];
    }
  }

  /**
   * `parse_questions_from_csv`: push one question per row into a vector,
   * returning the first row error as soon as it is met.
   */
  method ParseQuestionsFromCsv(records: seq<Result<QuestionRecord, CsvError>>)
    returns (parsed: Result<seq<Question>, CsvError>)
    ensures parsed == Parse(records)
  {
    var questions: seq<Question> := [];
    var i := 0;
    while i < |records|
      invariant 0 <= i <= |records|
      invariant forall j :: 0 <= j < i ==> records[j].Ok?
      invariant |questions| == i
      invariant forall j :: 0 <= j < i ==> questions[j] == FromRecord(records[j].value)
    {
      match records[i] {
        case Err(e) =>
          ParseFirstErr(records, i);
          parsed := Err(e);
          return;
        case Ok(record) =>
          questions := questions + [FromRecord(record)];
      }
      i := i + 1;
    }
    ParseAllOk(records);
    assert questions == Parse(records).value;
    parsed := Ok(questions);
  }

  /** `get_fallback_questions`: the three hard-coded questions. */
  function FallbackQuestions(): (qs: seq<Question>)
    ensures |qs| == 3
    ensures forall q :: q in qs ==> |q.options| == 4 && HasValidAnswer(q)
  {
    [
      NewQuestion(
        "Dans quelle période "
        + "préhistorique les "
        + "premiers outils en "
        + "pierre taillée ont-ils "
        + "été utilisés ?",
        ["Le Paléolithique inférieur", "Le Néolithique", "Le Mésolithique", "L'âge du bronze"],
        0),
      NewQuestion(
        "Quel hominidé est "
        + "associé à la culture "
        + "moustérienne ?",
        ["Homo habilis", "Néandertal", "Homo sapiens", "Australopithèque"],
        1),
      NewQuestion(
        "Comment appelle-t-on "
        + "les dessins réalisés "
        + "sur les parois des "
        + "grottes, comme à "
        + "Lascaux ?",
        ["Art rupestre", "Fresque primitive", "Peinture paléolithique", "Pictogramme préhistorique"],
        0)
    ]
  }

  /** `get_all_questions`: the parsed bank, even an empty one, or the fallback bank on any error. */
  function GetAllQuestions(records: seq<Result<QuestionRecord, CsvError>>): (qs: seq<Question>)
    ensures Parse(records).Ok? ==> qs == Parse(records).value
    ensures Parse(records).Err? ==> qs == FallbackQuestions()
  {
    match Parse(records)
    case Ok(questions) => questions
    case Err(_) => FallbackQuestions()
  }

  /** The bank is the fallback exactly when some row fails; otherwise it has one question per row. */
  lemma GetAllQuestionsCases(records: seq<Result<QuestionRecord, CsvError>>)
    ensures (exists j :: 0 <= j < |records| && records[j].Err?) ==> GetAllQuestions(records) == FallbackQuestions()
    ensures (forall j :: 0 <= j < |records| ==> records[j].Ok?) ==>
              |GetAllQuestions(records)| == |records| &&
              forall j :: 0 <= j < |records| ==> GetAllQuestions(records)[j] == FromRecord(records[j].value)
  {
    ParseOkIff(records);
    if forall j :: 0 <= j < |records| ==> records[j].Ok? {
      ParseAllOk(records);
    }
  }

  /** A table with no data rows is not an error: the bank is empty, not the fallback. */
  lemma EmptyTableGivesEmptyBank()
    ensures GetAllQuestions([]) == []
  {
  }

  /** The range the random start index is drawn from: `0..=len-count`, when the bank is longer than `count`. */
  predicate StartInRange(bankLength: nat, count: nat, start: nat)
  {
    bankLength > count ==> start <= bankLength - count
  }

  /**
   * The selection step of `get_random_question_sequence`: the whole bank when
   * it has at most `count` questions, otherwise `count` consecutive questions
   * beginning at `start`.
   */
  function Sample(bank: seq<Question>, count: nat, start: nat): (r: seq<Question>)
    requires StartInRange(|bank|, count, start)
    ensures |bank| <= count ==> r == bank
    ensures |bank| > count ==> |r| == count && forall k :: 0 <= k < count ==> r[k] == bank[start + k]
  {
    if |bank| <= count then bank else bank[start..start + count]
  }

  /** The sample is never longer than `count` or than the bank, and is as long as the smaller of the two. */
  lemma SampleLength(bank: seq<Question>, count: nat, start: nat)
    requires StartInRange(|bank|, count, start)
    ensures |Sample(bank, count, start)| == if |bank| <= count then |bank| else count
  {
  }

  /** `r` is the run of `bank` that begins at index `s`. */
  predicate IsRunAt(r: seq<Question>, bank: seq<Question>, s: nat)
  {
    s + |r| <= |bank| && r == bank[s..s + |r|]
  }

  /** Whatever the start, the sample is a contiguous run of the bank, in bank order, beginning at a start in range. */
  lemma SampleIsContiguous(bank: seq<Question>, count: nat, start: nat)
    requires StartInRange(|bank|, count, start)
    ensures exists s :: StartInRange(|bank|, count, s) && IsRunAt(Sample(bank, count, start), bank, s)
  {
    var r := Sample(bank, count, start);
    if |bank| <= count {
      assert bank[0..0 + |r|] == bank;
      assert IsRunAt(r, bank, 0);
    } else {
      assert IsRunAt(r, bank, start);
    }
  }

  /**
   * `get_random_question_sequence`: sample the bank returned by
   * `get_all_questions`.  The first argument is ignored, as in the source.
   */
  function GetRandomQuestionSequence(totalQuestions: nat, count: nat,
                                     records: seq<Result<QuestionRecord, CsvError>>, start: nat): (r: seq<Question>)
    requires StartInRange(|GetAllQuestions(records)|, count, start)
    ensures |r| <= count
    ensures forall q :: q in r ==> q in GetAllQuestions(records)
  {
    Sample(GetAllQuestions(records), count, start)
  }

  /** The sampled sequence does not depend on the ignored `_total_questions` argument. */
  lemma TotalQuestionsIgnored(t1: nat, t2: nat, count: nat,
                              records: seq<Result<QuestionRecord, CsvError>>, start: nat)
    requires StartInRange(|GetAllQuestions(records)|, count, start)
    ensures GetRandomQuestionSequence(t1, count, records, start) == GetRandomQuestionSequence(t2, count, records, start)
  {
  }

  /** After any row error, a request for three or more questions gets the three fallback questions, whatever the start. */
  lemma FallbackSequence(totalQuestions: nat, count: nat,
                         records: seq<Result<QuestionRecord, CsvError>>, start: nat)
    requires exists j :: 0 <= j < |records| && records[j].Err?
    requires count >= 3
    ensures StartInRange(|GetAllQuestions(records)|, count, start)
    ensures GetRandomQuestionSequence(totalQuestions, count, records, start) == FallbackQuestions()
  {
    GetAllQuestionsCases(records);
  }
}
