/** The quiz service: the fail-fast business-rule check run on every
    submitted quiz, the mapping of a validated draft to the records handed to
    the store, the error wrapping around creation, and the summary
    projection used for listing. */
module QuizzesService {
  import opened Text
  import opened Sequences
  import opened QuizModel

  /** The message of the `BadRequestException` thrown for a broken rule. */
  function Message(rule: Rule): string {
    match rule
    case BooleanAnswer => "Boolean questions must have correctAnswer as \"true\" or \"false\""
    case InputAnswer => "Input questions must have a correctAnswer"
    case TooFewOptions => "Checkbox questions must have at least 2 options"
    case NoCorrectAnswers => "Checkbox questions must have at least one correct answer"
    case AnswerNotInOptions => "All correct answers must be present in options"
    case UnknownType(name) => "Invalid question type: " + name
  }

  /** The message of the exception that replaces any other failure of creation. */
  const CreateFailedMessage: string := "Failed to create quiz"

  /** The correct answers that are not options (`invalidAnswers`). */
  function AnswersNotInOptions(answers: seq<string>, options: seq<string>): seq<string> {
    Filter(answers, (a: string) => a !in options)
  }

  /** One turn of the loop in `validateQuestions`: the switch on the type.
      A failure names a rule of the question's own type, or the unknown type. */
  function CheckQuestion(q: QuestionDraft): (r: Outcome<Rule>)
    ensures ParseType(q.questionType).None? <==> r == Fail(UnknownType(q.questionType))
    ensures r.Fail? && ParseType(q.questionType).Some? ==> r.error in RulesOf(ParseType(q.questionType).value)
  {
    match ParseType(q.questionType)
    case None => Fail(UnknownType(q.questionType))
    case Some(BOOLEAN) =>
      if !Truthy(q.correctAnswer) || Lower(q.correctAnswer.value) !in ["true", "false"] then Fail(BooleanAnswer)
      else Pass
    case Some(INPUT) =>
      if !Truthy(q.correctAnswer) || Trim(q.correctAnswer.value) == "" then Fail(InputAnswer)
      else Pass
    case Some(CHECKBOX) =>
      if q.options.None? || |q.options.value| < 2 then Fail(TooFewOptions)
      else if q.correctAnswers.None? || |q.correctAnswers.value| == 0 then Fail(NoCorrectAnswers)
      else if |AnswersNotInOptions(q.correctAnswers.value, q.options.value)| > 0 then Fail(AnswerNotInOptions)
      else Pass
  }

  /** No correct answer lies outside the options exactly when the filter of
      such answers comes back empty. */
  lemma AnswersNotInOptionsEmpty(answers: seq<string>, options: seq<string>)
    ensures |AnswersNotInOptions(answers, options)| == 0 <==> forall a :: a in answers ==> a in options
  {
    var bad := AnswersNotInOptions(answers, options);
    if |bad| > 0 {
      FilterMembers(answers, (a: string) => a !in options, bad[0]);
    }
    if a :| a in answers && a !in options {
      FilterMembers(answers, (a: string) => a !in options, a);
    }
  }

  /** The service's check accepts a question exactly when the rule table says
      it is well formed. */
  lemma CheckQuestionMatchesTable(q: QuestionDraft)
    ensures CheckQuestion(q).Pass? <==> WellFormed(q)
  {
    match ParseType(q.questionType)
    case None =>
    case Some(BOOLEAN) =>
      if q.correctAnswer.Some? {
        var s := q.correctAnswer.value;
        LowerEqualsIff(s, "true");
        LowerEqualsIff(s, "false");
      }
    case Some(INPUT) =>
      if q.correctAnswer.Some? {
        TrimEmptyIffBlank(q.correctAnswer.value);
      }
    case Some(CHECKBOX) =>
      if q.options.Some? && q.correctAnswers.Some? {
        AnswersNotInOptionsEmpty(q.correctAnswers.value, q.options.value);
      }
  }

  /** `validateQuestions`: the questions are checked in order and the first
      failure is thrown; it accepts exactly when every question passes. */
  function ValidateQuestions(qs: seq<QuestionDraft>): (r: Outcome<Rule>)
    ensures r.Pass? <==> forall i :: 0 <= i < |qs| ==> CheckQuestion(qs[i]).Pass?
  {
    if qs == [] then Pass
    else match CheckQuestion(qs[0])
      case Fail(e) => Fail(e)
      case Pass => ValidateQuestions(qs[1..])
  }

  /** Every question of an accepted list is well formed by the rule table. */
  lemma AcceptedAreWellFormed(qs: seq<QuestionDraft>)
    requires ValidateQuestions(qs).Pass?
    ensures forall i :: 0 <= i < |qs| ==> WellFormed(qs[i])
  {
    forall i | 0 <= i < |qs| ensures WellFormed(qs[i]) {
      CheckQuestionMatchesTable(qs[i]);
    }
  }

  /** Question `i` fails and every question before it passes. */
  predicate FirstFailure(qs: seq<QuestionDraft>, i: int) {
    0 <= i < |qs| && CheckQuestion(qs[i]).Fail? &&
    forall j :: 0 <= j < i ==> CheckQuestion(qs[j]).Pass?
  }

  /** A rejection carries the error of the lowest-index failing question. */
  lemma {:induction false} ValidateQuestionsReportsFirstFailure(qs: seq<QuestionDraft>)
    ensures ValidateQuestions(qs).Fail? ==>
      exists i :: FirstFailure(qs, i) && CheckQuestion(qs[i]) == ValidateQuestions(qs)
  {
    if qs != [] && CheckQuestion(qs[0]).Pass? && ValidateQuestions(qs[1..]).Fail? {
      ValidateQuestionsReportsFirstFailure(qs[1..]);
      var i :| FirstFailure(qs[1..], i) && CheckQuestion(qs[1..][i]) == ValidateQuestions(qs[1..]);
      assert FirstFailure(qs, i + 1) by {
        forall j | 0 <= j < i + 1 ensures CheckQuestion(qs[j]).Pass? {
          if j > 0 { assert qs[j] == qs[1..][j - 1]; }
        }
      }
    } else if qs != [] && CheckQuestion(qs[0]).Fail? {
      assert FirstFailure(qs, 0);
    }
  }

  /** A question as persisted, before the store adds identifiers and times. */
  datatype QuestionRecord = QuestionRecord(
    text: string,
    questionType: string,
    options: seq<string>,
    correctAnswer: Option<string>,
    correctAnswers: seq<string>)

  /** What `create` hands to the store: the title and the question records. */
  datatype CreateData = CreateData(title: string, questions: seq<QuestionRecord>)

  /** `x || []` on an optional array. */
  function OrEmpty(s: Option<seq<string>>): seq<string> {
    if s.Some? then s.value else []
  }

  /** The record built for one question: text and type copied, missing arrays
      become empty, and a missing or empty answer becomes null; everything
      else is kept exactly as submitted. */
  function ToRecord(q: QuestionDraft): (r: QuestionRecord)
    ensures r.text == q.text && r.questionType == q.questionType
    ensures q.options.Some? ==> r.options == q.options.value
    ensures q.options.None? ==> r.options == []
    ensures q.correctAnswers.Some? ==> r.correctAnswers == q.correctAnswers.value
    ensures q.correctAnswers.None? ==> r.correctAnswers == []
    ensures Truthy(q.correctAnswer) ==> r.correctAnswer == q.correctAnswer
    ensures !Truthy(q.correctAnswer) ==> r.correctAnswer.None?
    ensures r.correctAnswer != Some("")
  {
    QuestionRecord(
      q.text,
      q.questionType,
      OrEmpty(q.options),
      if Truthy(q.correctAnswer) then q.correctAnswer else None,
      OrEmpty(q.correctAnswers))
  }

  function ToCreateData(dto: QuizDraft): (r: CreateData)
    ensures r.title == dto.title && |r.questions| == |dto.questions|
    ensures forall i :: 0 <= i < |r.questions| ==> r.questions[i] == ToRecord(dto.questions[i])
  {
    CreateData(dto.title, seq(|dto.questions|, i requires 0 <= i < |dto.questions| => ToRecord(dto.questions[i])))
  }

  /** A stored record read back as a request question, every field present
      except a null answer. */
  function RecordAsDraft(r: QuestionRecord): QuestionDraft {
    QuestionDraft(r.text, r.questionType, Some(r.options), r.correctAnswer, Some(r.correctAnswers))
  }

  /** Normalising loses nothing the check looks at: a stored question, read
      back, gets the verdict its request question got, rule included. */
  lemma RecordKeepsVerdict(q: QuestionDraft)
    ensures CheckQuestion(RecordAsDraft(ToRecord(q))) == CheckQuestion(q)
  {
    var d := RecordAsDraft(ToRecord(q));
    assert AnswersNotInOptions(OrEmpty(q.correctAnswers), OrEmpty(q.options)) ==
      AnswersNotInOptions(d.correctAnswers.value, d.options.value);
  }

  /** Normalising a stored question again changes nothing. */
  lemma ToRecordIdempotent(q: QuestionDraft)
    ensures ToRecord(RecordAsDraft(ToRecord(q))) == ToRecord(q)
  {
  }

  /** A question as the store returns it. */
  datatype StoredQuestion = StoredQuestion(
    id: string,
    quizId: string,
    record: QuestionRecord,
    createdAt: int,
    updatedAt: int)

  /** A quiz as the store returns it; times are opaque instants. */
  datatype StoredQuiz = StoredQuiz(
    id: string,
    title: string,
    createdAt: int,
    updatedAt: int,
    questions: seq<StoredQuestion>)

  /** The outcome of `create`: the stored quiz or a `BadRequestException`. */
  datatype CreateResponse = Created(quiz: StoredQuiz) | BadRequest(message: string)

  /** `create`. The store is a parameter: it either returns the stored quiz
      or fails (`None`). Validation runs first; its exception passes through
      unchanged and any failure of the store becomes a generic one. */
  function Create(dto: QuizDraft, store: CreateData -> Option<StoredQuiz>): (r: CreateResponse)
    ensures r.Created? ==> forall i :: 0 <= i < |dto.questions| ==> WellFormed(dto.questions[i])
    ensures r.Created? ==> store(ToCreateData(dto)) == Some(r.quiz)
    ensures ValidateQuestions(dto.questions).Fail? ==> r == BadRequest(Message(ValidateQuestions(dto.questions).error))
    ensures ValidateQuestions(dto.questions).Pass? && store(ToCreateData(dto)).Some? ==>
      r == Created(store(ToCreateData(dto)).value)
    ensures ValidateQuestions(dto.questions).Pass? && store(ToCreateData(dto)).None? ==>
      r == BadRequest(CreateFailedMessage)
  {
    match ValidateQuestions(dto.questions)
    case Fail(rule) => BadRequest(Message(rule))
    case Pass =>
      AcceptedAreWellFormed(dto.questions);
      match store(ToCreateData(dto))
      case None => BadRequest(CreateFailedMessage)
      case Some(quiz) => Created(quiz)
  }

  /** Validation precedes persistence: a rejected quiz never reaches the
      store, so the outcome does not depend on what the store would do. */
  lemma CreateRejectsBeforeStoring(dto: QuizDraft, store1: CreateData -> Option<StoredQuiz>, store2: CreateData -> Option<StoredQuiz>)
    requires !forall i :: 0 <= i < |dto.questions| ==> WellFormed(dto.questions[i])
    ensures Create(dto, store1) == Create(dto, store2)
    ensures Create(dto, store1).BadRequest?
  {
    var i :| 0 <= i < |dto.questions| && !WellFormed(dto.questions[i]);
    CheckQuestionMatchesTable(dto.questions[i]);
  }

  /** Creation succeeds exactly when every question is well formed and the
      store returns a quiz. */
  lemma CreateSucceedsIff(dto: QuizDraft, store: CreateData -> Option<StoredQuiz>)
    ensures Create(dto, store).Created? <==>
      (forall i :: 0 <= i < |dto.questions| ==> WellFormed(dto.questions[i])) && store(ToCreateData(dto)).Some?
  {
    if forall i :: 0 <= i < |dto.questions| ==> WellFormed(dto.questions[i]) {
      forall i | 0 <= i < |dto.questions| ensures CheckQuestion(dto.questions[i]).Pass? {
        CheckQuestionMatchesTable(dto.questions[i]);
      }
    }
  }

  /** The generic failure is told apart from every validation message, so
      a rejected quiz never reads as a storage failure. */
  lemma StoreFailureDistinguishable(rule: Rule)
    ensures Message(rule) != CreateFailedMessage
  {
    assert CreateFailedMessage[0] == 'F';
    match rule
    case UnknownType(name) => assert Message(rule)[0] == 'I';
    case _ =>
  }

  /** The listing projection of a quiz. */
  datatype QuizSummary = QuizSummary(id: string, title: string, questionCount: nat, createdAt: int)

  /** `findAll`'s projection: one summary per stored quiz, in the store's
      order, with the question count derived from the questions. */
  function Summaries(quizzes: seq<StoredQuiz>): (r: seq<QuizSummary>)
    ensures |r| == |quizzes|
    ensures forall i :: 0 <= i < |r| ==>
      r[i].id == quizzes[i].id && r[i].title == quizzes[i].title &&
      r[i].questionCount == |quizzes[i].questions| && r[i].createdAt == quizzes[i].createdAt
  {
    seq(|quizzes|, i requires 0 <= i < |quizzes| =>
      QuizSummary(quizzes[i].id, quizzes[i].title, |quizzes[i].questions|, quizzes[i].createdAt))
  }
}
