/** The data shared by the quiz client and the quiz service: question types,
    question drafts as submitted, and the per-type rule table that both
    validators enforce. */
module QuizModel {
  import opened Text

  datatype Option<T> = None | Some(value: T)

  /** Result of a check that either passes or reports one error. */
  datatype Outcome<E> = Pass | Fail(error: E)

  /** The closed `QuestionType` enumeration. */
  datatype QuestionType = BOOLEAN | INPUT | CHECKBOX

  /** The string value each enumeration member carries on the wire. */
  function TypeName(t: QuestionType): string {
    match t
    case BOOLEAN => "BOOLEAN"
    case INPUT => "INPUT"
    case CHECKBOX => "CHECKBOX"
  }

  /** Reads a raw `type` field: only the three enumeration strings name a type. */
  function ParseType(s: string): (r: Option<QuestionType>)
    ensures r.Some? ==> TypeName(r.value) == s
    ensures r.None? ==> forall t :: TypeName(t) != s
  {
    if s == "BOOLEAN" then Some(BOOLEAN)
    else if s == "INPUT" then Some(INPUT)
    else if s == "CHECKBOX" then Some(CHECKBOX)
    else None
  }

  /** A question before persistence, as the form holds it and as the request
      body carries it. `type` is the raw string, since the service's check
      sees whatever the body holds; absent fields are `None`. */
  datatype QuestionDraft = QuestionDraft(
    text: string,
    questionType: string,
    options: Option<seq<string>>,
    correctAnswer: Option<string>,
    correctAnswers: Option<seq<string>>)

  /** A quiz before persistence: a title and its ordered questions. */
  datatype QuizDraft = QuizDraft(title: string, questions: seq<QuestionDraft>)

  /** JavaScript truthiness of an optional string: present and not `''`. */
  predicate Truthy(a: Option<string>) {
    a.Some? && a.value != ""
  }

  /** The rules of the per-type table; each validator reports broken rules
      in its own words. */
  datatype Rule =
    | BooleanAnswer       // correctAnswer must be "true" or "false"
    | InputAnswer         // correctAnswer must not be blank
    | TooFewOptions       // at least two options
    | NoCorrectAnswers    // at least one correct answer
    | AnswerNotInOptions  // every correct answer is an option
    | UnknownType(name: string)

  /** The rules that apply to a type, in the order both validators check them. */
  function RulesOf(t: QuestionType): (r: seq<Rule>)
    ensures 1 <= |r| <= 3
  {
    match t
    case BOOLEAN => [BooleanAnswer]
    case INPUT => [InputAnswer]
    case CHECKBOX => [TooFewOptions, NoCorrectAnswers, AnswerNotInOptions]
  }

  /** The rule table, stated on its own terms: a BOOLEAN answer is "true" or
      "false" up to case, an INPUT answer has a non-whitespace character, a
      CHECKBOX question has two options, one correct answer, and only
      options as correct answers. Any other type is never well formed. */
  predicate WellFormed(q: QuestionDraft) {
    match ParseType(q.questionType)
    case None => false
    case Some(BOOLEAN) =>
      q.correctAnswer.Some? &&
      (EqualsIgnoreCase(q.correctAnswer.value, "true") || EqualsIgnoreCase(q.correctAnswer.value, "false"))
    case Some(INPUT) =>
      q.correctAnswer.Some? && !IsBlank(q.correctAnswer.value)
    case Some(CHECKBOX) =>
      q.options.Some? && |q.options.value| >= 2 &&
      q.correctAnswers.Some? && |q.correctAnswers.value| >= 1 &&
      forall a :: a in q.correctAnswers.value ==> a in q.options.value
  }

  lemma ParseTypeName(t: QuestionType)
    ensures ParseType(TypeName(t)) == Some(t)
  {
  }
}
