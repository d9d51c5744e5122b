/** The quiz creation page: the question list of the form, with the default
    question it starts from and appends, removal of a question, and the
    transform that turns the form's data into the request body. */
module CreatePage {
  import opened Sequences
  import opened QuizModel
  import opened QuizSchema
  import QuizzesService

  /** The question the form starts with and `addQuestion` appends. */
  function DefaultQuestion(): QuestionDraft {
    QuestionDraft("", TypeName(BOOLEAN), Some([]), Some(""), Some([]))
  }

  /** A fresh question is rejected until it is edited: it has no text and
      no answer. */
  lemma DefaultQuestionNeedsEditing()
    ensures ParseQuestion(DefaultQuestion()) ==
      [Issue([Key("text")], TextRequired), IssueOf(BooleanAnswer)]
    ensures QuizzesService.CheckQuestion(DefaultQuestion()) == Fail(BooleanAnswer)
  {
    var q := DefaultQuestion();
    BrokenRules(q, BOOLEAN);
  }

  /** One question of the request body: a checkbox question carries only
      its arrays (missing ones become empty), any other question only its
      answer (missing or empty becomes `''`). */
  function ToPayloadQuestion(q: QuestionDraft): (r: QuestionDraft)
    ensures r.text == q.text && r.questionType == q.questionType
    ensures q.questionType == TypeName(CHECKBOX) ==>
      r.correctAnswer.None? &&
      r.options == Some(QuizzesService.OrEmpty(q.options)) &&
      r.correctAnswers == Some(QuizzesService.OrEmpty(q.correctAnswers))
    ensures q.questionType != TypeName(CHECKBOX) ==>
      r.options.None? && r.correctAnswers.None? && r.correctAnswer.Some? &&
      (Truthy(q.correctAnswer) ==> r.correctAnswer == q.correctAnswer) &&
      (!Truthy(q.correctAnswer) ==> r.correctAnswer == Some(""))
  {
    if q.questionType == TypeName(CHECKBOX) then
      QuestionDraft(q.text, q.questionType,
        Some(QuizzesService.OrEmpty(q.options)), None, Some(QuizzesService.OrEmpty(q.correctAnswers)))
    else
      QuestionDraft(q.text, q.questionType, None,
        Some(if Truthy(q.correctAnswer) then q.correctAnswer.value else ""), None)
  }

  /** The transform in `onSubmit`: the title unchanged and one payload
      question per form question, in order. */
  function ToPayload(form: QuizDraft): (r: QuizDraft)
    ensures r.title == form.title && |r.questions| == |form.questions|
    ensures forall i :: 0 <= i < |r.questions| ==> r.questions[i] == ToPayloadQuestion(form.questions[i])
  {
    QuizDraft(form.title, seq(|form.questions|, i requires 0 <= i < |form.questions| => ToPayloadQuestion(form.questions[i])))
  }

  /** Dropping and defaulting fields never changes the service's verdict on
      a question, not even which rule it reports. */
  lemma PayloadKeepsVerdict(q: QuestionDraft)
    ensures QuizzesService.CheckQuestion(ToPayloadQuestion(q)) == QuizzesService.CheckQuestion(q)
  {
  }

  lemma {:induction false} PayloadKeepsValidation(qs: seq<QuestionDraft>, ps: seq<QuestionDraft>)
    requires |ps| == |qs|
    requires forall i :: 0 <= i < |qs| ==> ps[i] == ToPayloadQuestion(qs[i])
    ensures QuizzesService.ValidateQuestions(ps) == QuizzesService.ValidateQuestions(qs)
  {
    if qs != [] {
      PayloadKeepsVerdict(qs[0]);
      PayloadKeepsValidation(qs[1..], ps[1..]);
    }
  }

  /** What the form accepts, the service accepts once transformed: a quiz
      without schema issues is sent with questions the service passes. */
  lemma AcceptedFormPassesService(form: QuizDraft)
    requires QuizIssues(form) == []
    ensures QuizzesService.ValidateQuestions(ToPayload(form).questions).Pass?
  {
    QuizAcceptedIff(form);
    PayloadKeepsValidation(form.questions, ToPayload(form).questions);
    forall i | 0 <= i < |form.questions| ensures QuizzesService.CheckQuestion(form.questions[i]).Pass? {
      QuizzesService.CheckQuestionMatchesTable(form.questions[i]);
    }
  }

  /** The form of the creation page. */
  class QuizForm {
    var title: string
    var questions: seq<QuestionDraft>

    constructor ()
      ensures title == "" && questions == [DefaultQuestion()]
    {
      title := "";
      questions := [DefaultQuestion()];
    }

    /** The remove button of a question is offered only when more than one
        question exists. */
    predicate CanRemoveQuestion()
      reads this
    {
      |questions| > 1
    }

    /** `addQuestion`: a default question at the end. */
    method AddQuestion()
      modifies this
      ensures questions == old(questions) + [DefaultQuestion()]
      ensures title == old(title)
    {
      questions := questions + [DefaultQuestion()];
    }

    /** `removeQuestion`: exactly entry `i` goes; through the offered button
        the list never becomes empty. */
    method RemoveQuestion(i: nat)
      requires i < |questions|
      modifies this
      ensures questions == RemoveAt(old(questions), i)
      ensures old(CanRemoveQuestion()) ==> |questions| >= 1
      ensures title == old(title)
    {
      questions := RemoveAt(questions, i);
    }

    /** Submitting: the schema is checked first, and only a form without
        issues is transformed into a request body. */
    method Submit() returns (body: Option<QuizDraft>)
      ensures body.Some? <==> QuizIssues(QuizDraft(title, questions)) == []
      ensures body.Some? ==> body.value == ToPayload(QuizDraft(title, questions))
      ensures body.Some? ==> QuizzesService.ValidateQuestions(body.value.questions).Pass?
    {
      var form := QuizDraft(title, questions);
      if QuizIssues(form) == [] {
        AcceptedFormPassesService(form);
        body := Some(ToPayload(form));
      } else {
        body := None;
      }
    }
  }
}
