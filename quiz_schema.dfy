/** The client's form schema: the field rules of `questionSchema`, its
    `superRefine` callback that collects every broken rule as an issue tagged
    with a field path, and `quizSchema` around the question list. Unlike the
    service, nothing here stops at the first problem. */
module QuizSchema {
  import opened Text
  import opened Sequences
  import opened QuizModel
  import QuizzesService

  /** One step of an issue path: an object key or an array position. */
  datatype PathSeg = Key(name: string) | At(index: nat)

  /** A validation issue: where it is and what it says. */
  datatype Issue = Issue(path: seq<PathSeg>, message: string)

  /** The message the schema library gives a value outside the enumeration. */
  function EnumMessage(received: string): string {
    "Invalid enum value. Expected 'BOOLEAN' | 'INPUT' | 'CHECKBOX', received '" + received + "'"
  }

  const BooleanAnswerRequired: string := "Boolean questions must have correctAnswer as \"true\" or \"false\""
  const InputAnswerRequired: string := "Input questions must have a correct answer"
  const TwoOptionsRequired: string := "Checkbox questions must have at least 2 options"
  const CorrectAnswerRequired: string := "Checkbox questions must have at least one correct answer"
  const AnswersInOptionsRequired: string := "All correct answers must be present in options"
  const TextRequired: string := "Question text is required"
  const TitleRequired: string := "Quiz title is required"
  const QuestionRequired: string := "At least one question is required"

  /** The issue the schema adds for a broken rule. */
  function IssueOf(rule: Rule): Issue {
    match rule
    case BooleanAnswer =>
      Issue([Key("correctAnswer")], BooleanAnswerRequired)
    case InputAnswer =>
      Issue([Key("correctAnswer")], InputAnswerRequired)
    case TooFewOptions =>
      Issue([Key("options")], TwoOptionsRequired)
    case NoCorrectAnswers =>
      Issue([Key("correctAnswers")], CorrectAnswerRequired)
    case AnswerNotInOptions =>
      Issue([Key("correctAnswers")], AnswersInOptionsRequired)
    case UnknownType(name) =>
      Issue([Key("type")], EnumMessage(name))
  }

  /** The checks of the refinement callback, one per rule. */
  predicate BadBooleanAnswer(a: Option<string>) {
    !Truthy(a) || Lower(a.value) !in ["true", "false"]
  }

  predicate BadInputAnswer(a: Option<string>) {
    !Truthy(a) || Trim(a.value) == ""
  }

  predicate TooFew(options: Option<seq<string>>) {
    options.None? || |options.value| < 2
  }

  predicate NoAnswers(answers: Option<seq<string>>) {
    answers.None? || |answers.value| == 0
  }

  /** The membership check runs only when both arrays are present. */
  predicate StrayAnswers(options: Option<seq<string>>, answers: Option<seq<string>>) {
    options.Some? && answers.Some? &&
    |Filter(answers.value, (a: string) => a !in options.value)| > 0
  }

  /** The condition under which the callback adds the issue of `rule`. */
  predicate Violates(q: QuestionDraft, rule: Rule) {
    match rule
    case BooleanAnswer => BadBooleanAnswer(q.correctAnswer)
    case InputAnswer => BadInputAnswer(q.correctAnswer)
    case TooFewOptions => TooFew(q.options)
    case NoCorrectAnswers => NoAnswers(q.correctAnswers)
    case AnswerNotInOptions => StrayAnswers(q.options, q.correctAnswers)
    case UnknownType(_) => false
  }

  function IssuesOf(rules: seq<Rule>): (r: seq<Issue>)
    ensures |r| == |rules|
  {
    seq(|rules|, i requires 0 <= i < |rules| => IssueOf(rules[i]))
  }

  /** What the refinement reports for a question of type `t`: one issue per
      rule of the type that the question breaks, in table order. */
  function RefinementIssues(q: QuestionDraft, t: QuestionType): seq<Issue> {
    IssuesOf(Filter(RulesOf(t), (rule: Rule) => Violates(q, rule)))
  }

  /** The `superRefine` callback: it switches on the parsed type and appends
      one issue per failed check, never stopping early. */
  method SuperRefine(q: QuestionDraft, t: QuestionType) returns (issues: seq<Issue>)
    ensures issues == RefinementIssues(q, t)
  {
    RefinementByRule(q, t);
    issues := [];
    match t
    case BOOLEAN =>
      if BadBooleanAnswer(q.correctAnswer) {
        issues := issues + [IssueOf(BooleanAnswer)];
      }
    case INPUT =>
      if BadInputAnswer(q.correctAnswer) {
        issues := issues + [IssueOf(InputAnswer)];
      }
    case CHECKBOX =>
      if TooFew(q.options) {
        issues := issues + [IssueOf(TooFewOptions)];
      }
      if NoAnswers(q.correctAnswers) {
        issues := issues + [IssueOf(NoCorrectAnswers)];
      }
      if StrayAnswers(q.options, q.correctAnswers) {
        issues := issues + [IssueOf(AnswerNotInOptions)];
      }
  }

  /** The issue of `rule` when the question breaks it, nothing otherwise. */
  function IssueIf(q: QuestionDraft, rule: Rule): seq<Issue> {
    if Violates(q, rule) then [IssueOf(rule)] else []
  }

  /** The refinement's issues, rule by rule in table order. */
  lemma RefinementByRule(q: QuestionDraft, t: QuestionType)
    ensures t == BOOLEAN ==> RefinementIssues(q, t) == IssueIf(q, BooleanAnswer)
    ensures t == INPUT ==> RefinementIssues(q, t) == IssueIf(q, InputAnswer)
    ensures t == CHECKBOX ==>
      RefinementIssues(q, t) == IssueIf(q, TooFewOptions) + IssueIf(q, NoCorrectAnswers) + IssueIf(q, AnswerNotInOptions)
  {
    BrokenRules(q, t);
    if t == CHECKBOX {
      var a, b, c := Broken(q, TooFewOptions), Broken(q, NoCorrectAnswers), Broken(q, AnswerNotInOptions);
      IssuesOfAppend(a + b, c);
      IssuesOfAppend(a, b);
    }
  }

  lemma IssuesOfAppend(a: seq<Rule>, b: seq<Rule>)
    ensures IssuesOf(a + b) == IssuesOf(a) + IssuesOf(b)
  {
  }

  /** `questionSchema`: the text must be non-empty; a type outside the
      enumeration aborts the object, so the refinement runs only on a
      parsed type. */
  function ParseQuestion(q: QuestionDraft): seq<Issue> {
    (if |q.text| < 1 then [Issue([Key("text")], TextRequired)] else []) +
    match ParseType(q.questionType)
    case None => [IssueOf(UnknownType(q.questionType))]
    case Some(t) => RefinementIssues(q, t)
  }

  /** The broken rules of a question, rule by rule in table order. */
  lemma BrokenRules(q: QuestionDraft, t: QuestionType)
    ensures Filter(RulesOf(t), (rule: Rule) => Violates(q, rule)) ==
      match t
      case BOOLEAN => Broken(q, BooleanAnswer)
      case INPUT => Broken(q, InputAnswer)
      case CHECKBOX => Broken(q, TooFewOptions) + Broken(q, NoCorrectAnswers) + Broken(q, AnswerNotInOptions)
  {
    var keep := (rule: Rule) => Violates(q, rule);
    if t == CHECKBOX {
      assert RulesOf(t) == [TooFewOptions] + [NoCorrectAnswers] + [AnswerNotInOptions];
      FilterAppend([TooFewOptions] + [NoCorrectAnswers], [AnswerNotInOptions], keep);
      FilterAppend([TooFewOptions], [NoCorrectAnswers], keep);
    }
  }

  /** `[rule]` when the question breaks it, `[]` otherwise. */
  function Broken(q: QuestionDraft, rule: Rule): seq<Rule> {
    if Violates(q, rule) then [rule] else []
  }

  /** For a question of an enumerated type, the refinement reports nothing
      exactly when the service's check accepts it. */
  lemma RefinementAgreesWithService(q: QuestionDraft, t: QuestionType)
    requires ParseType(q.questionType) == Some(t)
    ensures RefinementIssues(q, t) == [] <==> QuizzesService.CheckQuestion(q).Pass?
  {
    BrokenRules(q, t);
  }

  /** Fail-fast and collect-all agree on the first problem: the rule the
      service throws for is the first one the refinement reports. */
  lemma ServiceErrorIsFirstIssue(q: QuestionDraft, t: QuestionType)
    requires ParseType(q.questionType) == Some(t)
    requires QuizzesService.CheckQuestion(q).Fail?
    ensures RefinementIssues(q, t) != []
    ensures RefinementIssues(q, t)[0] == IssueOf(QuizzesService.CheckQuestion(q).error)
  {
    BrokenRules(q, t);
    var rules := Filter(RulesOf(t), (rule: Rule) => Violates(q, rule));
    var e := QuizzesService.CheckQuestion(q).error;
    match t
    case BOOLEAN =>
    case INPUT =>
    case CHECKBOX =>
      if Violates(q, TooFewOptions) {
        assert e == TooFewOptions;
      } else if Violates(q, NoCorrectAnswers) {
        assert e == NoCorrectAnswers;
      } else {
        assert e == AnswerNotInOptions;
      }
    assert rules != [] && rules[0] == e;
  }

  /** A question passes the schema exactly when its text is non-empty and it
      is well formed by the rule table. */
  lemma ParseQuestionAcceptsIff(q: QuestionDraft)
    ensures ParseQuestion(q) == [] <==> |q.text| >= 1 && WellFormed(q)
  {
    QuizzesService.CheckQuestionMatchesTable(q);
    if ParseType(q.questionType).Some? {
      RefinementAgreesWithService(q, ParseType(q.questionType).value);
    }
  }

  /** Each issue is reported once: no two issues of one question coincide,
      so the membership rule adds one issue however many answers are not
      options. */
  lemma RefinementIssuesDistinct(q: QuestionDraft, t: QuestionType)
    ensures NoDuplicates(RefinementIssues(q, t))
  {
    var rules := Filter(RulesOf(t), (rule: Rule) => Violates(q, rule));
    FilterNoDuplicates(RulesOf(t), (rule: Rule) => Violates(q, rule));
    var issues := RefinementIssues(q, t);
    forall i, j | 0 <= i < j < |issues| ensures issues[i] != issues[j] {
      assert rules[i] != rules[j];
      assert rules[i] in RulesOf(t) && rules[j] in RulesOf(t) by {
        FilterMembers(RulesOf(t), (rule: Rule) => Violates(q, rule), rules[i]);
        FilterMembers(RulesOf(t), (rule: Rule) => Violates(q, rule), rules[j]);
      }
      IssueOfInjective(rules[i], rules[j]);
    }
  }

  /** Distinct rules of the table give distinct issues. */
  lemma IssueOfInjective(a: Rule, b: Rule)
    requires !a.UnknownType? && !b.UnknownType? && a != b
    ensures IssueOf(a) != IssueOf(b)
  {
  }

  /** The issues of one question, moved under `questions.<i>`. */
  function Prefixed(issues: seq<Issue>, i: nat): (r: seq<Issue>)
    ensures |r| == |issues|
  {
    seq(|issues|, k requires 0 <= k < |issues| =>
      Issue([Key("questions"), At(i)] + issues[k].path, issues[k].message))
  }

  /** The issues of the questions `qs`, the first of which sits at `from`. */
  function QuestionListIssues(qs: seq<QuestionDraft>, from: nat): seq<Issue>
  {
    if qs == [] then []
    else Prefixed(ParseQuestion(qs[0]), from) + QuestionListIssues(qs[1..], from + 1)
  }

  /** `quizSchema`: a non-empty title (not trimmed), at least one question,
      and every question's own issues under its position. */
  function QuizIssues(quiz: QuizDraft): seq<Issue> {
    (if |quiz.title| < 1 then [Issue([Key("title")], TitleRequired)] else []) +
    (if |quiz.questions| < 1 then [Issue([Key("questions")], QuestionRequired)] else []) +
    QuestionListIssues(quiz.questions, 0)
  }

  lemma {:induction false} QuestionListIssuesEmpty(qs: seq<QuestionDraft>, from: nat)
    ensures QuestionListIssues(qs, from) == [] <==> forall i :: 0 <= i < |qs| ==> ParseQuestion(qs[i]) == []
  {
    if qs != [] {
      QuestionListIssuesEmpty(qs[1..], from + 1);
      if forall i :: 0 <= i < |qs[1..]| ==> ParseQuestion(qs[1..][i]) == [] {
        if ParseQuestion(qs[0]) == [] {
          forall i | 0 <= i < |qs| ensures ParseQuestion(qs[i]) == [] {
            if i > 0 { assert qs[i] == qs[1..][i - 1]; }
          }
        }
      } else {
        var i :| 0 <= i < |qs[1..]| && ParseQuestion(qs[1..][i]) != [];
        assert qs[1..][i] == qs[i + 1];
      }
    }
  }

  /** Every issue of the question list sits under `questions.<k>` for the
      position `k` of a question of the list. */
  lemma {:induction false} QuestionListIssuesLocated(qs: seq<QuestionDraft>, from: nat, issue: Issue)
    requires issue in QuestionListIssues(qs, from)
    ensures |issue.path| >= 2 && issue.path[0] == Key("questions")
    ensures issue.path[1].At? && from <= issue.path[1].index < from + |qs|
  {
    if issue in Prefixed(ParseQuestion(qs[0]), from) {
    } else {
      QuestionListIssuesLocated(qs[1..], from + 1, issue);
    }
  }

  /** A quiz passes the schema exactly when its title is non-empty, it has a
      question, and every question passes. */
  lemma QuizAcceptedIff(quiz: QuizDraft)
    ensures QuizIssues(quiz) == [] <==>
      |quiz.title| >= 1 && |quiz.questions| >= 1 &&
      forall i :: 0 <= i < |quiz.questions| ==> |quiz.questions[i].text| >= 1 && WellFormed(quiz.questions[i])
  {
    QuestionListIssuesEmpty(quiz.questions, 0);
    forall i | 0 <= i < |quiz.questions|
      ensures ParseQuestion(quiz.questions[i]) == [] <==> |quiz.questions[i].text| >= 1 && WellFormed(quiz.questions[i])
    {
      ParseQuestionAcceptsIff(quiz.questions[i]);
    }
  }

  /** A checkbox question with one option and a stray answer: the schema
      reports both problems, the service only the first. */
  lemma CollectAllVersusFailFast()
    ensures ParseQuestion(QuestionDraft("Pick", "CHECKBOX", Some(["A"]), None, Some(["C"]))) ==
      [IssueOf(TooFewOptions), IssueOf(AnswerNotInOptions)]
    ensures QuizzesService.CheckQuestion(QuestionDraft("Pick", "CHECKBOX", Some(["A"]), None, Some(["C"]))) ==
      Fail(TooFewOptions)
  {
    var q := QuestionDraft("Pick", "CHECKBOX", Some(["A"]), None, Some(["C"]));
    assert "C" != "A";
    assert Filter(["C"], (a: string) => a !in ["A"]) == ["C"];
    RefinementByRule(q, CHECKBOX);
  }

  /** The title is not trimmed: a title of one space passes. */
  lemma WhitespaceTitleAccepted()
    ensures QuizIssues(QuizDraft(" ", [QuestionDraft("Sky is blue?", "BOOLEAN", None, Some("True"), None)])) == []
  {
    var q := QuestionDraft("Sky is blue?", "BOOLEAN", None, Some("True"), None);
    assert Lower("True") == "true";
    RefinementByRule(q, BOOLEAN);
    assert ParseQuestion(q) == [];
  }
}
