# Quiz question validation and list editing, in Dafny

This project models the logic core of a quiz-authoring application. That
core is a NestJS service that stores quizzes, plus a Next.js client that
builds them. A quiz is a title and an ordered list of typed questions:

- **BOOLEAN**: the correct answer is `"true"` or `"false"`.
- **INPUT**: a short free-text answer.
- **CHECKBOX**: a list of options, of which one or more are correct answers.

Two validators enforce the same per-type rule table:

- **The service check** (`validateQuestions`) runs before anything is
  stored. It stops at the first broken rule and throws.
- **The client schema** (`questionSchema` / `quizSchema`) collects every
  broken rule as an issue tagged with a field path.

The model states both validators and the rule table (`WellFormed`) on its
own, then proves:

- the service accepts exactly the well-formed questions;
- the schema accepts exactly the well-formed questions with non-empty text
  (the service does not check the text);
- on a question of an enumerated type, the schema's refinement and the
  service agree;
- the service's error is the first issue the refinement reports.

Around the validators it models:

- the service's mapping of a draft to the stored record;
- the error wrapping around creation, and the summary projection for the
  listing;
- the client's checkbox editing handlers;
- the create page's question list and the transform it applies before
  sending;
- the listing page's title search, local delete and count labels.

Modules, one per source file, plus three shared ones:

| file | module | models |
|---|---|---|
| `text.dfy` | `Text` | `toLowerCase`, `trim` and string `includes`, each with a reference definition |
| `sequences.dfy` | `Sequences` | `Array.prototype.filter` and its laws: membership, multiplicity, order, idempotence, commutation; removal at an index |
| `quiz_model.dfy` | `QuizModel` | `QuestionType`, question and quiz drafts, the rule table `WellFormed` |
| `quizzes_service.dfy` | `QuizzesService` | `src/quizzes/quizzes.service.ts` |
| `quiz_schema.dfy` | `QuizSchema` | `frontend/src/schemas/quiz.ts` |
| `question_form.dfy` | `QuestionFormState` | `frontend/src/components/quiz/QuestionForm.tsx` |
| `create_page.dfy` | `CreatePage` | `frontend/src/app/create/page.tsx` |
| `quizzes_page.dfy` | `QuizzesPage` | `frontend/src/app/quizzes/page.tsx` |

Modelling choices:

- A question's `type` is kept as the raw string. The service switches on
  whatever the request body holds, so a type outside the enumeration has to
  be representable. Absent optional fields are `None`.
- JavaScript truthiness is written out. `!correctAnswer` holds for a missing
  answer and for `''`. `!options` holds only for a missing array: an empty
  array is truthy.
- The schema declares `z.array(...).default([]).optional()`. The optional
  wrapper lets `undefined` through before the default applies, so options
  and correct answers may be absent there too.
- The schema library aborts an object when a value is outside the
  enumeration, so the refinement does not run. When the text is empty it
  still runs. `ParseQuestion` follows both behaviours.
- Exceptions are values: `Outcome.Fail(rule)` for the service check, and
  `CreateResponse.BadRequest(message)` for creation.
- The store is a function parameter of `Create`. It returns the stored quiz
  or `None` when it fails.
- The form handlers update form state in place, so `QuestionForm`,
  `QuizForm` and `QuizzesView` are classes. Their methods overwrite the
  sequences the source overwrites.

## Model

| member | source | states |
|---|---|---|
| `QuizModel.ParseType` | frontend/src/types/quiz.ts:1-5 | only the three enumeration strings name a type, and each names the member whose wire value it is |
| `QuizModel.ParseTypeName` | frontend/src/types/quiz.ts:1-5 | every member's wire value parses back to that member |
| `QuizzesService.CheckQuestion` | src/quizzes/quizzes.service.ts:117-166 | a type outside the enumeration fails with "Invalid question type" naming that type, and only such a type does; otherwise a failure names a rule of the question's own type |
| `QuizzesService.CheckQuestionMatchesTable` | src/quizzes/quizzes.service.ts:117-166 | a question passes iff: BOOLEAN answer present and equal to "true" or "false" ignoring case; INPUT answer present with a non-whitespace character; CHECKBOX has ≥2 options, ≥1 correct answer and every correct answer is an option; any other type never passes |
| `QuizzesService.AnswersNotInOptionsEmpty` | src/quizzes/quizzes.service.ts:152-155 | the `invalidAnswers` filter is empty iff every correct answer is among the options |
| `QuizzesService.ValidateQuestions` | src/quizzes/quizzes.service.ts:115-168 | the list is accepted iff every question passes its check |
| `QuizzesService.AcceptedAreWellFormed` | src/quizzes/quizzes.service.ts:115-168 | every question of an accepted list satisfies the rule table |
| `QuizzesService.ValidateQuestionsReportsFirstFailure` | src/quizzes/quizzes.service.ts:116-167 | a rejection carries exactly the error of the lowest-index failing question, and every earlier question passes |
| `QuizzesService.ToRecord` | src/quizzes/quizzes.service.ts:25-31 | text and type copied; a submitted array is kept and a missing one becomes `[]`; a non-empty answer is kept for every question, and a missing or empty one becomes null, so a stored answer is never `''` |
| `QuizzesService.RecordKeepsVerdict` | src/quizzes/quizzes.service.ts:25-31 | a stored question read back gets the same verdict from the check, rule included, as the question submitted |
| `QuizzesService.ToRecordIdempotent` | src/quizzes/quizzes.service.ts:25-31 | normalising a stored question again changes nothing |
| `QuizzesService.ToCreateData` | src/quizzes/quizzes.service.ts:21-31 | the title is kept and there is one record per question, in order |
| `QuizzesService.Create` | src/quizzes/quizzes.service.ts:16-53 | a validation failure comes back as that rule's message; a valid quiz is created as exactly what the store returned for the mapped data; a store failure becomes "Failed to create quiz"; a created quiz has only well-formed questions |
| `QuizzesService.CreateSucceedsIff` | src/quizzes/quizzes.service.ts:16-53 | creation succeeds iff every question is well formed and the store returns a quiz |
| `QuizzesService.StoreFailureDistinguishable` | src/quizzes/quizzes.service.ts:47-52 | the generic failure message differs from every validation message, so a rethrown validation error is never mistaken for a store failure |
| `QuizzesService.CreateRejectsBeforeStoring` | src/quizzes/quizzes.service.ts:16-52 | a quiz with an ill-formed question is rejected whatever the store would do, so validation precedes persistence |
| `QuizzesService.Summaries` | src/quizzes/quizzes.service.ts:67-72 | one summary per stored quiz, in order, keeping id, title and creation time, with the question count equal to the number of questions |
| `Text.LowerEqualsIff` | src/quizzes/quizzes.service.ts:121 | comparing `toLowerCase()` with a lower-case literal is a case-insensitive comparison |
| `Text.TrimEmptyIffBlank` | src/quizzes/quizzes.service.ts:130 | `trim() === ''` holds exactly for all-whitespace strings |
| `Text.ContainsIffOccurs` | frontend/src/app/quizzes/page.tsx:30 | `includes` holds iff the term occurs at some position of the string |
| `QuizSchema.SuperRefine` | frontend/src/schemas/quiz.ts:12-69 | the callback appends, in table order, exactly one issue for each rule of the parsed type that the question breaks, never stopping early |
| `QuizSchema.BrokenRules` | frontend/src/schemas/quiz.ts:14-68 | the broken rules of a question, rule by rule: one for BOOLEAN, one for INPUT, up to three for CHECKBOX |
| `QuizSchema.RefinementByRule` | frontend/src/schemas/quiz.ts:39-67 | the checkbox issues are the options issue, then the answer-count issue, then the membership issue, each present iff its check fails |
| `QuizSchema.RefinementAgreesWithService` | frontend/src/schemas/quiz.ts:12-69 | for a question of an enumerated type the refinement reports nothing iff the service's check accepts it |
| `QuizSchema.ServiceErrorIsFirstIssue` | frontend/src/schemas/quiz.ts:39-67 | when the service rejects a question, the rule it reports is the first issue the schema reports for it |
| `QuizSchema.ParseQuestionAcceptsIff` | frontend/src/schemas/quiz.ts:4-69 | a question has no issues iff its text is non-empty and it satisfies the rule table (so its type is one of the three) |
| `QuizSchema.RefinementIssuesDistinct` | frontend/src/schemas/quiz.ts:55-66 | no issue is reported twice, so the membership check adds at most one issue however many answers are stray |
| `QuizSchema.CollectAllVersusFailFast` | frontend/src/schemas/quiz.ts:39-67 | a checkbox question with one option and a stray answer gets two issues from the schema but only "too few options" from the service |
| `QuizSchema.QuestionListIssuesEmpty` | frontend/src/schemas/quiz.ts:73-75 | the question list has no issues iff no question has any |
| `QuizSchema.QuestionListIssuesLocated` | frontend/src/schemas/quiz.ts:73-75 | every question-list issue sits under `questions.<k>` for the position `k` of a question in the list |
| `QuizSchema.QuizAcceptedIff` | frontend/src/schemas/quiz.ts:71-76 | a quiz has no issues iff its title is non-empty, it has at least one question, and every question has text and satisfies the rule table |
| `QuizSchema.WhitespaceTitleAccepted` | frontend/src/schemas/quiz.ts:72 | the title is not trimmed: a one-space title passes |
| `Sequences.FilterIsSubsequence` | frontend/src/app/quizzes/page.tsx:29-31 | `filter` returns an order-preserving subsequence of its input |
| `Sequences.FilterIdempotent` | frontend/src/app/quizzes/page.tsx:29-31 | filtering twice by the same test is filtering once |
| `Sequences.WithoutMembers` | frontend/src/components/quiz/QuestionForm.tsx:92-94 | after `filter(answer => answer !== v)` the value is gone and every other value is still present |
| `Sequences.WithoutAbsent` | frontend/src/components/quiz/QuestionForm.tsx:66-74 | removing a value that does not occur leaves the list unchanged |
| `QuestionFormState.WithAnswerNoDuplicates` | frontend/src/components/quiz/QuestionForm.tsx:84-90 | checking a value keeps a duplicate-free answer list duplicate free |
| `QuestionFormState.CheckIdempotent` | frontend/src/components/quiz/QuestionForm.tsx:85 | a checked value is an answer, and checking it again changes nothing |
| `QuestionFormState.CheckThenUncheck` | frontend/src/components/quiz/QuestionForm.tsx:84-98 | checking and then unchecking a value that was not an answer restores the original answers |
| `Sequences.RemoveAt` | frontend/src/components/quiz/QuestionForm.tsx:61 | removing entry `i` (the field array's `remove`, also at create/page.tsx:59) keeps the entries before it and shifts those after it down by one |
| `QuestionFormState.QuestionForm.SeedOptions` | frontend/src/components/quiz/QuestionForm.tsx:38-45 | a checkbox question without options gets exactly two empty ones; otherwise the options are unchanged; the answers are never touched |
| `QuestionFormState.QuestionForm.AddOption` | frontend/src/components/quiz/QuestionForm.tsx:56-58 | one empty option is appended |
| `QuestionFormState.QuestionForm.RemoveOptionAtIndex` | frontend/src/components/quiz/QuestionForm.tsx:60-75 | exactly option `i` goes (`RemoveAt`); its value leaves the correct answers entirely; the answers are unchanged if it was not one; no other option changes checked state; removal through the shown button leaves at least two options |
| `QuestionFormState.QuestionForm.HandleCorrectAnswerChange` | frontend/src/components/quiz/QuestionForm.tsx:77-100 | ticking appends the value only if absent, unticking removes every occurrence; afterwards the option is shown as correct (`isCorrect`, line 240) iff it was ticked; every other option keeps its state; a duplicate-free answer list stays duplicate free |
| `CreatePage.DefaultQuestionNeedsEditing` | frontend/src/app/create/page.tsx:48-56 | the default question (BOOLEAN, empty text and answer, empty arrays) gets a text issue and an answer issue, and the service rejects it |
| `CreatePage.ToPayloadQuestion` | frontend/src/app/create/page.tsx:67-77 | text and type copied; a checkbox question carries only its arrays (missing become empty); any other question carries only its answer (missing or empty becomes `''`) |
| `CreatePage.ToPayload` | frontend/src/app/create/page.tsx:65-78 | the title is kept and there is one payload question per form question, in order |
| `CreatePage.PayloadKeepsVerdict` | frontend/src/app/create/page.tsx:70-76 | the transform never changes the service's verdict on a question, not even the rule it reports |
| `CreatePage.PayloadKeepsValidation` | frontend/src/app/create/page.tsx:65-78 | the service validates the transformed list exactly as it would the form's list |
| `CreatePage.AcceptedFormPassesService` | frontend/src/app/create/page.tsx:62-80 | a quiz the schema accepts is sent with questions the service accepts |
| `CreatePage.QuizForm.constructor` | frontend/src/app/create/page.tsx:20-34 | the form starts with an empty title and the single default question |
| `CreatePage.QuizForm.AddQuestion` | frontend/src/app/create/page.tsx:48-56 | a default question is appended at the end |
| `CreatePage.QuizForm.RemoveQuestion` | frontend/src/app/create/page.tsx:58-60 | exactly entry `i` is removed (`RemoveAt`); through the button offered only when more than one question exists (line 132) the list never becomes empty |
| `CreatePage.QuizForm.Submit` | frontend/src/app/create/page.tsx:62-80 | a body is produced iff the schema reports no issue; it is the transform of the form, and the service accepts its questions |
| `QuizzesPage.FilterByTitleSpec` | frontend/src/app/quizzes/page.tsx:24-34 | a term blank after trimming shows every quiz; otherwise the result equals filtering by the reference test "the lower-cased, untrimmed term occurs at some position of the lower-cased title", so order and multiplicity are kept; always a subsequence of the list |
| `QuizzesPage.FilterByTitleIdempotent` | frontend/src/app/quizzes/page.tsx:29-31 | searching the result again with the same term changes nothing |
| `QuizzesPage.RemoveByIdSpec` | frontend/src/app/quizzes/page.tsx:55 | the local delete keeps exactly the quizzes with another id, each as often as before, in order, and no quiz with that id |
| `QuizzesPage.DeleteCommutesWithSearch` | frontend/src/app/quizzes/page.tsx:24-34 | deleting and then filtering is filtering and then deleting |
| `QuizzesPage.QuizNounAsWrittenMisspelt` | frontend/src/app/quizzes/page.tsx:91-93 | the template literal gives "quizes", not "quizzes", for every count other than one |
| `QuizzesPage.QuizNounSingular` | frontend/src/app/quizzes/page.tsx:145-149 | the corrected noun is "quiz" iff the count is 1 and "quizzes" otherwise, and agrees with the literal for 1 |
| `QuizzesPage.Decimal` | frontend/src/app/quizzes/page.tsx:91 | a count is shown as one or more decimal digits that denote it, with a leading zero only for zero |
| `QuizzesPage.HeaderTextCases` | frontend/src/app/quizzes/page.tsx:89-93 | no quizzes gives "No quizzes created yet."; one gives "Manage your 1 quiz."; more give the count followed by "quizzes." |
| `QuizzesPage.HeaderTextAsWrittenMisspelt` | frontend/src/app/quizzes/page.tsx:89-93 | the header as the page builds it matches the intended one for zero and one quiz, and for two or more reads "quizes." and so differs |
| `QuizzesPage.ThreeQuizzesAsWritten` | frontend/src/app/quizzes/page.tsx:91-93 | three loaded quizzes are announced as "Manage your 3 quizes." instead of "Manage your 3 quizzes." |
| `QuizzesPage.ResultsTextEmpty` | frontend/src/app/quizzes/page.tsx:142-151 | the results line is shown iff a term is entered; with no results it reads "No quizzes found" and the quoted term |
| `QuizzesPage.ResultsTextCount` | frontend/src/app/quizzes/page.tsx:144-151 | one result reads "1 quiz found", more read the count and "quizzes found", each followed by the quoted term |
| `QuizzesPage.ResultsTextAsWrittenMisspelt` | frontend/src/app/quizzes/page.tsx:144-151 | the results line as the page builds it matches the intended one except for two or more results, where it says "quizes" |
| `QuizzesPage.QuizzesView.constructor` | frontend/src/app/quizzes/page.tsx:14-17 | the page starts with empty lists and an empty term, with the filter relation holding |
| `QuizzesPage.QuizzesView.FilterEffect` | frontend/src/app/quizzes/page.tsx:24-34 | the filtered list becomes the search filter of the list under the term, and nothing else changes |
| `QuizzesPage.QuizzesView.Loaded` | frontend/src/app/quizzes/page.tsx:36-49 | after a fetch the list is the data and the view is the data filtered by the term already typed |
| `QuizzesPage.QuizzesView.SetSearchTerm` | frontend/src/app/quizzes/page.tsx:135 | typing a term refilters the unchanged list under the new term |
| `QuizzesPage.QuizzesView.DeleteLocal` | frontend/src/app/quizzes/page.tsx:51-60 | the list loses exactly the quizzes with that id, the view still equals the filtered list, and the view has lost exactly those quizzes |
| `QuizzesPage.QuizzesView.ResultsLine` | frontend/src/app/quizzes/page.tsx:142-151 | the line is shown iff the term is non-empty; it counts the search result, and a term of spaces, which filters nothing, counts every loaded quiz |

## Findings

| source | as written | input that shows it | evidently intended | confidence | as-written member | corrected member |
|---|---|---|---|---|---|---|
| frontend/src/app/quizzes/page.tsx:91-93 | `` `quiz${n === 1 ? '' : 'es'}` `` builds the plural as "quizes" (the same at lines 147-149) | 3 loaded quizzes: "Manage your 3 quizes." | "quizzes" | high; not executed | `QuizzesPage.QuizNounAsWrittenMisspelt` | `QuizzesPage.QuizNounSingular` |

`HeaderTextAsWritten` and `ResultsTextAsWritten` are the labels as the page
builds them. `HeaderText`, `ResultsText` and `QuizzesView.ResultsLine` use
the corrected noun `QuizNoun`.

## Left out

- Case folding and trimming are ASCII only: `toLowerCase` maps `A`-`Z`, and `trim` removes space, tab, line feed, vertical tab, form feed and carriage return. Unicode case mapping and Unicode whitespace are not modelled.
- `findOne` and `remove` in the service (lines 75-113): lookup and deletion with "not found" belong to the store, whose behaviour is not visible here.
- Store behaviour generally: ordering by creation time, cascading deletion and atomic creation are properties of the database. `Create` takes the store as a parameter that either returns a quiz or fails.
- The HTTP controller, the request-body whitelisting, and the class-validator decorators on the request DTOs. Their meaning depends on library behaviour; only their `QuestionType` enumeration is used.
- The HTTP client in `frontend/src/services/api.ts`, navigation, `alert`, `window.confirm`, loading and error flags, and all rendering. `QuizzesView.DeleteLocal` models only the local update made after the server confirmed.
- `frontend/src/utils/form.ts`, which inspects error objects at run time to find a message.
- Errors other than business-rule violations raised inside `validateQuestions` (a non-string answer, say). The model's fields are typed, so these cannot arise; the request-body checks that rule them out are not part of this model.
- Keeping React state in step: edits to option text and to the quiz title through input bindings are not modelled as methods. `QuestionForm` and `QuizForm` are separate objects, although the source shares one form store between them.
- `QuestionFormState.QuestionForm.RemoveOptionAtIndex`: requires `i < |options|`. The source only calls it with the index of a rendered option; an out-of-range index would read `undefined` there.
- `CreatePage.QuizForm.RemoveQuestion`: requires `i < |questions|`, for the same reason.
- `QuizzesPage.QuizzesView.Loaded`, `SetSearchTerm` and `DeleteLocal` run the filter effect at once. React runs it after the next render; intermediate renders are not modelled.
