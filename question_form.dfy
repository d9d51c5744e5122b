/** The editing handlers of one question's form: seeding the options of a
    checkbox question, adding and removing options, and checking or
    unchecking an option as a correct answer. The form state is held by a
    class whose `options` and `correctAnswers` the handlers overwrite. */
module QuestionFormState {
  import opened Sequences
  import opened QuizModel

  /** `[...s, v]` when `v` is not already in `s`, else `s`. */
  function WithAnswer(s: seq<string>, v: string): seq<string> {
    if v in s then s else s + [v]
  }

  /** Checking a value keeps a duplicate-free answer list duplicate free. */
  lemma WithAnswerNoDuplicates(s: seq<string>, v: string)
    requires NoDuplicates(s)
    ensures NoDuplicates(WithAnswer(s, v))
  {
    if v !in s {
      var r := s + [v];
      forall i, j | 0 <= i < j < |r| ensures r[i] != r[j] {
        if j == |s| {
          assert r[i] == s[i];
        } else {
          assert r[i] == s[i] && r[j] == s[j];
        }
      }
    }
  }

  /** Checking a value that was not an answer and unchecking it again gives
      back the original answer list. */
  lemma CheckThenUncheck(s: seq<string>, v: string)
    requires v !in s
    ensures Without(WithAnswer(s, v), v) == s
  {
    WithoutAppend(s, [v], v);
    WithoutAbsent(s, v);
  }

  /** Checking a value that is already an answer changes nothing, so
      checking twice is checking once. */
  lemma CheckIdempotent(s: seq<string>, v: string)
    ensures v in WithAnswer(s, v)
    ensures WithAnswer(WithAnswer(s, v), v) == WithAnswer(s, v)
  {
  }

  /** The part of the form that belongs to one question. */
  class QuestionForm {
    var questionType: QuestionType
    var options: seq<string>
    var correctAnswers: seq<string>

    constructor (t: QuestionType, opts: seq<string>, answers: seq<string>)
      ensures questionType == t && options == opts && correctAnswers == answers
    {
      questionType := t;
      options := opts;
      correctAnswers := answers;
    }

    /** The checkbox next to option value `v` is ticked. */
    function IsCorrect(v: string): bool
      reads this
    {
      v in correctAnswers
    }

    /** The remove button is shown only when there are more than two options. */
    predicate CanRemoveOption()
      reads this
    {
      |options| > 2
    }

    /** The effect run when the type changes: a checkbox question without
        options gets two empty ones. */
    method SeedOptions()
      modifies this
      ensures questionType == old(questionType) && correctAnswers == old(correctAnswers)
      ensures questionType == CHECKBOX && old(options) == [] ==> options == ["", ""]
      ensures !(questionType == CHECKBOX && old(options) == []) ==> options == old(options)
    {
      if questionType == CHECKBOX && |options| == 0 {
        options := ["", ""];
      }
    }

    /** `addOption`: one empty option at the end. */
    method AddOption()
      modifies this
      ensures options == old(options) + [""]
      ensures questionType == old(questionType) && correctAnswers == old(correctAnswers)
    {
      options := options + [""];
    }

    /** `removeOptionAtIndex`: the option goes, and if its value was a correct
        answer every occurrence of that value leaves the answers. */
    method RemoveOptionAtIndex(i: nat)
      requires i < |options|
      modifies this
      ensures options == RemoveAt(old(options), i)
      ensures correctAnswers == Without(old(correctAnswers), old(options)[i])
      ensures old(options)[i] !in old(correctAnswers) ==> correctAnswers == old(correctAnswers)
      ensures !IsCorrect(old(options)[i])
      ensures forall w :: w != old(options)[i] ==> (IsCorrect(w) <==> old(IsCorrect(w)))
      ensures old(CanRemoveOption()) ==> |options| >= 2
      ensures questionType == old(questionType)
    {
      var optionValue := options[i];
      options := RemoveAt(options, i);
      if optionValue in correctAnswers {
        correctAnswers := Without(correctAnswers, optionValue);
      } else {
        WithoutAbsent(correctAnswers, optionValue);
      }
      forall w ensures w in correctAnswers <==> w in old(correctAnswers) && w != optionValue {
        WithoutMembers(old(correctAnswers), optionValue, w);
      }
    }

    /** `handleCorrectAnswerChange`: ticking adds the value once, unticking
        removes every occurrence; no other option changes state. */
    method HandleCorrectAnswerChange(v: string, isChecked: bool)
      modifies this
      ensures isChecked ==> correctAnswers == WithAnswer(old(correctAnswers), v)
      ensures !isChecked ==> correctAnswers == Without(old(correctAnswers), v)
      ensures IsCorrect(v) == isChecked
      ensures forall w :: w != v ==> (IsCorrect(w) <==> old(IsCorrect(w)))
      ensures NoDuplicates(old(correctAnswers)) ==> NoDuplicates(correctAnswers)
      ensures options == old(options) && questionType == old(questionType)
    {
      if isChecked {
        if v !in correctAnswers {
          correctAnswers := correctAnswers + [v];
        }
        if NoDuplicates(old(correctAnswers)) {
          WithAnswerNoDuplicates(old(correctAnswers), v);
        }
      } else {
        correctAnswers := Without(correctAnswers, v);
        forall w ensures w in correctAnswers <==> w in old(correctAnswers) && w != v {
          WithoutMembers(old(correctAnswers), v, w);
        }
        if NoDuplicates(old(correctAnswers)) {
          WithoutNoDuplicates(old(correctAnswers), v);
        }
      }
    }
  }
}
