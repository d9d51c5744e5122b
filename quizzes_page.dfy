/** The quiz listing page: the title search over the loaded summaries, the
    local removal of a deleted quiz, and the count labels. The page keeps
    the loaded list, the filtered list and the search term as state; the
    filter effect re-runs whenever the list or the term changes. */
module QuizzesPage {
  import opened Text
  import opened Sequences
  import opened QuizModel
  import opened QuizzesService

  /** The title, lower-cased, contains the lower-cased term. */
  predicate TitleMatches(quiz: QuizSummary, term: string) {
    Contains(Lower(quiz.title), Lower(term))
  }

  /** The test handed to `filter` for a search term. */
  function MatchesTerm(term: string): QuizSummary -> bool {
    (quiz: QuizSummary) => TitleMatches(quiz, term)
  }

  /** The test handed to `filter` by the local delete. */
  function KeepsOtherThan(id: string): QuizSummary -> bool {
    (quiz: QuizSummary) => quiz.id != id
  }

  /** The search filter: a term that is blank after trimming shows every
      quiz; otherwise the quizzes whose title contains the (untrimmed) term,
      ignoring case. */
  function FilterByTitle(quizzes: seq<QuizSummary>, term: string): seq<QuizSummary> {
    if Trim(term) == "" then quizzes
    else Filter(quizzes, MatchesTerm(term))
  }

  /** The reference test: the lower-cased term occurs at some position of
      the lower-cased title. */
  ghost function OccursInTitle(term: string): QuizSummary -> bool {
    (quiz: QuizSummary) => exists i :: OccursAt(Lower(quiz.title), Lower(term), i)
  }

  /** What the filter keeps: everything for a blank term, else exactly the
      quizzes whose lower-cased title has the lower-cased term at some
      position, each as often as it occurs and in the original order. */
  lemma FilterByTitleSpec(quizzes: seq<QuizSummary>, term: string)
    ensures IsBlank(term) ==> FilterByTitle(quizzes, term) == quizzes
    ensures !IsBlank(term) ==> FilterByTitle(quizzes, term) == Filter(quizzes, OccursInTitle(term))
    ensures IsSubsequence(FilterByTitle(quizzes, term), quizzes)
  {
    TrimEmptyIffBlank(term);
    var keep := MatchesTerm(term);
    if !IsBlank(term) {
      forall i | 0 <= i < |quizzes| ensures keep(quizzes[i]) == OccursInTitle(term)(quizzes[i]) {
        ContainsIffOccurs(Lower(quizzes[i].title), Lower(term));
      }
      FilterExtensional(quizzes, keep, OccursInTitle(term));
      FilterIsSubsequence(quizzes, keep);
    } else {
      SubsequenceOfItself(quizzes);
    }
  }

  lemma {:induction false} SubsequenceOfItself<T>(s: seq<T>)
    ensures IsSubsequence(s, s)
  {
    if s != [] {
      SubsequenceOfItself(s[1..]);
    }
  }

  /** Searching the result again with the same term changes nothing. */
  lemma FilterByTitleIdempotent(quizzes: seq<QuizSummary>, term: string)
    ensures FilterByTitle(FilterByTitle(quizzes, term), term) == FilterByTitle(quizzes, term)
  {
    FilterIdempotent(quizzes, MatchesTerm(term));
  }

  /** The local delete: every summary with the given id goes, the others
      stay in order. */
  function RemoveById(quizzes: seq<QuizSummary>, id: string): seq<QuizSummary> {
    Filter(quizzes, KeepsOtherThan(id))
  }

  lemma RemoveByIdSpec(quizzes: seq<QuizSummary>, id: string)
    ensures forall quiz :: quiz in RemoveById(quizzes, id) <==> quiz in quizzes && quiz.id != id
    ensures forall quiz ::
      multiset(RemoveById(quizzes, id))[quiz] == if quiz.id != id then multiset(quizzes)[quiz] else 0
    ensures IsSubsequence(RemoveById(quizzes, id), quizzes)
  {
    var keep := KeepsOtherThan(id);
    forall quiz ensures quiz in Filter(quizzes, keep) <==> quiz in quizzes && quiz.id != id {
      FilterMembers(quizzes, keep, quiz);
    }
    forall quiz ensures multiset(Filter(quizzes, keep))[quiz] == if quiz.id != id then multiset(quizzes)[quiz] else 0 {
      FilterMultiset(quizzes, keep, quiz);
    }
    FilterIsSubsequence(quizzes, keep);
  }

  /** Deleting then searching is searching then deleting. */
  lemma DeleteCommutesWithSearch(quizzes: seq<QuizSummary>, id: string, term: string)
    ensures FilterByTitle(RemoveById(quizzes, id), term) == RemoveById(FilterByTitle(quizzes, term), id)
  {
    FilterCommutes(quizzes, KeepsOtherThan(id), MatchesTerm(term));
  }

  /** The noun as the page's template literals build it: `quiz` followed by
      `es` unless the count is one. */
  function QuizNounAsWritten(n: int): string {
    "quiz" + (if n == 1 then "" else "es")
  }

  /** For any count other than one that noun is misspelt: three quizzes are
      announced as "3 quizes". */
  lemma QuizNounAsWrittenMisspelt(n: int)
    requires n != 1
    ensures QuizNounAsWritten(n) == "quizes"
    ensures QuizNounAsWritten(n) != "quizzes"
  {
    assert |QuizNounAsWritten(n)| == 6;
  }

  /** The intended noun: `"quiz"` for exactly one, `"quizzes"` otherwise. */
  function QuizNoun(n: int): string {
    if n == 1 then "quiz" else "quizzes"
  }

  lemma QuizNounSingular(n: int)
    ensures QuizNoun(n) == "quiz" <==> n == 1
    ensures n != 1 ==> QuizNoun(n) == "quizzes"
    ensures n == 1 ==> QuizNoun(n) == QuizNounAsWritten(n)
  {
    if n != 1 {
      assert |QuizNoun(n)| == 7;
    }
  }

  /** The number a string of decimal digits denotes. */
  function DigitsValue(s: string): int {
    if s == [] then 0
    else 10 * DigitsValue(s[..|s| - 1]) + (s[|s| - 1] as int - '0' as int)
  }

  /** The decimal digits of `n`, as a template literal shows a count. */
  function Decimal(n: nat): (r: string)
    ensures |r| >= 1
    ensures forall i :: 0 <= i < |r| ==> '0' <= r[i] <= '9'
    ensures r[0] == '0' ==> n == 0
    ensures DigitsValue(r) == n
  {
    if n < 10 then [('0' as int + n) as char]
    else
      var d := Decimal(n / 10);
      var r := d + [('0' as int + n % 10) as char];
      assert r[..|r| - 1] == d;
      r
  }

  /** The line under the page title, for `n` loaded quizzes and the noun
      shown after the count. */
  function HeaderWith(n: nat, noun: string): string {
    if n == 0 then "No quizzes created yet."
    else "Manage your " + Decimal(n) + " " + noun + "."
  }

  /** The header line with the intended noun. */
  function HeaderText(n: nat): string {
    HeaderWith(n, QuizNoun(n))
  }

  /** The header line as the page builds it. */
  function HeaderTextAsWritten(n: nat): string {
    HeaderWith(n, QuizNounAsWritten(n))
  }

  /** No quizzes, one quiz, and a count of two or more. */
  lemma HeaderTextCases(n: nat)
    ensures n == 0 ==> HeaderText(n) == "No quizzes created yet."
    ensures n == 1 ==> HeaderText(n) == "Manage your 1 quiz."
    ensures n >= 2 ==> HeaderText(n) == "Manage your " + Decimal(n) + " quizzes."
  {
    if n == 1 {
      assert Decimal(1) == "1";
    }
  }

  /** The page's header agrees with the intended one for zero and one quiz
      and is misspelt for every larger count. */
  lemma HeaderTextAsWrittenMisspelt(n: nat)
    ensures n <= 1 ==> HeaderTextAsWritten(n) == HeaderText(n)
    ensures n >= 2 ==> HeaderTextAsWritten(n) == "Manage your " + Decimal(n) + " quizes."
    ensures n >= 2 ==> HeaderTextAsWritten(n) != HeaderText(n)
  {
    if n >= 2 {
      var prefix := "Manage your " + Decimal(n) + " ";
      assert HeaderTextAsWritten(n) == prefix + "quizes.";
      assert HeaderText(n) == prefix + "quizzes.";
      assert |prefix + "quizes."| != |prefix + "quizzes."|;
    }
  }

  /** The end of the results line: the term, quoted. */
  function ForTerm(term: string): string {
    " for \"" + term + "\""
  }

  /** The count part of the results line, for `n` results and the noun
      shown after the count. */
  function CountPhrase(n: nat, noun: string): string {
    if n == 0 then "No quizzes found" else Decimal(n) + " " + noun + " found"
  }

  /** The result count shown while a search term is entered. */
  function ResultsWith(n: nat, term: string, noun: string): Option<string> {
    if term == "" then None else Some(CountPhrase(n, noun) + ForTerm(term))
  }

  /** The result count with the intended noun. */
  function ResultsText(n: nat, term: string): Option<string> {
    ResultsWith(n, term, QuizNoun(n))
  }

  /** The result count as the page builds it. */
  function ResultsTextAsWritten(n: nat, term: string): Option<string> {
    ResultsWith(n, term, QuizNounAsWritten(n))
  }

  /** No line without a term; with a term and no results, "No quizzes
      found" and the term quoted. */
  lemma ResultsTextEmpty(n: nat, term: string)
    ensures ResultsText(n, term).None? <==> term == ""
    ensures term != "" && n == 0 ==> ResultsText(n, term) == Some("No quizzes found" + ForTerm(term))
  {
  }

  /** With a term and results, the count, the noun and the term quoted. */
  lemma ResultsTextCount(n: nat, term: string)
    ensures term != "" && n == 1 ==> ResultsText(n, term) == Some("1 quiz found" + ForTerm(term))
    ensures term != "" && n >= 2 ==> ResultsText(n, term) == Some(Decimal(n) + " quizzes found" + ForTerm(term))
  {
    if n == 1 {
      CountPhraseOne();
    } else if n >= 2 {
      CountPhraseMany(n, QuizNoun(n));
      assert " " + "quizzes" + " found" == " quizzes found";
    }
  }

  lemma CountPhraseOne()
    ensures CountPhrase(1, QuizNoun(1)) == "1 quiz found"
  {
    assert Decimal(1) == "1";
  }

  lemma CountPhraseMany(n: nat, noun: string)
    requires n >= 1
    ensures CountPhrase(n, noun) == Decimal(n) + (" " + noun + " found")
  {
  }

  /** The page's results line agrees with the intended one except for a
      count of two or more, where it says "quizes". */
  lemma ResultsTextAsWrittenMisspelt(n: nat, term: string)
    ensures n <= 1 || term == "" ==> ResultsTextAsWritten(n, term) == ResultsText(n, term)
    ensures n >= 2 && term != "" ==> ResultsTextAsWritten(n, term) == Some(Decimal(n) + " quizes found" + ForTerm(term))
    ensures n >= 2 && term != "" ==> ResultsTextAsWritten(n, term) != ResultsText(n, term)
  {
    if n >= 2 && term != "" {
      QuizNounAsWrittenMisspelt(n);
      CountPhraseMany(n, QuizNounAsWritten(n));
      assert " " + "quizes" + " found" == " quizes found";
      assert |ResultsTextAsWritten(n, term).value| != |ResultsText(n, term).value|;
    } else if n == 1 {
      QuizNounSingular(n);
    }
  }

  /** Three quizzes as the page announces them. */
  lemma ThreeQuizzesAsWritten()
    ensures HeaderTextAsWritten(3) == "Manage your 3 quizes."
    ensures HeaderText(3) == "Manage your 3 quizzes."
  {
    assert Decimal(3) == "3";
  }

  /** The state of the listing page. */
  class QuizzesView {
    var quizzes: seq<QuizSummary>
    var filteredQuizzes: seq<QuizSummary>
    var searchTerm: string

    /** What the filter effect establishes once it has run. */
    predicate Valid()
      reads this
    {
      filteredQuizzes == FilterByTitle(quizzes, searchTerm)
    }

    constructor ()
      ensures quizzes == [] && filteredQuizzes == [] && searchTerm == ""
      ensures Valid()
    {
      quizzes := [];
      filteredQuizzes := [];
      searchTerm := "";
    }

    /** The filter effect. */
    method FilterEffect()
      modifies this
      ensures quizzes == old(quizzes) && searchTerm == old(searchTerm)
      ensures Valid()
    {
      if Trim(searchTerm) == "" {
        filteredQuizzes := quizzes;
      } else {
        filteredQuizzes := Filter(quizzes, MatchesTerm(searchTerm));
      }
    }

    /** A successful fetch: both lists are set to the data, then the effect
        runs because the list changed, so a term already typed still applies. */
    method Loaded(data: seq<QuizSummary>)
      modifies this
      ensures quizzes == data && searchTerm == old(searchTerm)
      ensures filteredQuizzes == FilterByTitle(data, searchTerm)
    {
      quizzes := data;
      filteredQuizzes := data;
      FilterEffect();
    }

    /** Typing in the search box. */
    method SetSearchTerm(term: string)
      modifies this
      ensures searchTerm == term && quizzes == old(quizzes)
      ensures filteredQuizzes == FilterByTitle(quizzes, term)
    {
      searchTerm := term;
      FilterEffect();
    }

    /** `handleDeleteQuiz` after the server confirmed: the quiz leaves the
        list, and after the effect the view has lost exactly that quiz. */
    method DeleteLocal(id: string)
      requires Valid()
      modifies this
      ensures quizzes == RemoveById(old(quizzes), id) && searchTerm == old(searchTerm)
      ensures Valid()
      ensures filteredQuizzes == RemoveById(old(filteredQuizzes), id)
    {
      quizzes := RemoveById(quizzes, id);
      FilterEffect();
      DeleteCommutesWithSearch(old(quizzes), id, searchTerm);
    }

    /** The results line for the current view: shown exactly while a term
        is entered; a term of spaces filters nothing, so it counts every
        loaded quiz. */
    function ResultsLine(): (r: Option<string>)
      reads this
      ensures r.None? <==> searchTerm == ""
      ensures Valid() ==> r == ResultsText(|FilterByTitle(quizzes, searchTerm)|, searchTerm)
      ensures Valid() && IsBlank(searchTerm) ==> r == ResultsText(|quizzes|, searchTerm)
    {
      ResultsTextEmpty(|filteredQuizzes|, searchTerm);
      TrimEmptyIffBlank(searchTerm);
      ResultsText(|filteredQuizzes|, searchTerm)
    }
  }
}
