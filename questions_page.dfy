/**
 * The question bank page's filter: the fetched questions narrowed by the
 * selected subject and by a case-insensitive search term, both applied with
 * `Array.prototype.filter`, so the page shows the fetched list in its own
 * order with some questions left out.
 */
module QuestionsPage {
  import opened Common
  import opened Store

  /** `q.subject_id === parseInt(subjectFilter)`: a `null` subject or a `NaN` filter never matches. */
  predicate SubjectMatches(q: Question, subjectFilter: string)
  {
    ParseInt(subjectFilter).Some? && q.subjectId == Some(ParseInt(subjectFilter).value)
  }

  /** `field && field.toLowerCase().includes(lowerSearch)`. */
  predicate FieldMatches(field: Option<string>, lowerSearch: string)
  {
    Present(field) && Contains(ToLower(field.value), lowerSearch)
  }

  /** The search looks at both question texts and the Arabic topic; the English topic is not searched. */
  predicate SearchMatches(q: Question, search: string)
  {
    var lowerSearch := ToLower(search);
    FieldMatches(q.textAr, lowerSearch) || FieldMatches(q.textEn, lowerSearch) || FieldMatches(q.topicAr, lowerSearch)
  }

  /** The two tests as the callbacks handed to `filter`. */
  function BySubject(subjectFilter: string): Question -> bool
  {
    q => SubjectMatches(q, subjectFilter)
  }

  function BySearch(search: string): Question -> bool
  {
    q => SearchMatches(q, search)
  }

  /** The effect's `result`: each filter runs only when its input is non-empty. */
  function FilterQuestions(questions: seq<Question>, search: string, subjectFilter: string): seq<Question>
  {
    var bySubject := if subjectFilter != "" then Filter(questions, BySubject(subjectFilter)) else questions;
    if search != "" then Filter(bySubject, BySearch(search)) else bySubject
  }

  /** Reference definition: a question is shown when it passes every active filter. */
  predicate Shown(q: Question, search: string, subjectFilter: string)
  {
    (subjectFilter == "" || SubjectMatches(q, subjectFilter)) && (search == "" || SearchMatches(q, search))
  }

  function ShownBy(search: string, subjectFilter: string): Question -> bool
  {
    q => Shown(q, search, subjectFilter)
  }

  /** The two chained filters are one filter by the combined test. */
  lemma FilterQuestionsIsShown(questions: seq<Question>, search: string, subjectFilter: string)
    ensures FilterQuestions(questions, search, subjectFilter) == Filter(questions, ShownBy(search, subjectFilter))
  {
    var shown := ShownBy(search, subjectFilter);
    if subjectFilter != "" && search != "" {
      FilterTwice(questions, BySubject(subjectFilter), BySearch(search), shown);
    } else if subjectFilter != "" {
      FilterExtensional(questions, BySubject(subjectFilter), shown);
    } else if search != "" {
      FilterExtensional(questions, BySearch(search), shown);
    } else {
      FilterAll(questions, shown);
    }
  }

  /** A question is on the page exactly when it was fetched and passes every active filter. */
  lemma ShownMembership(questions: seq<Question>, search: string, subjectFilter: string, q: Question)
    ensures q in FilterQuestions(questions, search, subjectFilter) <==> q in questions && Shown(q, search, subjectFilter)
  {
    var shown := ShownBy(search, subjectFilter);
    FilterQuestionsIsShown(questions, search, subjectFilter);
    var r := Filter(questions, shown);
    if q in r {
      FilterIsSubsequence(questions, shown);
      SubsequenceMembers(r, questions, q);
    }
  }

  /** Every element of a subsequence is an element of the whole. */
  lemma {:induction false} SubsequenceMembers<T>(a: seq<T>, b: seq<T>, x: T)
    requires IsSubsequence(a, b) && x in a
    ensures x in b
    decreases |b|
  {
    if a[0] == x {
      if b[0] != x {
        SubsequenceMembers(a, b[1..], x);
      }
    } else if a[0] == b[0] && IsSubsequence(a[1..], b[1..]) {
      assert x in a[1..];
      SubsequenceMembers(a[1..], b[1..], x);
    } else {
      SubsequenceMembers(a, b[1..], x);
    }
  }

  /** The page keeps the fetched order: what it shows is a subsequence of what it fetched. */
  lemma FilterQuestionsKeepsOrder(questions: seq<Question>, search: string, subjectFilter: string)
    ensures IsSubsequence(FilterQuestions(questions, search, subjectFilter), questions)
  {
    FilterQuestionsIsShown(questions, search, subjectFilter);
    FilterIsSubsequence(questions, ShownBy(search, subjectFilter));
  }

  /** With no search term and no subject selected, every fetched question is shown. */
  lemma NoFiltersShowAll(questions: seq<Question>)
    ensures FilterQuestions(questions, "", "") == questions
  {
  }

  /** A subject filter that does not start with a number (`NaN`) hides every question. */
  lemma NonNumericSubjectHidesAll(questions: seq<Question>, search: string, subjectFilter: string)
    requires subjectFilter != "" && ParseInt(subjectFilter).None?
    ensures FilterQuestions(questions, search, subjectFilter) == []
  {
    var r := FilterQuestions(questions, search, subjectFilter);
    if r != [] {
      ShownMembership(questions, search, subjectFilter, r[0]);
    }
  }

  /** The search ignores case: a term and its lower-cased form select the same questions. */
  lemma SearchIgnoresCase(q: Question, search: string)
    ensures SearchMatches(q, search) <==> SearchMatches(q, ToLower(search))
  {
    ToLowerIdempotent(search);
  }

  /** The English topic plays no part in the search. */
  lemma EnglishTopicNotSearched(q: Question, search: string, topicEn: Option<string>)
    ensures SearchMatches(q.(topicEn := topicEn), search) <==> SearchMatches(q, search)
  {
  }
}
