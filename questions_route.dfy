/**
 * `/api/questions`: POST stores a question (with an optional image) and
 * bumps the subject's `total_questions`; GET builds a filtered listing
 * query, with a free-text search bound to four `LIKE` placeholders.
 */
module QuestionsRoute {
  import opened Common
  import opened Store
  import opened Sql
  import ResourcesRoute

  // ---------------------------------------------------------------------
  // POST
  // ---------------------------------------------------------------------

  /**
   * The form fields; `None` is an absent field. `subjectId` is `subject_id`
   * as the number it names, `None` when absent or empty.
   */
  datatype QuestionForm = QuestionForm(
    subjectId: Option<int>, topicAr: Option<string>, topicEn: Option<string>,
    textAr: Option<string>, textEn: Option<string>, answerAr: Option<string>, answerEn: Option<string>,
    difficulty: Option<string>, addedBy: Option<string>, image: Option<ResourcesRoute.Upload>)

  const TextRequired := "Question text in both languages is required"
  const DefaultDifficulty := "medium"
  const ImageDir := "/uploads/questions/"

  /** The validation gate: the question text in both languages. */
  predicate Complete(f: QuestionForm)
  {
    Present(f.textAr) && Present(f.textEn)
  }

  /** `difficulty || 'medium'`: a missing or empty difficulty is stored as medium. */
  function Difficulty(d: Option<string>): (r: string)
    ensures r != ""
    ensures Present(d) ==> r == d.value
    ensures !Present(d) ==> r == DefaultDifficulty
  {
    if Present(d) then d.value else DefaultDifficulty
  }

  /** The public path of an image stored at time `now`: `/uploads/questions/<now>-<name>`. */
  function ImagePath(now: nat, name: string): (p: string)
    ensures StartsWith(p, ImageDir) && EndsWith(p, name)
  {
    var p := ImageDir + NatToString(now) + "-" + name;
    assert p[..|ImageDir|] == ImageDir;
    assert p[|p| - |name|..] == name;
    p
  }

  /** The stored name begins with the upload time, which `parseInt` reads back. */
  lemma ImagePathTimestamp(now: nat, name: string)
    ensures |ImagePath(now, name)| > |ImageDir| && ParseInt(ImagePath(now, name)[|ImageDir|..]) == Some(now)
  {
    var p := ImagePath(now, name);
    assert p[|ImageDir|..] == NatToString(now) + ("-" + name);
    ParseIntOfRendered(now, "-" + name);
  }

  lemma ImageDirLetter()
    ensures |ImageDir| == 19 && ImageDir[9] == 'q'
  {
  }

  /** Position 9 of an image path holds the `q` of `questions/`. */
  lemma ImagePathLetter(now: nat, name: string)
    ensures |ImagePath(now, name)| > 9 && ImagePath(now, name)[9] == 'q'
  {
    var p := ImagePath(now, name);
    ImageDirLetter();
    assert p[9] == p[..|ImageDir|][9];
  }

  /** A question image and a resource file never share a path. */
  lemma ImageAndResourcePathsDiffer(now1: nat, now2: nat, name1: string, name2: string)
    ensures ImagePath(now1, name1) != ResourcesRoute.UploadPath(now2, name2)
  {
    ImagePathLetter(now1, name1);
    ResourcesRoute.UploadPathDigit(now2, name2);
  }

  function StoredImage(f: QuestionForm, now: nat): Option<string>
  {
    if f.image.Some? then Some(ImagePath(now, f.image.value.name)) else None
  }

  /** The row the INSERT stores. */
  function NewQuestion(id: int, f: QuestionForm, now: nat): (q: Question)
    requires Complete(f)
    ensures q.id == id && q.subjectId == f.subjectId
    ensures q.textAr == f.textAr && q.textEn == f.textEn
    ensures q.imagePath.Some? <==> f.image.Some?
    ensures q.difficulty == Difficulty(f.difficulty)
  {
    Question(id, f.subjectId, f.topicAr, f.topicEn, f.textAr, f.textEn, f.answerAr, f.answerEn,
             StoredImage(f, now), Difficulty(f.difficulty), f.addedBy)
  }

  /** Whether the question row gets written. */
  predicate Inserted(f: QuestionForm, fault: ResourcesRoute.WriteFault)
  {
    Complete(f) && !(fault == ResourcesRoute.UploadThrows && f.image.Some?) && fault != ResourcesRoute.InsertThrows
  }

  /**
   * The POST handler. `form` is `None` when the body cannot be read as a
   * form; `now` is `Date.now()`; `fault` says which awaited call throws.
   * The counter is bumped only when the question names a subject.
   */
  method PostQuestion(db: Database, form: Option<QuestionForm>, now: nat, fault: ResourcesRoute.WriteFault)
    returns (reply: ResourcesRoute.PostReply)
    requires db.Valid()
    modifies db`questions, db`nextQuestionId, db`statistics
    ensures db.Valid()
    ensures form.None? ==> reply == ResourcesRoute.ServerError(ResourcesRoute.InternalError)
    ensures form.Some? && !Complete(form.value) ==> reply == ResourcesRoute.BadRequest(TextRequired)
    ensures reply.BadRequest? <==> form.Some? && !Complete(form.value)
    ensures reply.Created? <==>
      form.Some? && Inserted(form.value, fault)
      && !(fault == ResourcesRoute.CounterThrows && form.value.subjectId.Some?)
    ensures reply.Created? ==> reply == ResourcesRoute.Created(old(db.nextQuestionId), StoredImage(form.value, now))
    ensures reply.ServerError? ==> reply.error == ResourcesRoute.InternalError
    ensures db.questions == if form.Some? && Inserted(form.value, fault)
      then old(db.questions) + [NewQuestion(old(db.nextQuestionId), form.value, now)]
      else old(db.questions)
    ensures db.nextQuestionId == old(db.nextQuestionId) + (if form.Some? && Inserted(form.value, fault) then 1 else 0)
    ensures db.statistics ==
      if form.Some? && Inserted(form.value, fault) && fault != ResourcesRoute.CounterThrows && form.value.subjectId.Some?
      then IncrementWhere(old(db.statistics), form.value.subjectId.value, TotalQuestions)
      else old(db.statistics)
  {
    if form.None? {
      return ResourcesRoute.ServerError(ResourcesRoute.InternalError);
    }
    var f := form.value;
    if !Complete(f) {
      return ResourcesRoute.BadRequest(TextRequired);
    }
    if f.image.Some? && fault == ResourcesRoute.UploadThrows {
      return ResourcesRoute.ServerError(ResourcesRoute.InternalError);
    }
    if fault == ResourcesRoute.InsertThrows {
      return ResourcesRoute.ServerError(ResourcesRoute.InternalError);
    }
    var id := db.nextQuestionId;
    db.questions := db.questions + [NewQuestion(id, f, now)];
    db.nextQuestionId := id + 1;
    if f.subjectId.Some? {
      if fault == ResourcesRoute.CounterThrows {
        return ResourcesRoute.ServerError(ResourcesRoute.InternalError);
      }
      db.Increment(f.subjectId.value, TotalQuestions);
    }
    reply := ResourcesRoute.Created(id, StoredImage(f, now));
  }

  // ---------------------------------------------------------------------
  // GET
  // ---------------------------------------------------------------------

  const QuestionsColumns := "SELECT q.*, s.name_ar " + "as subject_name_ar, " + "s.name_en as " + "subject_name_en "
  const QuestionsFrom := "FROM questions q " + "LEFT JOIN subjects s " + "ON q.subject_id = s.id "
  /** The listing query before any filter, with its white space collapsed. */
  const QuestionsSelect := QuestionsColumns + QuestionsFrom + "WHERE 1=1"
  const SubjectFilter := " AND q.subject_id = " + "?"
  const DifficultyFilter := " AND q.difficulty = " + "?"
  /** The search clause: the pattern is matched against both texts and both topics. */
  const SearchFilter := " AND (q.question_text_ar LIKE " + "?" + " OR q.question_text_en LIKE " + "?"
    + " OR q.topic_ar LIKE " + "?" + " OR q.topic_en LIKE " + "?" + ")"
  const QuestionsOrder := " ORDER BY q.created_at DESC"

  lemma ColumnsHaveNoPlaceholder()
    ensures NoPlaceholder(QuestionsColumns)
  {
    var c1, c2, c3, c4 := "SELECT q.*, s.name_ar ", "as subject_name_ar, ", "s.name_en as ", "subject_name_en ";
    assert NoPlaceholder(c1);
    assert NoPlaceholder(c2);
    assert NoPlaceholder(c3);
    assert NoPlaceholder(c4);
    NoPlaceholderConcat(c1, c2);
    NoPlaceholderConcat(c1 + c2, c3);
    NoPlaceholderConcat(c1 + c2 + c3, c4);
  }

  lemma FromHasNoPlaceholder()
    ensures NoPlaceholder(QuestionsFrom)
  {
    var f1, f2, f3 := "FROM questions q ", "LEFT JOIN subjects s ", "ON q.subject_id = s.id ";
    assert NoPlaceholder(f1);
    assert NoPlaceholder(f2);
    assert NoPlaceholder(f3);
    NoPlaceholderConcat(f1, f2);
    NoPlaceholderConcat(f1 + f2, f3);
  }

  lemma QuestionsSelectHasNoPlaceholder()
    ensures CountChar(QuestionsSelect, '?') == 0
    ensures CountChar(QuestionsOrder, '?') == 0
  {
    ColumnsHaveNoPlaceholder();
    FromHasNoPlaceholder();
    assert NoPlaceholder("WHERE 1=1");
    NoPlaceholderConcat(QuestionsColumns, QuestionsFrom);
    NoPlaceholderConcat(QuestionsColumns + QuestionsFrom, "WHERE 1=1");
    NoPlaceholderCount(QuestionsSelect);
    assert NoPlaceholder(QuestionsOrder);
    NoPlaceholderCount(QuestionsOrder);
  }

  lemma SubjectFilterPlaceholder()
    ensures CountChar(SubjectFilter, '?') == 1
  {
    var clause := " AND q.subject_id = ";
    assert NoPlaceholder(clause);
    OnePlaceholder(clause);
  }

  lemma DifficultyFilterPlaceholder()
    ensures CountChar(DifficultyFilter, '?') == 1
  {
    var clause := " AND q.difficulty = ";
    assert NoPlaceholder(clause);
    OnePlaceholder(clause);
  }

  /** Four text pieces, each followed by a `?`, then a closing text: four placeholders. */
  lemma FourPlaceholders(a: string, b: string, c: string, d: string, e: string)
    requires NoPlaceholder(a) && NoPlaceholder(b) && NoPlaceholder(c) && NoPlaceholder(d) && NoPlaceholder(e)
    ensures CountChar(a + "?" + b + "?" + c + "?" + d + "?" + e, '?') == 4
  {
    OnePlaceholder(a);
    OnePlaceholder(b);
    OnePlaceholder(c);
    OnePlaceholder(d);
    NoPlaceholderCount(e);
    CountCharAppend(a + "?", b + "?", '?');
    assert a + "?" + b + "?" == (a + "?") + (b + "?");
    CountCharAppend(a + "?" + b + "?", c + "?", '?');
    assert a + "?" + b + "?" + c + "?" == (a + "?" + b + "?") + (c + "?");
    CountCharAppend(a + "?" + b + "?" + c + "?", d + "?", '?');
    assert a + "?" + b + "?" + c + "?" + d + "?" == (a + "?" + b + "?" + c + "?") + (d + "?");
    CountCharAppend(a + "?" + b + "?" + c + "?" + d + "?", e, '?');
  }

  lemma SearchFilterPlaceholders()
    ensures CountChar(SearchFilter, '?') == 4
  {
    var a, b, c, d, e := " AND (q.question_text_ar LIKE ", " OR q.question_text_en LIKE ",
      " OR q.topic_ar LIKE ", " OR q.topic_en LIKE ", ")";
    assert NoPlaceholder(a);
    assert NoPlaceholder(b);
    assert NoPlaceholder(c);
    assert NoPlaceholder(d);
    assert NoPlaceholder(e);
    FourPlaceholders(a, b, c, d, e);
  }

  /** `%${search}%`: the search text between two `LIKE` wildcards. */
  function SearchPattern(search: string): (p: string)
    ensures |p| == |search| + 2 && p[0] == '%' && p[|p| - 1] == '%'
    ensures p[1..|p| - 1] == search
  {
    "%" + search + "%"
  }

  /** The values the search clause binds: the pattern once per `?`. */
  function SearchValues(search: Option<string>): (r: seq<string>)
    ensures Present(search) ==> |r| == 4 && forall i :: 0 <= i < 4 ==> r[i] == SearchPattern(search.value)
    ensures !Present(search) ==> r == []
  {
    if Present(search) then
      var p := SearchPattern(search.value);
      [p, p, p, p]
    else []
  }

  /**
   * The GET handler's construction steps over the statement's text pieces:
   * the base query, the subject, difficulty and search filters, the ordering.
   */
  method BuildQuery(select: string, subjectFilter: string, difficultyFilter: string, searchFilter: string,
                    order: string, subjectId: Option<string>, difficulty: Option<string>, search: Option<string>)
    returns (query: string, params: seq<string>)
    requires CountChar(select, '?') == 0 && CountChar(order, '?') == 0
    requires CountChar(subjectFilter, '?') == 1 && CountChar(difficultyFilter, '?') == 1
    requires CountChar(searchFilter, '?') == 4
    ensures CountChar(query, '?') == |params|
    ensures params == Bound(subjectId) + Bound(difficulty) + SearchValues(search)
    ensures query == select + Clause(subjectFilter, subjectId) + Clause(difficultyFilter, difficulty)
                    + Clause(searchFilter, search) + order
  {
    var st := new Statement(select);
    if Present(subjectId) {
      st.Bind(subjectFilter, [subjectId.value]);
    } else {
      assert st.text == st.text + "";
    }
    assert st.params == Bound(subjectId);
    if Present(difficulty) {
      st.Bind(difficultyFilter, [difficulty.value]);
    } else {
      assert st.params == st.params + Bound(difficulty);
      assert st.text == st.text + "";
    }
    assert st.params == Bound(subjectId) + Bound(difficulty);
    if Present(search) {
      st.Bind(searchFilter, SearchValues(search));
    } else {
      assert st.params == st.params + SearchValues(search);
      assert st.text == st.text + "";
    }
    st.Append(order);
    query, params := st.text, st.params;
  }

  /**
   * The GET handler's statement for the `subject_id`, `difficulty` and
   * `search` parameters: placeholders and bound values agree in number, and
   * a search binds its pattern to all four `LIKE` operands.
   */
  method QuestionsQuery(subjectId: Option<string>, difficulty: Option<string>, search: Option<string>)
    returns (query: string, params: seq<string>)
    ensures CountChar(query, '?') == |params|
    ensures params == Bound(subjectId) + Bound(difficulty) + SearchValues(search)
    ensures query == QuestionsSelect + Clause(SubjectFilter, subjectId) + Clause(DifficultyFilter, difficulty)
                    + Clause(SearchFilter, search) + QuestionsOrder
  {
    QuestionsSelectHasNoPlaceholder();
    SubjectFilterPlaceholder();
    DifficultyFilterPlaceholder();
    SearchFilterPlaceholders();
    query, params := BuildQuery(QuestionsSelect, SubjectFilter, DifficultyFilter, SearchFilter, QuestionsOrder,
                                subjectId, difficulty, search);
  }

  datatype GetReply = Rows(query: string, params: seq<string>) | GetError(error: string)

  /** The GET handler: the statement goes to the store; a store error yields 500. */
  method GetQuestions(subjectId: Option<string>, difficulty: Option<string>, search: Option<string>, storeFails: bool)
    returns (reply: GetReply)
    ensures storeFails <==> reply == GetError(ResourcesRoute.InternalError)
    ensures reply.Rows? ==> CountChar(reply.query, '?') == |reply.params|
    ensures reply.Rows? ==> reply.params == Bound(subjectId) + Bound(difficulty) + SearchValues(search)
  {
    var query, params := QuestionsQuery(subjectId, difficulty, search);
    if storeFails {
      return GetError(ResourcesRoute.InternalError);
    }
    reply := Rows(query, params);
  }
}
