/**
 * `/api/resources`: POST stores a resource (with an optional uploaded file)
 * and bumps the matching counter of the subject's `statistics` row; GET
 * builds a filtered listing query whose `?` placeholders line up with its
 * parameter list.
 */
module ResourcesRoute {
  import opened Common
  import opened Store
  import StatisticsSync
  import opened Sql

  // ---------------------------------------------------------------------
  // Which counter a resource type bumps
  // ---------------------------------------------------------------------

  /**
   * The `statistics` column bumped for a resource `type`: an exact,
   * case-sensitive match of five type names, with `important_question`
   * counted under `total_questions`; any other type bumps nothing.
   */
  function StatField(t: string): (c: Option<Counter>)
    ensures c == Some(TotalLectures) <==> t == "lecture"
    ensures c == Some(TotalSheets) <==> t == "sheet"
    ensures c == Some(TotalAssignments) <==> t == "assignment"
    ensures c == Some(TotalExams) <==> t == "exam"
    ensures c == Some(TotalReferences) <==> t == "reference"
    ensures c == Some(TotalQuestions) <==> t == "important_question"
  {
    if t == "lecture" then Some(TotalLectures)
    else if t == "sheet" then Some(TotalSheets)
    else if t == "assignment" then Some(TotalAssignments)
    else if t == "exam" then Some(TotalExams)
    else if t == "reference" then Some(TotalReferences)
    else if t == "important_question" then Some(TotalQuestions)
    else None
  }

  /** The `statistics` column that corresponds to a bucket of the statistics sync. */
  function CounterOf(b: StatisticsSync.Bucket): Counter
  {
    match b
    case Lectures => TotalLectures
    case Assignments => TotalAssignments
    case Exams => TotalExams
    case Sheets => TotalSheets
    case References => TotalReferences
    case ImportantQuestions => TotalQuestions
  }

  /**
   * Every type that the POST handler counts is also counted by the
   * statistics sync, in the corresponding column.
   */
  lemma StatFieldAgreesWithSync(t: string)
    requires StatField(t).Some?
    ensures StatisticsSync.Classify(Some(t)).Some?
    ensures CounterOf(StatisticsSync.Classify(Some(t)).value) == StatField(t).value
  {
    ToLowerOfLowerCase(t);
  }

  /**
   * The converse fails: the sync folds case and accepts the plural
   * `important_questions`, which the POST handler does not count.
   */
  lemma SyncCountsMoreTypes()
    ensures StatField("Lecture").None? && StatisticsSync.Classify(Some("Lecture")) == Some(StatisticsSync.Lectures)
    ensures StatField("important_questions").None?
    ensures StatisticsSync.Classify(Some("important_questions")) == Some(StatisticsSync.ImportantQuestions)
  {
    var s := "Lecture";
    assert ToLower(s) == "lecture" by {
      assert LowerChar('L') == 'l';
    }
    assert ToLower("important_questions") == "important_questions";
  }

  // ---------------------------------------------------------------------
  // POST
  // ---------------------------------------------------------------------

  /** An uploaded file: its name, its size in bytes and its MIME type. */
  datatype Upload = Upload(name: string, size: nat, mimeType: string)

  /**
   * The multipart form fields; `None` is an absent field. `subjectId` is the
   * `subject_id` field as the number it names, `None` when absent or empty.
   */
  datatype ResourceForm = ResourceForm(
    subjectId: Option<int>, resourceType: Option<string>, titleAr: Option<string>, titleEn: Option<string>,
    descriptionAr: Option<string>, descriptionEn: Option<string>, source: Option<string>,
    fileUrl: Option<string>, addedBy: Option<string>, file: Option<Upload>)

  datatype PostReply = Created(id: int, filePath: Option<string>) | BadRequest(error: string) | ServerError(error: string)
  {
    function Status(): int
    {
      match this
      case Created(_, _) => 201
      case BadRequest(_) => 400
      case ServerError(_) => 500
    }
  }

  /** Where the store or the file system throws, if anywhere. */
  datatype WriteFault = NoFault | UploadThrows | InsertThrows | CounterThrows

  const RequiredMessage := "Subject ID, type, and titles are required"
  const InternalError := "Internal server error"

  /** The validation gate: subject, type and both titles present and non-empty. */
  predicate Complete(f: ResourceForm)
  {
    f.subjectId.Some? && Present(f.resourceType) && Present(f.titleAr) && Present(f.titleEn)
  }

  /** The public path of an upload stored at time `now`: `/uploads/<now>-<name>`. */
  function UploadPath(now: nat, name: string): (p: string)
    ensures StartsWith(p, "/uploads/") && EndsWith(p, name)
  {
    var p := "/uploads/" + NatToString(now) + "-" + name;
    assert p[..9] == "/uploads/";
    assert p[|p| - |name|..] == name;
    p
  }

  /** The stored name begins with the upload time, which `parseInt` reads back. */
  lemma UploadPathTimestamp(now: nat, name: string)
    ensures |UploadPath(now, name)| > 9 && ParseInt(UploadPath(now, name)[9..]) == Some(now)
  {
    var p := UploadPath(now, name);
    assert p[9..] == NatToString(now) + ("-" + name);
    ParseIntOfRendered(now, "-" + name);
  }

  /** Position 9 of an upload path holds the first digit of its timestamp. */
  lemma UploadPathDigit(now: nat, name: string)
    ensures |UploadPath(now, name)| > 9 && IsDecimalDigit(UploadPath(now, name)[9])
  {
    var d := NatToString(now);
    var q := UploadPath(now, name);
    assert q == "/uploads/" + (d + ("-" + name));
    assert q[9] == (d + ("-" + name))[0] == d[0];
  }

  /** Two uploads stored at different times get different paths. */
  lemma UploadPathsDiffer(now1: nat, now2: nat, name1: string, name2: string)
    requires now1 != now2
    ensures UploadPath(now1, name1) != UploadPath(now2, name2)
  {
    UploadPathTimestamp(now1, name1);
    UploadPathTimestamp(now2, name2);
  }

  /** The file columns of the new row: path, size and type of the upload, or all null. */
  function FilePath(f: ResourceForm, now: nat): Option<string>
  {
    if f.file.Some? then Some(UploadPath(now, f.file.value.name)) else None
  }

  /** The row the INSERT stores. */
  function NewResource(id: int, f: ResourceForm, now: nat): (r: Resource)
    requires Complete(f)
    ensures r.id == id && r.subjectId == f.subjectId.value && r.resourceType == f.resourceType
    ensures r.titleAr == f.titleAr.value && r.titleEn == f.titleEn.value
    ensures r.filePath.Some? <==> f.file.Some?
    ensures r.fileSize.Some? <==> f.file.Some?
    ensures f.file.Some? ==> r.fileSize == Some(f.file.value.size) && r.fileType == Some(f.file.value.mimeType)
  {
    Resource(id, f.subjectId.value, f.resourceType, f.titleAr.value, f.titleEn.value,
             f.descriptionAr, f.descriptionEn, FilePath(f, now), f.fileUrl,
             if f.file.Some? then Some(f.file.value.size) else None,
             if f.file.Some? then Some(f.file.value.mimeType) else None,
             f.source, f.addedBy, None)
  }

  /** Whether the resource row gets written. */
  predicate Inserted(f: ResourceForm, fault: WriteFault)
  {
    Complete(f) && !(fault == UploadThrows && f.file.Some?) && fault != InsertThrows
  }

  /**
   * The POST handler. `form` is `None` when the body cannot be read as a
   * form; `now` is `Date.now()`; `fault` says which awaited call throws.
   */
  method PostResource(db: Database, form: Option<ResourceForm>, now: nat, fault: WriteFault)
    returns (reply: PostReply)
    requires db.Valid()
    modifies db`resources, db`nextResourceId, db`statistics
    ensures db.Valid()
    ensures form.None? ==> reply == ServerError(InternalError)
    ensures form.Some? && !Complete(form.value) ==> reply == BadRequest(RequiredMessage)
    ensures reply.BadRequest? <==> form.Some? && !Complete(form.value)
    ensures reply.Created? <==>
      form.Some? && Inserted(form.value, fault)
      && !(fault == CounterThrows && StatField(form.value.resourceType.value).Some?)
    ensures reply.Created? ==> reply == Created(old(db.nextResourceId), FilePath(form.value, now))
    ensures reply.ServerError? ==> reply.error == InternalError
    ensures db.resources == if form.Some? && Inserted(form.value, fault)
      then old(db.resources) + [NewResource(old(db.nextResourceId), form.value, now)]
      else old(db.resources)
    ensures db.nextResourceId == old(db.nextResourceId) + (if form.Some? && Inserted(form.value, fault) then 1 else 0)
    ensures db.statistics ==
      if form.Some? && Inserted(form.value, fault) && fault != CounterThrows
         && StatField(form.value.resourceType.value).Some?
      then IncrementWhere(old(db.statistics), form.value.subjectId.value, StatField(form.value.resourceType.value).value)
      else old(db.statistics)
  {
    if form.None? {
      return ServerError(InternalError);
    }
    var f := form.value;
    if !Complete(f) {
      return BadRequest(RequiredMessage);
    }
    if f.file.Some? && fault == UploadThrows {
      return ServerError(InternalError);
    }
    if fault == InsertThrows {
      return ServerError(InternalError);
    }
    var id := db.nextResourceId;
    db.resources := db.resources + [NewResource(id, f, now)];
    db.nextResourceId := id + 1;
    var field := StatField(f.resourceType.value);
    if field.Some? {
      if fault == CounterThrows {
        return ServerError(InternalError);
      }
      db.Increment(f.subjectId.value, field.value);
    }
    reply := Created(id, FilePath(f, now));
  }

  // ---------------------------------------------------------------------
  // GET
  // ---------------------------------------------------------------------

  const SelectColumns := "SELECT r.*, s.name_ar " + "as subject_name_ar, " + "s.name_en as " + "subject_name_en "
  const SelectFrom := "FROM resources r " + "LEFT JOIN subjects s " + "ON r.subject_id = s.id "
  /** The listing query before any filter, with its white space collapsed. */
  const ResourcesSelect := SelectColumns + SelectFrom + "WHERE 1=1"
  const SubjectFilter := " AND r.subject_id = " + "?"
  const TypeFilter := " AND r.type = " + "?"
  const ResourcesOrder := " ORDER BY r.created_at DESC"

  lemma SelectColumnsHasNoPlaceholder()
    ensures NoPlaceholder(SelectColumns)
  {
    var c1, c2, c3, c4 := "SELECT r.*, s.name_ar ", "as subject_name_ar, ", "s.name_en as ", "subject_name_en ";
    assert NoPlaceholder(c1);
    assert NoPlaceholder(c2);
    assert NoPlaceholder(c3);
    assert NoPlaceholder(c4);
    NoPlaceholderConcat(c1, c2);
    NoPlaceholderConcat(c1 + c2, c3);
    NoPlaceholderConcat(c1 + c2 + c3, c4);
  }

  lemma SelectFromHasNoPlaceholder()
    ensures NoPlaceholder(SelectFrom)
  {
    var f1, f2, f3 := "FROM resources r ", "LEFT JOIN subjects s ", "ON r.subject_id = s.id ";
    assert NoPlaceholder(f1);
    assert NoPlaceholder(f2);
    assert NoPlaceholder(f3);
    NoPlaceholderConcat(f1, f2);
    NoPlaceholderConcat(f1 + f2, f3);
  }

  /** The listing query and the filters carry no placeholder of their own. */
  lemma ResourcesSelectHasNoPlaceholder()
    ensures CountChar(ResourcesSelect, '?') == 0
    ensures CountChar(ResourcesOrder, '?') == 0
    ensures CountChar(SubjectFilter, '?') == 1 && CountChar(TypeFilter, '?') == 1
  {
    SelectColumnsHasNoPlaceholder();
    SelectFromHasNoPlaceholder();
    assert NoPlaceholder("WHERE 1=1");
    NoPlaceholderConcat(SelectColumns, SelectFrom);
    NoPlaceholderConcat(SelectColumns + SelectFrom, "WHERE 1=1");
    NoPlaceholderCount(ResourcesSelect);
    assert NoPlaceholder(ResourcesOrder);
    NoPlaceholderCount(ResourcesOrder);
    SubjectFilterPlaceholder();
    TypeFilterPlaceholder();
  }

  lemma SubjectFilterPlaceholder()
    ensures CountChar(SubjectFilter, '?') == 1
  {
    var clause := " AND r.subject_id = ";
    assert NoPlaceholder(clause);
    OnePlaceholder(clause);
  }

  lemma TypeFilterPlaceholder()
    ensures CountChar(TypeFilter, '?') == 1
  {
    var clause := " AND r.type = ";
    assert NoPlaceholder(clause);
    OnePlaceholder(clause);
  }

  /**
   * The GET handler's construction steps over the statement's text pieces:
   * the base query, a filter per search parameter and the ordering.
   */
  method BuildQuery(select: string, subjectFilter: string, typeFilter: string, order: string,
                    subjectId: Option<string>, resourceType: Option<string>)
    returns (query: string, params: seq<string>)
    requires CountChar(select, '?') == 0 && CountChar(order, '?') == 0
    requires CountChar(subjectFilter, '?') == 1 && CountChar(typeFilter, '?') == 1
    ensures CountChar(query, '?') == |params|
    ensures params == Bound(subjectId) + Bound(resourceType)
    ensures query == select + Clause(subjectFilter, subjectId) + Clause(typeFilter, resourceType) + order
  {
    var st := new Statement(select);
    if Present(subjectId) {
      st.Bind(subjectFilter, [subjectId.value]);
    } else {
      assert st.text == st.text + "";
    }
    assert st.params == Bound(subjectId);
    if Present(resourceType) {
      st.Bind(typeFilter, [resourceType.value]);
    } else {
      assert st.params == st.params + Bound(resourceType);
      assert st.text == st.text + "";
    }
    st.Append(order);
    query, params := st.text, st.params;
  }

  /**
   * The GET handler's statement for the `subject_id` and `type` search
   * parameters. Each filter adds one `?` and one bound value, in the same
   * order, so the statement and its parameters always agree.
   */
  method ResourcesQuery(subjectId: Option<string>, resourceType: Option<string>)
    returns (query: string, params: seq<string>)
    ensures CountChar(query, '?') == |params|
    ensures params == Bound(subjectId) + Bound(resourceType)
    ensures query == ResourcesSelect + Clause(SubjectFilter, subjectId) + Clause(TypeFilter, resourceType) + ResourcesOrder
  {
    ResourcesSelectHasNoPlaceholder();
    query, params := BuildQuery(ResourcesSelect, SubjectFilter, TypeFilter, ResourcesOrder, subjectId, resourceType);
  }

  datatype GetReply = Rows(query: string, params: seq<string>) | GetError(error: string)

  /**
   * The GET handler: the built statement is handed to the store, whose rows
   * are returned; a store error yields 500.
   */
  method GetResources(subjectId: Option<string>, resourceType: Option<string>, storeFails: bool)
    returns (reply: GetReply)
    ensures storeFails <==> reply == GetError(InternalError)
    ensures reply.Rows? ==> CountChar(reply.query, '?') == |reply.params|
    ensures reply.Rows? ==> reply.params == Bound(subjectId) + Bound(resourceType)
  {
    var query, params := ResourcesQuery(subjectId, resourceType);
    if storeFails {
      return GetError(InternalError);
    }
    reply := Rows(query, params);
  }
}
