/**
 * The statistics aggregator: `POST /api/statistics/sync` and the
 * `relink-stats` script. For every subject it re-reads the types of the
 * subject's resources and the number of its questions, tallies the types into
 * six buckets and upserts the subject's `subject_statistics` row keyed on
 * `subject_id`. A failed upsert for one subject does not stop the others.
 */
module StatisticsSync {
  import opened Common
  import opened Store

  // ---------------------------------------------------------------------
  // Classification of one resource type
  // ---------------------------------------------------------------------

  datatype Bucket = Lectures | Assignments | Exams | Sheets | References | ImportantQuestions

  /** The lower-case spellings that land in each bucket. */
  function Spellings(b: Bucket): set<string>
  {
    match b
    case Lectures => {"lecture"}
    case Assignments => {"assignment"}
    case Exams => {"exam"}
    case Sheets => {"sheet"}
    case References => {"reference"}
    case ImportantQuestions => {"important_question", "important_questions"}
  }

  /**
   * `r.type?.toLowerCase()` compared against the six spellings: the bucket a
   * fetched row counts towards, or `None` for a `null` or unknown type.
   */
  function Classify(resourceType: Option<string>): (b: Option<Bucket>)
    ensures forall k :: b == Some(k) <==> resourceType.Some? && ToLower(resourceType.value) in Spellings(k)
  {
    match resourceType
    case None => None
    case Some(s) =>
      var t := ToLower(s);
      if t == "lecture" then Some(Lectures)
      else if t == "assignment" then Some(Assignments)
      else if t == "exam" then Some(Exams)
      else if t == "sheet" then Some(Sheets)
      else if t == "reference" then Some(References)
      else if t == "important_question" || t == "important_questions" then Some(ImportantQuestions)
      else None
  }

  /** Matching ignores case: a type and its lower-cased form land in the same bucket. */
  lemma ClassifyIgnoresCase(s: string)
    ensures Classify(Some(s)) == Classify(Some(ToLower(s)))
  {
    ToLowerIdempotent(s);
  }

  // ---------------------------------------------------------------------
  // The six-bucket tally
  // ---------------------------------------------------------------------

  datatype Counts = Counts(
    lectures: nat, assignments: nat, exams: nat, sheets: nat, references: nat, importantQuestions: nat)
  {
    function Get(b: Bucket): nat
    {
      match b
      case Lectures => lectures
      case Assignments => assignments
      case Exams => exams
      case Sheets => sheets
      case References => references
      case ImportantQuestions => importantQuestions
    }

    function Total(): nat
    {
      lectures + assignments + exams + sheets + references + importantQuestions
    }

    /** The `counts.x++` for one classified row; `None` changes nothing. */
    function Bump(b: Option<Bucket>): (c: Counts)
      ensures forall k :: c.Get(k) == Get(k) + (if b == Some(k) then 1 else 0)
    {
      match b
      case None => this
      case Some(Lectures) => this.(lectures := lectures + 1)
      case Some(Assignments) => this.(assignments := assignments + 1)
      case Some(Exams) => this.(exams := exams + 1)
      case Some(Sheets) => this.(sheets := sheets + 1)
      case Some(References) => this.(references := references + 1)
      case Some(ImportantQuestions) => this.(importantQuestions := importantQuestions + 1)
    }
  }

  const NoCounts := Counts(0, 0, 0, 0, 0, 0)

  /** What the `forEach` leaves in `counts` after visiting `types` in order. */
  function Tally(types: seq<Option<string>>): Counts
    decreases |types|
  {
    if types == [] then NoCounts
    else Tally(types[..|types| - 1]).Bump(Classify(types[|types| - 1]))
  }

  /** Reference definition: the number of fetched rows whose type lands in bucket `b`. */
  function Matching(types: seq<Option<string>>, b: Bucket): nat
    decreases |types|
  {
    if types == [] then 0
    else (if Classify(types[0]) == Some(b) then 1 else 0) + Matching(types[1..], b)
  }

  /** The number of fetched rows whose type lands in some bucket. */
  function Recognised(types: seq<Option<string>>): nat
    decreases |types|
  {
    if types == [] then 0
    else Recognised(types[..|types| - 1]) + (if Classify(types[|types| - 1]).Some? then 1 else 0)
  }

  lemma {:induction false} MatchingAppend(types: seq<Option<string>>, t: Option<string>, b: Bucket)
    ensures Matching(types + [t], b) == Matching(types, b) + (if Classify(t) == Some(b) then 1 else 0)
    decreases |types|
  {
    if types == [] {
      assert types + [t] == [t];
    } else {
      assert (types + [t])[1..] == types[1..] + [t];
      MatchingAppend(types[1..], t, b);
    }
  }

  /** Ground truth: each bucket of the tally is the number of rows of that type. */
  lemma {:induction false} TallyCountsMatching(types: seq<Option<string>>, b: Bucket)
    ensures Tally(types).Get(b) == Matching(types, b)
    decreases |types|
  {
    if types != [] {
      var init := types[..|types| - 1];
      var last := types[|types| - 1];
      TallyCountsMatching(init, b);
      assert init + [last] == types;
      MatchingAppend(init, last, b);
    }
  }

  /**
   * Each row raises at most one bucket: the buckets add up to the number of
   * recognised rows, never more than the rows fetched.
   */
  lemma {:induction false} TallyTotal(types: seq<Option<string>>)
    ensures Tally(types).Total() == Recognised(types)
    ensures Recognised(types) <= |types|
    decreases |types|
  {
    if types != [] {
      var init := types[..|types| - 1];
      var last := types[|types| - 1];
      TallyTotal(init);
      BumpTotal(Tally(init), Classify(last));
    }
  }

  lemma BumpTotal(c: Counts, k: Option<Bucket>)
    ensures c.Bump(k).Total() == c.Total() + (if k.Some? then 1 else 0)
  {
    match k
    case None =>
    case Some(b) =>
      match b
      case Lectures =>
      case Assignments =>
      case Exams =>
      case Sheets =>
      case References =>
      case ImportantQuestions =>
  }

  /** A row whose type is `null` or unknown changes no bucket and raises no error. */
  lemma UnknownTypeIgnored(types: seq<Option<string>>, t: Option<string>)
    requires Classify(t).None?
    ensures Tally(types + [t]) == Tally(types)
  {
    assert (types + [t])[..|types|] == types;
  }

  /** The `forEach` over the fetched rows. */
  method CountResources(types: seq<Option<string>>) returns (counts: Counts)
    ensures counts == Tally(types)
  {
    counts := NoCounts;
    for i := 0 to |types|
      invariant counts == Tally(types[..i])
    {
      assert types[..i + 1][..i] == types[..i];
      match Classify(types[i])
      case Some(Lectures) => counts := counts.(lectures := counts.lectures + 1);
      case Some(Assignments) => counts := counts.(assignments := counts.assignments + 1);
      case Some(Exams) => counts := counts.(exams := counts.exams + 1);
      case Some(Sheets) => counts := counts.(sheets := counts.sheets + 1);
      case Some(References) => counts := counts.(references := counts.references + 1);
      case Some(ImportantQuestions) => counts := counts.(importantQuestions := counts.importantQuestions + 1);
      case None =>
    }
    assert types[..|types|] == types;
  }

  // ---------------------------------------------------------------------
  // The per-subject queries and the upsert
  // ---------------------------------------------------------------------

  /** `select('type').eq('subject_id', id)` on `resources`, in table order. */
  function TypesOf(resources: seq<Resource>, subjectId: int): (types: seq<Option<string>>)
    ensures |types| <= |resources|
    decreases |resources|
  {
    if resources == [] then []
    else (if resources[0].subjectId == subjectId then [resources[0].resourceType] else [])
         + TypesOf(resources[1..], subjectId)
  }

  /** The exact count of `questions` rows with `subject_id = id`. */
  function QuestionCount(questions: seq<Question>, subjectId: int): nat
    decreases |questions|
  {
    if questions == [] then 0
    else (if questions[0].subjectId == Some(subjectId) then 1 else 0) + QuestionCount(questions[1..], subjectId)
  }

  /**
   * Which store calls fail in one run: the subject query (with its error
   * message), and per subject id the resource query (its data is then
   * `null`), the question count (then `null`) and the upsert.
   */
  datatype SyncFaults = SyncFaults(
    subjectsError: Option<string>, resourcesFail: set<int>, countFail: set<int>, upsertFail: set<int>)

  /** A run in which every store call succeeds. */
  const NoFaults := SyncFaults(None, {}, {}, {})

  /** The six buckets for one subject: all 0 when the resource query returned no data. */
  function SubjectCounts(resources: seq<Resource>, subjectId: int, f: SyncFaults): Counts
  {
    if subjectId in f.resourcesFail then NoCounts else Tally(TypesOf(resources, subjectId))
  }

  /** `questionsCount || 0`. */
  function QuestionsTotal(questions: seq<Question>, subjectId: int, f: SyncFaults): nat
  {
    if subjectId in f.countFail then 0 else QuestionCount(questions, subjectId)
  }

  /**
   * The row an upsert keyed on `subject_id` leaves: the payload's six buckets,
   * `total_questions` and `updated_at` overwrite; columns the payload omits
   * (labs, practicals, tutorials) keep their stored value, or their default 0
   * when the row is new.
   */
  function Upserted(prev: Option<SubjectStats>, c: Counts, questions: nat, now: int): SubjectStats
  {
    var base := if prev.Some? then prev.value else ZeroStats(now);
    base.(lectures := c.lectures, assignments := c.assignments, exams := c.exams, sheets := c.sheets,
          references := c.references, importantQuestions := c.importantQuestions, questions := questions,
          updatedAt := now)
  }

  /** The row the sync writes for one subject, given the row stored before. */
  function SyncRow(prev: Option<SubjectStats>, resources: seq<Resource>, questions: seq<Question>,
                   subjectId: int, f: SyncFaults, now: int): SubjectStats
  {
    Upserted(prev, SubjectCounts(resources, subjectId, f), QuestionsTotal(questions, subjectId, f), now)
  }

  /** `subject_statistics` after the loop has visited `ids` in order. */
  function SyncTable(table: map<int, SubjectStats>, ids: seq<int>, resources: seq<Resource>,
                     questions: seq<Question>, f: SyncFaults, now: int): map<int, SubjectStats>
    decreases |ids|
  {
    if ids == [] then table
    else
      var t := SyncTable(table, ids[..|ids| - 1], resources, questions, f, now);
      var id := ids[|ids| - 1];
      if id in f.upsertFail then t
      else t[id := SyncRow(Lookup(t, id), resources, questions, id, f, now)]
  }

  /** The ids whose upsert reported no error: the `results` array. */
  function Succeeded(ids: seq<int>, upsertFail: set<int>): seq<int>
    decreases |ids|
  {
    if ids == [] then []
    else Succeeded(ids[..|ids| - 1], upsertFail) + (if ids[|ids| - 1] in upsertFail then [] else [ids[|ids| - 1]])
  }

  /** The subjects this run rewrites. */
  function Synced(ids: seq<int>, f: SyncFaults): set<int>
  {
    set i | 0 <= i < |ids| && ids[i] !in f.upsertFail :: ids[i]
  }

  /** Upserting the same payload twice leaves the row of a single upsert. */
  lemma UpsertedAgain(prev: Option<SubjectStats>, c: Counts, q: nat, now1: int, now2: int)
    ensures Upserted(Some(Upserted(prev, c, q, now1)), c, q, now2) == Upserted(prev, c, q, now2)
  {
  }

  /**
   * The state after the loop, row by row: a synced subject holds the row one
   * upsert on the original row gives; every other row is untouched.
   */
  lemma {:induction false} SyncTableAt(table: map<int, SubjectStats>, ids: seq<int>, resources: seq<Resource>,
                                       questions: seq<Question>, f: SyncFaults, now: int, k: int)
    ensures Lookup(SyncTable(table, ids, resources, questions, f, now), k) ==
      if k in Synced(ids, f) then Some(SyncRow(Lookup(table, k), resources, questions, k, f, now))
      else Lookup(table, k)
    decreases |ids|
  {
    if ids != [] {
      var init := ids[..|ids| - 1];
      var id := ids[|ids| - 1];
      SyncTableAt(table, init, resources, questions, f, now, k);
      assert Synced(ids, f) == Synced(init, f) + (if id in f.upsertFail then {} else {id}) by {
        forall x | x in Synced(ids, f) ensures x in Synced(init, f) + (if id in f.upsertFail then {} else {id}) {
          var i :| 0 <= i < |ids| && ids[i] !in f.upsertFail && ids[i] == x;
          if i < |init| { assert init[i] == x; }
        }
        forall x | x in Synced(init, f) ensures x in Synced(ids, f) {
          var i :| 0 <= i < |init| && init[i] !in f.upsertFail && init[i] == x;
          assert ids[i] == x;
        }
      }
      if id !in f.upsertFail && k == id {
        var c := SubjectCounts(resources, k, f);
        var q := QuestionsTotal(questions, k, f);
        if k in Synced(init, f) {
          UpsertedAgain(Lookup(table, k), c, q, now, now);
        }
      }
    }
  }

  /**
   * Ground truth after a sync: for a subject whose queries and upsert
   * succeeded, every bucket equals the number of its resources of that type
   * (case-insensitively, with the plural alias), `total_questions` equals the
   * number of its questions, and the columns the sync does not supply keep
   * their values.
   */
  lemma SyncGroundTruth(table: map<int, SubjectStats>, ids: seq<int>, resources: seq<Resource>,
                        questions: seq<Question>, f: SyncFaults, now: int, k: int)
    requires k in ids && k !in f.upsertFail && k !in f.resourcesFail && k !in f.countFail
    ensures var t := SyncTable(table, ids, resources, questions, f, now);
      var types := TypesOf(resources, k);
      && k in t
      && t[k].lectures == Matching(types, Lectures)
      && t[k].assignments == Matching(types, Assignments)
      && t[k].exams == Matching(types, Exams)
      && t[k].sheets == Matching(types, Sheets)
      && t[k].references == Matching(types, References)
      && t[k].importantQuestions == Matching(types, ImportantQuestions)
      && t[k].questions == QuestionCount(questions, k)
      && t[k].updatedAt == now
      && (k in table ==> t[k].labs == table[k].labs && t[k].practicals == table[k].practicals
                         && t[k].tutorials == table[k].tutorials)
  {
    var i :| 0 <= i < |ids| && ids[i] == k;
    assert k in Synced(ids, f);
    SyncTableAt(table, ids, resources, questions, f, now, k);
    var types := TypesOf(resources, k);
    TallyCountsMatching(types, Lectures);
    TallyCountsMatching(types, Assignments);
    TallyCountsMatching(types, Exams);
    TallyCountsMatching(types, Sheets);
    TallyCountsMatching(types, References);
    TallyCountsMatching(types, ImportantQuestions);
  }

  /**
   * A subject whose resource query returned no data is overwritten with all
   * six buckets 0, and one whose count failed gets `total_questions` 0.
   */
  lemma SyncAfterFailedQueries(table: map<int, SubjectStats>, ids: seq<int>, resources: seq<Resource>,
                               questions: seq<Question>, f: SyncFaults, now: int, k: int)
    requires k in ids && k !in f.upsertFail
    ensures var t := SyncTable(table, ids, resources, questions, f, now);
      && k in t
      && (k in f.resourcesFail ==> t[k].lectures == t[k].assignments == t[k].exams == t[k].sheets
                                   == t[k].references == t[k].importantQuestions == 0)
      && (k in f.countFail ==> t[k].questions == 0)
  {
    var i :| 0 <= i < |ids| && ids[i] == k;
    assert k in Synced(ids, f);
    SyncTableAt(table, ids, resources, questions, f, now, k);
  }

  /**
   * Rerunning: a run that rewrites at least the subjects an earlier run
   * rewrote leaves exactly the table it would have left without the earlier
   * run. The upsert overwrites instead of incrementing, so two clean runs
   * leave the counters of one.
   */
  lemma SyncTwice(table: map<int, SubjectStats>, ids: seq<int>, resources: seq<Resource>, questions: seq<Question>,
                  f1: SyncFaults, now1: int, f2: SyncFaults, now2: int)
    requires Synced(ids, f1) <= Synced(ids, f2)
    ensures SyncTable(SyncTable(table, ids, resources, questions, f1, now1), ids, resources, questions, f2, now2)
         == SyncTable(table, ids, resources, questions, f2, now2)
  {
    var once := SyncTable(table, ids, resources, questions, f1, now1);
    var twice := SyncTable(once, ids, resources, questions, f2, now2);
    var direct := SyncTable(table, ids, resources, questions, f2, now2);
    forall k ensures Lookup(twice, k) == Lookup(direct, k) {
      SyncTableAt(table, ids, resources, questions, f1, now1, k);
      SyncTableAt(once, ids, resources, questions, f2, now2, k);
      SyncTableAt(table, ids, resources, questions, f2, now2, k);
    }
    assert twice.Keys == direct.Keys by {
      forall k ensures k in twice <==> k in direct {
        assert Lookup(twice, k) == Lookup(direct, k);
      }
    }
    forall k | k in twice ensures twice[k] == direct[k] {
      assert Lookup(twice, k) == Lookup(direct, k);
    }
  }

  /** Adding a resource whose type is unknown or `null` changes nothing a sync writes. */
  lemma {:induction false} SyncIgnoresUnknownResource(table: map<int, SubjectStats>, ids: seq<int>,
                                                      resources: seq<Resource>, r: Resource,
                                                      questions: seq<Question>, f: SyncFaults, now: int)
    requires Classify(r.resourceType).None?
    ensures SyncTable(table, ids, resources + [r], questions, f, now) == SyncTable(table, ids, resources, questions, f, now)
    decreases |ids|
  {
    if ids != [] {
      SyncIgnoresUnknownResource(table, ids[..|ids| - 1], resources, r, questions, f, now);
      SubjectCountsIgnoreUnknown(resources, r, ids[|ids| - 1], f);
    }
  }

  lemma SubjectCountsIgnoreUnknown(resources: seq<Resource>, r: Resource, id: int, f: SyncFaults)
    requires Classify(r.resourceType).None?
    ensures SubjectCounts(resources + [r], id, f) == SubjectCounts(resources, id, f)
  {
    TypesOfAppend(resources, r, id);
    var before := TypesOf(resources, id);
    if r.subjectId == id {
      UnknownTypeIgnored(before, r.resourceType);
    } else {
      assert before + [] == before;
    }
  }

  lemma {:induction false} TypesOfAppend(resources: seq<Resource>, r: Resource, subjectId: int)
    ensures TypesOf(resources + [r], subjectId) ==
      TypesOf(resources, subjectId) + (if r.subjectId == subjectId then [r.resourceType] else [])
    decreases |resources|
  {
    if resources == [] {
      assert resources + [r] == [r];
    } else {
      var all := resources + [r];
      var head := if resources[0].subjectId == subjectId then [resources[0].resourceType] else [];
      var tail := if r.subjectId == subjectId then [r.resourceType] else [];
      assert all[0] == resources[0];
      assert all[1..] == resources[1..] + [r];
      assert TypesOf(all, subjectId) == head + TypesOf(resources[1..] + [r], subjectId);
      TypesOfAppend(resources[1..], r, subjectId);
      assert TypesOf(resources, subjectId) == head + TypesOf(resources[1..], subjectId);
      assert head + (TypesOf(resources[1..], subjectId) + tail) == (head + TypesOf(resources[1..], subjectId)) + tail;
    }
  }

  /** The reported count never exceeds the number of subjects, and equals it exactly when no upsert failed. */
  lemma {:induction false} SucceededBound(ids: seq<int>, upsertFail: set<int>)
    ensures |Succeeded(ids, upsertFail)| <= |ids|
    ensures |Succeeded(ids, upsertFail)| == |ids| <==> forall i :: 0 <= i < |ids| ==> ids[i] !in upsertFail
    decreases |ids|
  {
    if ids != [] {
      var init := ids[..|ids| - 1];
      SucceededBound(init, upsertFail);
      forall i | 0 <= i < |init| ensures init[i] == ids[i] { }
    }
  }

  // ---------------------------------------------------------------------
  // The two drivers
  // ---------------------------------------------------------------------

  datatype SyncReply = SyncOk(count: nat) | SyncError(message: string)
  {
    function Status(): nat
    {
      if SyncOk? then 200 else 500
    }
  }

  /** One iteration of either loop: query, tally, upsert; `ok` is "the upsert reported no error". */
  method SyncSubject(db: Database, subjectId: int, f: SyncFaults, now: int) returns (ok: bool)
    modifies db`subjectStatistics
    ensures ok <==> subjectId !in f.upsertFail
    ensures db.subjectStatistics ==
      if ok then old(db.subjectStatistics)[subjectId := SyncRow(Lookup(old(db.subjectStatistics), subjectId),
                                                             db.resources, db.questions, subjectId, f, now)]
      else old(db.subjectStatistics)
  {
    var counts := NoCounts;
    if subjectId !in f.resourcesFail {
      counts := CountResources(TypesOf(db.resources, subjectId));
    }
    var questionsCount := if subjectId in f.countFail then 0 else QuestionCount(db.questions, subjectId);
    ok := subjectId !in f.upsertFail;
    if ok {
      var row := Upserted(Lookup(db.subjectStatistics, subjectId), counts, questionsCount, now);
      db.subjectStatistics := db.subjectStatistics[subjectId := row];
    }
  }

  /**
   * `POST /api/statistics/sync`: a failed subject query is a 500 carrying the
   * error message and writes nothing; otherwise every subject is synced and
   * the reply counts the upserts that reported no error.
   */
  method SyncRoute(db: Database, f: SyncFaults, now: int) returns (reply: SyncReply)
    modifies db`subjectStatistics
    ensures f.subjectsError.Some? ==>
      reply == SyncError(f.subjectsError.value) && db.subjectStatistics == old(db.subjectStatistics)
    ensures f.subjectsError.None? ==>
      && reply == SyncOk(|Succeeded(SubjectIds(db.subjects), f.upsertFail)|)
      && db.subjectStatistics == SyncTable(old(db.subjectStatistics), SubjectIds(db.subjects),
                                           db.resources, db.questions, f, now)
  {
    if f.subjectsError.Some? {
      return SyncError(f.subjectsError.value);
    }
    var ids := SubjectIds(db.subjects);
    var results: seq<int> := [];
    for i := 0 to |ids|
      invariant results == Succeeded(ids[..i], f.upsertFail)
      invariant db.subjectStatistics == SyncTable(old(db.subjectStatistics), ids[..i], db.resources, db.questions, f, now)
    {
      assert ids[..i + 1][..i] == ids[..i];
      var ok := SyncSubject(db, ids[i], f, now);
      if ok {
        results := results + [ids[i]];
      }
    }
    assert ids[..|ids|] == ids;
    reply := SyncOk(|results|);
  }

  /**
   * The `relink-stats` script: the same loop without a reply; a failed
   * subject query is logged and nothing is written, a failed upsert is logged
   * and the loop goes on.
   */
  method RelinkStatistics(db: Database, f: SyncFaults, now: int)
    modifies db`subjectStatistics
    ensures f.subjectsError.Some? ==> db.subjectStatistics == old(db.subjectStatistics)
    ensures f.subjectsError.None? ==>
      db.subjectStatistics == SyncTable(old(db.subjectStatistics), SubjectIds(db.subjects),
                                        db.resources, db.questions, f, now)
  {
    if f.subjectsError.Some? {
      return;
    }
    var ids := SubjectIds(db.subjects);
    for i := 0 to |ids|
      invariant db.subjectStatistics == SyncTable(old(db.subjectStatistics), ids[..i], db.resources, db.questions, f, now)
    {
      assert ids[..i + 1][..i] == ids[..i];
      var _ := SyncSubject(db, ids[i], f, now);
    }
    assert ids[..|ids|] == ids;
  }
}
