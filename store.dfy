/**
 * The persistent store as in-memory tables. Rows are values; the store is one
 * object whose fields are the tables that the route handlers and scripts read
 * and overwrite. Auto-increment keys are explicit counters, and the unique
 * keys of the schema (subject `code`, statistics `subject_id`) are part of
 * the object invariant `Valid`.
 */
module Store {
  import opened Common

  datatype Subject = Subject(
    id: int, nameAr: string, nameEn: string, code: string,
    descriptionAr: Option<string>, descriptionEn: Option<string>, semester: int)

  /** A row of `resources`; `resourceType` is the `type` column, `null` included. */
  datatype Resource = Resource(
    id: int, subjectId: int, resourceType: Option<string>, titleAr: string, titleEn: string,
    descriptionAr: Option<string>, descriptionEn: Option<string>,
    filePath: Option<string>, fileUrl: Option<string>, fileSize: Option<nat>, fileType: Option<string>,
    source: Option<string>, addedBy: Option<string>, orderIndex: Option<int>)

  datatype Question = Question(
    id: int, subjectId: Option<int>, topicAr: Option<string>, topicEn: Option<string>,
    textAr: Option<string>, textEn: Option<string>, answerAr: Option<string>, answerEn: Option<string>,
    imagePath: Option<string>, difficulty: string, addedBy: Option<string>)

  datatype Announcement = Announcement(
    id: int, titleAr: string, titleEn: string, contentAr: string, contentEn: string,
    priority: string, announcementType: string, isActive: bool, addedBy: Option<string>)

  /** The six counter columns of the `statistics` table. */
  datatype Counter = TotalLectures | TotalSheets | TotalAssignments | TotalExams | TotalReferences | TotalQuestions

  /** A row of the `statistics` table, one per subject. */
  datatype StatRow = StatRow(
    subjectId: int, lectures: nat, sheets: nat, assignments: nat, exams: nat, references: nat, questions: nat)
  {
    function Get(c: Counter): nat
    {
      match c
      case TotalLectures => lectures
      case TotalSheets => sheets
      case TotalAssignments => assignments
      case TotalExams => exams
      case TotalReferences => references
      case TotalQuestions => questions
    }

    /** `SET c = c + 1` on this row. */
    function Bumped(c: Counter): (r: StatRow)
      ensures r.subjectId == subjectId
      ensures forall d :: r.Get(d) == Get(d) + (if d == c then 1 else 0)
    {
      match c
      case TotalLectures => this.(lectures := lectures + 1)
      case TotalSheets => this.(sheets := sheets + 1)
      case TotalAssignments => this.(assignments := assignments + 1)
      case TotalExams => this.(exams := exams + 1)
      case TotalReferences => this.(references := references + 1)
      case TotalQuestions => this.(questions := questions + 1)
    }
  }

  /** A fresh `statistics` row: every counter at its column default 0. */
  function NewStatRow(subjectId: int): StatRow
  {
    StatRow(subjectId, 0, 0, 0, 0, 0, 0)
  }

  /** A row of `subject_statistics`, keyed by `subject_id`. */
  datatype SubjectStats = SubjectStats(
    lectures: nat, assignments: nat, exams: nat, sheets: nat, references: nat,
    importantQuestions: nat, questions: nat, labs: nat, practicals: nat, tutorials: nat,
    updatedAt: int)

  /** A `subject_statistics` row holding only column defaults. */
  function ZeroStats(now: int): SubjectStats
  {
    SubjectStats(0, 0, 0, 0, 0, 0, 0, 0, 0, 0, now)
  }

  datatype Admin = Admin(id: int, email: string, name: string, password: string, lastLogin: Option<int>)

  datatype Activity = Activity(adminId: int, action: string, details: string)

  datatype User = User(username: string, passwordHash: string, role: string)

  // ---------------------------------------------------------------------
  // Queries and updates over the tables
  // ---------------------------------------------------------------------

  /** The ids a query over `subjects` returns, in table order. */
  function SubjectIds(subjects: seq<Subject>): (ids: seq<int>)
    ensures |ids| == |subjects|
    ensures forall i :: 0 <= i < |subjects| ==> ids[i] == subjects[i].id
    ensures forall k :: k in ids <==> exists i :: 0 <= i < |subjects| && subjects[i].id == k
  {
    seq(|subjects|, i requires 0 <= i < |subjects| => subjects[i].id)
  }

  predicate CodeTaken(subjects: seq<Subject>, code: string)
  {
    exists i :: 0 <= i < |subjects| && subjects[i].code == code
  }

  predicate UniqueCodes(subjects: seq<Subject>)
  {
    forall i, j :: 0 <= i < j < |subjects| ==> subjects[i].code != subjects[j].code
  }

  predicate HasStatRow(rows: seq<StatRow>, subjectId: int)
  {
    exists i :: 0 <= i < |rows| && rows[i].subjectId == subjectId
  }

  predicate UniqueStatSubjects(rows: seq<StatRow>)
  {
    forall i, j :: 0 <= i < j < |rows| ==> rows[i].subjectId != rows[j].subjectId
  }

  predicate UsernameTaken(users: seq<User>, username: string)
  {
    exists i :: 0 <= i < |users| && users[i].username == username
  }

  /** `UPDATE statistics SET c = c + 1 WHERE subject_id = ?`. */
  function IncrementWhere(rows: seq<StatRow>, subjectId: int, c: Counter): (r: seq<StatRow>)
    ensures |r| == |rows|
    ensures forall i :: 0 <= i < |rows| ==>
      r[i] == if rows[i].subjectId == subjectId then rows[i].Bumped(c) else rows[i]
  {
    seq(|rows|, i requires 0 <= i < |rows| =>
      if rows[i].subjectId == subjectId then rows[i].Bumped(c) else rows[i])
  }

  class Database {
    var subjects: seq<Subject>
    var resources: seq<Resource>
    var questions: seq<Question>
    var announcements: seq<Announcement>
    var statistics: seq<StatRow>
    var subjectStatistics: map<int, SubjectStats>
    var admins: seq<Admin>
    var activityLog: seq<Activity>
    var users: seq<User>
    var nextSubjectId: int
    var nextResourceId: int
    var nextQuestionId: int
    var nextAnnouncementId: int

    /**
     * The schema's constraints: unique subject codes, subject ids below the
     * auto-increment counter, one `statistics` row per subject and only for
     * existing subjects.
     */
    ghost predicate Valid()
      reads this
    {
      && UniqueCodes(subjects)
      && (forall i :: 0 <= i < |subjects| ==> subjects[i].id < nextSubjectId)
      && UniqueStatSubjects(statistics)
      && (forall i :: 0 <= i < |statistics| ==> statistics[i].subjectId < nextSubjectId)
    }

    constructor ()
      ensures Valid()
      ensures subjects == [] && resources == [] && questions == [] && announcements == []
      ensures statistics == [] && subjectStatistics == map[] && admins == [] && activityLog == [] && users == []
    {
      subjects, resources, questions, announcements := [], [], [], [];
      statistics, subjectStatistics := [], map[];
      admins, activityLog, users := [], [], [];
      nextSubjectId, nextResourceId, nextQuestionId, nextAnnouncementId := 1, 1, 1, 1;
    }

    /**
     * `INSERT INTO subjects`: fails on a duplicate `code` (the unique key) or
     * when the store reports an error (`storeFails`); otherwise appends the row
     * under the next auto-increment id.
     */
    method InsertSubject(nameAr: string, nameEn: string, code: string, descriptionAr: Option<string>,
                         descriptionEn: Option<string>, semester: int, storeFails: bool)
      returns (id: Option<int>)
      requires Valid()
      modifies this`subjects, this`nextSubjectId
      ensures Valid()
      ensures id.Some? <==> !storeFails && !CodeTaken(old(subjects), code)
      ensures id.Some? ==> id.value == old(nextSubjectId) && nextSubjectId == old(nextSubjectId) + 1
      ensures id.Some? ==> subjects == old(subjects) + [Subject(id.value, nameAr, nameEn, code, descriptionAr, descriptionEn, semester)]
      ensures id.None? ==> subjects == old(subjects) && nextSubjectId == old(nextSubjectId)
    {
      if storeFails || CodeTaken(subjects, code) {
        return None;
      }
      id := Some(nextSubjectId);
      subjects := subjects + [Subject(nextSubjectId, nameAr, nameEn, code, descriptionAr, descriptionEn, semester)];
      nextSubjectId := nextSubjectId + 1;
    }

    /**
     * `INSERT INTO statistics (subject_id)`: fails on a second row for the same
     * subject (the unique key) or when the store reports an error.
     */
    method InsertStatRow(subjectId: int, storeFails: bool) returns (ok: bool)
      requires Valid()
      requires subjectId < nextSubjectId
      modifies this`statistics
      ensures Valid()
      ensures ok <==> !storeFails && !HasStatRow(old(statistics), subjectId)
      ensures statistics == if ok then old(statistics) + [NewStatRow(subjectId)] else old(statistics)
    {
      if storeFails || HasStatRow(statistics, subjectId) {
        return false;
      }
      statistics := statistics + [NewStatRow(subjectId)];
      ok := true;
    }

    /** `UPDATE statistics SET c = c + 1 WHERE subject_id = ?`: no row is added, removed or re-keyed. */
    method Increment(subjectId: int, c: Counter)
      requires Valid()
      modifies this`statistics
      ensures Valid()
      ensures statistics == IncrementWhere(old(statistics), subjectId, c)
    {
      statistics := IncrementWhere(statistics, subjectId, c);
    }
  }
}
