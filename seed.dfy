/**
 * The `seed` script: inserts the seven first-semester subjects that are not
 * there yet, each followed by its `statistics` row, then the five admin
 * users that are not there yet, all with the same password hash. Every
 * failure is only logged; the script never stops early.
 */
module Seed {
  import opened Common
  import opened Store

  datatype SeedSubject = SeedSubject(
    nameAr: string, nameEn: string, code: string, descriptionAr: string, descriptionEn: string, semester: int)

  const SeedSubjects: seq<SeedSubject> := [
    SeedSubject("الحسبان I", "Calculus I", "EGS11101", "مقدمة في التفاضل والتكامل", "Introduction to Calculus", 1),
    SeedSubject("الجبر الخطي", "Linear Algebra", "EGS11102", "المصفوفات والمتجهات", "Matrices and Vectors", 1),
    SeedSubject("الفيزياء I", "Physics I", "EGS11203", "الميكانيكا والخواص العامة للمادة",
                "Mechanics and General Properties of Matter", 1),
    SeedSubject("الكيمياء I", "Chemistry I", "EGS11304", "الكيمياء العامة", "General Chemistry", 1),
    SeedSubject("برمجة الحاسوب", "Computer Programming", "EGS12405", "مقدمة في البرمجة", "Introduction to Programming", 1),
    SeedSubject("اللغة العربية I", "Arabic Language I", "HUM11101", "النحو والصرف", "Arabic Grammar", 1),
    SeedSubject("الثقافة الإسلامية I", "Islamic Culture I", "HUM12302", "مقدمة في الثقافة الإسلامية",
                "Introduction to Islamic Culture", 1)
  ]

  const AdminNames: seq<string> := ["admin1", "admin2", "admin3", "admin4", "admin5"]
  const AdminRole := "admin"

  /** No two seed subjects share a code, so each can be inserted. */
  lemma SeedCodesDistinct()
    ensures |SeedSubjects| == 7
    ensures forall i, j :: 0 <= i < j < |SeedSubjects| ==> SeedSubjects[i].code != SeedSubjects[j].code
  {
  }

  lemma AdminNamesDistinct()
    ensures |AdminNames| == 5
    ensures forall i, j :: 0 <= i < j < |AdminNames| ==> AdminNames[i] != AdminNames[j]
  {
  }

  /** Whether a row is the stored form of a seed entry. */
  predicate StoredAs(s: Subject, e: SeedSubject)
  {
    s.nameAr == e.nameAr && s.nameEn == e.nameEn && s.code == e.code
    && s.descriptionAr == Some(e.descriptionAr) && s.descriptionEn == Some(e.descriptionEn) && s.semester == e.semester
  }

  /** Whether a row is the stored form of one of the first `n` seed entries. */
  predicate StoredFromFirst(s: Subject, entries: seq<SeedSubject>, n: nat)
  {
    exists i :: 0 <= i < n && i < |entries| && StoredAs(s, entries[i])
  }

  /**
   * One pass of the subjects loop. A failed existence check reads as
   * "absent", and the insert then fails on the code's unique key, so the
   * check never changes the outcome; the `statistics` row follows only a
   * successful insert.
   */
  method SeedOneSubject(db: Database, e: SeedSubject, insertFails: bool, statsFails: bool)
    returns (id: Option<int>, ghost newRows: seq<Subject>, ghost newStats: seq<StatRow>)
    requires db.Valid()
    modifies db`subjects, db`nextSubjectId, db`statistics
    ensures db.Valid()
    ensures id.Some? <==> !insertFails && !CodeTaken(old(db.subjects), e.code)
    ensures id.Some? ==> id.value == old(db.nextSubjectId) && db.nextSubjectId == old(db.nextSubjectId) + 1
    ensures id.None? ==> db.nextSubjectId == old(db.nextSubjectId)
    ensures db.subjects == old(db.subjects) + newRows && db.statistics == old(db.statistics) + newStats
    ensures id.None? ==> newRows == [] && newStats == []
    ensures id.Some? ==>
      && |newRows| == 1 && newRows[0].id == id.value && StoredAs(newRows[0], e)
      && newStats == (if statsFails then [] else [NewStatRow(id.value)])
  {
    id := db.InsertSubject(e.nameAr, e.nameEn, e.code, Some(e.descriptionAr), Some(e.descriptionEn),
                           e.semester, insertFails);
    newRows, newStats := [], [];
    if id.Some? {
      newRows := [Subject(id.value, e.nameAr, e.nameEn, e.code, Some(e.descriptionAr), Some(e.descriptionEn), e.semester)];
      assert !HasStatRow(db.statistics, id.value);
      var _ := db.InsertStatRow(id.value, statsFails);
      newStats := if statsFails then [] else [NewStatRow(id.value)];
    }
  }

  /**
   * What the subjects loop has achieved after `n` entries, given the rows it
   * appended (`added`, `addedStats`) to a table whose ids were below `next0`.
   */
  ghost predicate SeededSoFar(entries: seq<SeedSubject>, n: nat, insertFails: set<string>, statsFails: set<string>,
                              subjects: seq<Subject>, added: seq<Subject>, addedStats: seq<StatRow>, next0: int)
    requires n <= |entries|
  {
    && (forall i :: 0 <= i < n && entries[i].code !in insertFails ==> CodeTaken(subjects, entries[i].code))
    && (forall j :: 0 <= j < |added| ==>
          StoredFromFirst(added[j], entries, n)
          && (added[j].code !in statsFails ==> HasStatRow(addedStats, added[j].id)))
    && (forall k :: 0 <= k < |addedStats| ==> addedStats[k].subjectId >= next0)
  }

  /** One more entry, inserted or not, keeps `SeededSoFar`. */
  lemma SeededStep(entries: seq<SeedSubject>, n: nat, insertFails: set<string>, statsFails: set<string>,
                   before: seq<Subject>, after: seq<Subject>, added: seq<Subject>, addedStats: seq<StatRow>,
                   newRows: seq<Subject>, newStats: seq<StatRow>, next0: int)
    requires n < |entries|
    requires SeededSoFar(entries, n, insertFails, statsFails, before, added, addedStats, next0)
    requires after == before + newRows
    requires newRows == [] ==> newStats == [] && (entries[n].code !in insertFails ==> CodeTaken(before, entries[n].code))
    requires newRows != [] ==>
      && |newRows| == 1 && StoredAs(newRows[0], entries[n]) && newRows[0].id >= next0
      && newStats == (if entries[n].code in statsFails then [] else [NewStatRow(newRows[0].id)])
    ensures SeededSoFar(entries, n + 1, insertFails, statsFails, after, added + newRows, addedStats + newStats, next0)
  {
    TakenStaysTaken(before, after);
    StatRowsStay(addedStats, addedStats + newStats);
    if newRows != [] {
      assert after[|before|] == newRows[0];
      if entries[n].code !in statsFails {
        assert (addedStats + newStats)[|addedStats|].subjectId == newRows[0].id;
      }
    }
  }

  /**
   * The subjects loop. `insertFails` and `statsFails` name the codes whose
   * subject or `statistics` insert the store rejects.
   */
  method SeedSubjectRows(db: Database, entries: seq<SeedSubject>, insertFails: set<string>, statsFails: set<string>)
    requires db.Valid()
    modifies db`subjects, db`nextSubjectId, db`statistics
    ensures db.Valid()
    ensures |old(db.subjects)| <= |db.subjects| && db.subjects[..|old(db.subjects)|] == old(db.subjects)
    ensures |old(db.statistics)| <= |db.statistics| && db.statistics[..|old(db.statistics)|] == old(db.statistics)
    ensures forall i :: 0 <= i < |entries| && entries[i].code !in insertFails ==> CodeTaken(db.subjects, entries[i].code)
    ensures forall j :: |old(db.subjects)| <= j < |db.subjects| ==>
      StoredFromFirst(db.subjects[j], entries, |entries|)
      && (db.subjects[j].code !in statsFails ==> HasStatRow(db.statistics, db.subjects[j].id))
    ensures forall k :: |old(db.statistics)| <= k < |db.statistics| ==> db.statistics[k].subjectId >= old(db.nextSubjectId)
    ensures (forall i :: 0 <= i < |entries| ==> CodeTaken(old(db.subjects), entries[i].code)) ==>
      db.subjects == old(db.subjects) && db.statistics == old(db.statistics)
  {
    ghost var added: seq<Subject> := [];
    ghost var addedStats: seq<StatRow> := [];
    for n := 0 to |entries|
      invariant db.Valid() && old(db.nextSubjectId) <= db.nextSubjectId
      invariant db.subjects == old(db.subjects) + added && db.statistics == old(db.statistics) + addedStats
      invariant SeededSoFar(entries, n, insertFails, statsFails, db.subjects, added, addedStats, old(db.nextSubjectId))
      invariant (forall i :: 0 <= i < |entries| ==> CodeTaken(old(db.subjects), entries[i].code)) ==>
        added == [] && addedStats == []
    {
      var e := entries[n];
      ghost var before := db.subjects;
      var id, newRows, newStats := SeedOneSubject(db, e, e.code in insertFails, e.code in statsFails);
      SeededStep(entries, n, insertFails, statsFails, before, db.subjects, added, addedStats, newRows, newStats,
                 old(db.nextSubjectId));
      Regrouped(old(db.subjects), added, newRows, db.subjects);
      Regrouped(old(db.statistics), addedStats, newStats, db.statistics);
      added, addedStats := added + newRows, addedStats + newStats;
    }
    SeededAll(entries, insertFails, statsFails, old(db.subjects), added, old(db.statistics), addedStats,
              old(db.nextSubjectId), db.subjects, db.statistics);
  }

  lemma Regrouped<T>(a: seq<T>, b: seq<T>, c: seq<T>, whole: seq<T>)
    requires whole == (a + b) + c
    ensures whole == a + (b + c)
  {
  }

  /** `SeededSoFar` over every entry, restated over the whole tables. */
  lemma SeededAll(entries: seq<SeedSubject>, insertFails: set<string>, statsFails: set<string>,
                  subjects0: seq<Subject>, added: seq<Subject>, stats0: seq<StatRow>, addedStats: seq<StatRow>, next0: int,
                  subjects: seq<Subject>, stats: seq<StatRow>)
    requires subjects == subjects0 + added && stats == stats0 + addedStats
    requires SeededSoFar(entries, |entries|, insertFails, statsFails, subjects, added, addedStats, next0)
    ensures subjects[..|subjects0|] == subjects0 && stats[..|stats0|] == stats0
    ensures forall j :: |subjects0| <= j < |subjects| ==> StoredFromFirst(subjects[j], entries, |entries|)
    ensures forall j :: |subjects0| <= j < |subjects| && subjects[j].code !in statsFails ==> HasStatRow(stats, subjects[j].id)
    ensures forall k :: |stats0| <= k < |stats| ==> stats[k].subjectId >= next0
  {
    assert stats[|stats0|..] == addedStats;
    forall id | HasStatRow(addedStats, id) ensures HasStatRow(stats, id) {
      var i :| 0 <= i < |addedStats| && addedStats[i].subjectId == id;
      assert stats[|stats0| + i] == addedStats[i];
    }
    forall j | |subjects0| <= j < |subjects|
      ensures StoredFromFirst(subjects[j], entries, |entries|)
    {
      assert subjects[j] == added[j - |subjects0|];
    }
    forall j | |subjects0| <= j < |subjects| && subjects[j].code !in statsFails
      ensures HasStatRow(stats, subjects[j].id)
    {
      assert subjects[j] == added[j - |subjects0|];
    }
    forall k | |stats0| <= k < |stats| ensures stats[k].subjectId >= next0 {
      assert stats[k] == addedStats[k - |stats0|];
    }
  }

  /** A subject with a `statistics` row keeps it when rows are appended. */
  lemma StatRowsStay(before: seq<StatRow>, after: seq<StatRow>)
    requires |before| <= |after| && after[..|before|] == before
    ensures forall id :: HasStatRow(before, id) ==> HasStatRow(after, id)
  {
    forall id | HasStatRow(before, id) ensures HasStatRow(after, id) {
      var i :| 0 <= i < |before| && before[i].subjectId == id;
      assert after[i] == before[i];
    }
  }

  /** A code present before an append is present after it. */
  lemma TakenStaysTaken(before: seq<Subject>, after: seq<Subject>)
    requires |before| <= |after| && after[..|before|] == before
    ensures forall c :: CodeTaken(before, c) ==> CodeTaken(after, c)
  {
    forall c | CodeTaken(before, c) ensures CodeTaken(after, c) {
      var i :| 0 <= i < |before| && before[i].code == c;
      assert after[i] == before[i];
    }
  }

  predicate UniqueUsernames(users: seq<User>)
  {
    forall i, j :: 0 <= i < j < |users| ==> users[i].username != users[j].username
  }

  /**
   * The users loop: each name not found is inserted with the shared hash and
   * the admin role. `lookupFails` names the users whose existence check
   * fails (read as "absent"), `insertFails` those whose insert is rejected.
   */
  method SeedUsers(db: Database, names: seq<string>, passwordHash: string,
                   lookupFails: set<string>, insertFails: set<string>)
    modifies db`users
    ensures |old(db.users)| <= |db.users| && db.users[..|old(db.users)|] == old(db.users)
    ensures forall j :: |old(db.users)| <= j < |db.users| ==>
      db.users[j].username in names && db.users[j].passwordHash == passwordHash && db.users[j].role == AdminRole
    ensures forall i :: 0 <= i < |names| && names[i] !in insertFails ==> UsernameTaken(db.users, names[i])
    ensures UniqueUsernames(old(db.users)) && lookupFails == {} ==> UniqueUsernames(db.users)
    ensures (forall i :: 0 <= i < |names| ==> UsernameTaken(old(db.users), names[i])) && lookupFails == {} ==>
      db.users == old(db.users)
  {
    ghost var added: seq<User> := [];
    for n := 0 to |names|
      invariant db.users == old(db.users) + added
      invariant forall j :: 0 <= j < |added| ==>
        added[j].username in names && added[j].passwordHash == passwordHash && added[j].role == AdminRole
      invariant forall i :: 0 <= i < n && names[i] !in insertFails ==> UsernameTaken(db.users, names[i])
      invariant UniqueUsernames(old(db.users)) && lookupFails == {} ==> UniqueUsernames(db.users)
      invariant (forall i :: 0 <= i < |names| ==> UsernameTaken(old(db.users), names[i])) && lookupFails == {} ==>
        added == []
    {
      var name := names[n];
      var found := UsernameTaken(db.users, name) && name !in lookupFails;
      if !found && name !in insertFails {
        ghost var before := db.users;
        var user := User(name, passwordHash, AdminRole);
        db.users := db.users + [user];
        UserAppended(before, user);
        Regrouped(old(db.users), added, [user], db.users);
        added := added + [user];
      }
    }
    UsersAppended(old(db.users), added, db.users);
  }

  /** Appending a user keeps every name taken, takes the new one, and keeps names unique when it was new. */
  lemma UserAppended(before: seq<User>, user: User)
    ensures forall c :: UsernameTaken(before, c) ==> UsernameTaken(before + [user], c)
    ensures UsernameTaken(before + [user], user.username)
    ensures UniqueUsernames(before) && !UsernameTaken(before, user.username) ==> UniqueUsernames(before + [user])
  {
    var after := before + [user];
    assert after[|before|] == user;
    forall c | UsernameTaken(before, c) ensures UsernameTaken(after, c) {
      var i :| 0 <= i < |before| && before[i].username == c;
      assert after[i] == before[i];
    }
  }

  /** The users loop's appended rows, restated over the whole table. */
  lemma UsersAppended(users0: seq<User>, added: seq<User>, users: seq<User>)
    requires users == users0 + added
    ensures |users0| <= |users| && users[..|users0|] == users0
    ensures forall j :: |users0| <= j < |users| ==> users[j] == added[j - |users0|]
  {
  }

  /**
   * The whole script. `passwordHash` is the bcrypt hash of the shared
   * password, whose salt is random; the fault sets are as for the two loops.
   */
  method RunSeed(db: Database, passwordHash: string, subjectInsertFails: set<string>, statsFails: set<string>,
                 lookupFails: set<string>, userInsertFails: set<string>)
    requires db.Valid()
    modifies db`subjects, db`nextSubjectId, db`statistics, db`users
    ensures db.Valid()
    ensures forall i :: 0 <= i < |SeedSubjects| && SeedSubjects[i].code !in subjectInsertFails ==>
      CodeTaken(db.subjects, SeedSubjects[i].code)
    ensures forall i :: 0 <= i < |AdminNames| && AdminNames[i] !in userInsertFails ==>
      UsernameTaken(db.users, AdminNames[i])
    ensures UniqueUsernames(old(db.users)) && lookupFails == {} ==> UniqueUsernames(db.users)
  {
    SeedSubjectRows(db, SeedSubjects, subjectInsertFails, statsFails);
    SeedUsers(db, AdminNames, passwordHash, lookupFails, userInsertFails);
  }
}
