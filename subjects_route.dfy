/**
 * `/api/subjects`: GET lists every subject with its six counters (0 where
 * the subject has no `statistics` row), ordered by code; POST creates a
 * subject and its zeroed `statistics` row.
 */
module SubjectsRoute {
  import opened Common
  import opened Store

  // ---------------------------------------------------------------------
  // ORDER BY s.code ASC
  // ---------------------------------------------------------------------

  /** Code-point order on codes: a prefix comes first, otherwise the first differing character decides. */
  predicate CodeLe(a: string, b: string)
    decreases |a|
  {
    a == [] || (b != [] && (a[0] < b[0] || (a[0] == b[0] && CodeLe(a[1..], b[1..]))))
  }

  lemma {:induction false} CodeLeTotal(a: string, b: string)
    ensures CodeLe(a, b) || CodeLe(b, a)
    decreases |a|
  {
    if a != [] && b != [] && a[0] == b[0] {
      CodeLeTotal(a[1..], b[1..]);
    }
  }

  lemma {:induction false} CodeLeTransitive(a: string, b: string, c: string)
    requires CodeLe(a, b) && CodeLe(b, c)
    ensures CodeLe(a, c)
    decreases |a|
  {
    if a != [] && a[0] == b[0] && b[0] == c[0] {
      CodeLeTransitive(a[1..], b[1..], c[1..]);
    }
  }

  lemma {:induction false} CodeLeAntisymmetric(a: string, b: string)
    requires CodeLe(a, b) && CodeLe(b, a)
    ensures a == b
    decreases |a|
  {
    if a != [] {
      CodeLeAntisymmetric(a[1..], b[1..]);
      assert a == [a[0]] + a[1..] && b == [b[0]] + b[1..];
    }
  }

  predicate SortedByCode(subjects: seq<Subject>)
  {
    forall i, j :: 0 <= i < j < |subjects| ==> CodeLe(subjects[i].code, subjects[j].code)
  }

  /** `s` placed before the first subject of `sorted` whose code is not below its own. */
  function InsertByCode(s: Subject, sorted: seq<Subject>): (r: seq<Subject>)
    ensures multiset(r) == multiset(sorted) + multiset{s}
    ensures |r| == |sorted| + 1
    decreases |sorted|
  {
    if sorted == [] || CodeLe(s.code, sorted[0].code) then [s] + sorted
    else
      assert sorted == [sorted[0]] + sorted[1..];
      [sorted[0]] + InsertByCode(s, sorted[1..])
  }

  lemma {:induction false} InsertByCodeSorted(s: Subject, sorted: seq<Subject>)
    requires SortedByCode(sorted)
    ensures SortedByCode(InsertByCode(s, sorted))
    decreases |sorted|
  {
    var r := InsertByCode(s, sorted);
    if sorted == [] {
    } else if CodeLe(s.code, sorted[0].code) {
      forall j | 1 <= j < |r| ensures CodeLe(r[0].code, r[j].code) {
        if j > 1 {
          CodeLeTransitive(s.code, sorted[0].code, sorted[j - 1].code);
        }
      }
    } else {
      var tail := sorted[1..];
      InsertByCodeSorted(s, tail);
      CodeLeTotal(s.code, sorted[0].code);
      var rest := InsertByCode(s, tail);
      assert r == [sorted[0]] + rest;
      forall j | 0 <= j < |rest| ensures CodeLe(sorted[0].code, rest[j].code) {
        assert rest[j] in multiset(rest);
        assert rest[j] == s || rest[j] in multiset(tail);
        if rest[j] != s {
          var k :| 0 <= k < |tail| && tail[k] == rest[j];
          assert sorted[k + 1] == tail[k];
        }
      }
    }
  }

  /** The rows of `subjects` ordered by code. */
  function SortByCode(subjects: seq<Subject>): (r: seq<Subject>)
    ensures multiset(r) == multiset(subjects)
    ensures |r| == |subjects|
    decreases |subjects|
  {
    if subjects == [] then []
    else
      assert subjects == subjects[..|subjects| - 1] + [subjects[|subjects| - 1]];
      InsertByCode(subjects[|subjects| - 1], SortByCode(subjects[..|subjects| - 1]))
  }

  /** `ORDER BY s.code ASC` yields every row once, in ascending code order. */
  lemma {:induction false} SortByCodeSorted(subjects: seq<Subject>)
    ensures SortedByCode(SortByCode(subjects))
    decreases |subjects|
  {
    if subjects != [] {
      SortByCodeSorted(subjects[..|subjects| - 1]);
      InsertByCodeSorted(subjects[|subjects| - 1], SortByCode(subjects[..|subjects| - 1]));
    }
  }

  /** A subject put in front of rows that have unique codes, none of them its own, keeps the codes unique. */
  lemma PrependUnique(x: Subject, rest: seq<Subject>)
    requires UniqueCodes(rest)
    requires forall t :: t in rest ==> t.code != x.code
    ensures UniqueCodes([x] + rest)
  {
    var r := [x] + rest;
    forall i, j | 0 <= i < j < |r| ensures r[i].code != r[j].code {
      assert r[j] == rest[j - 1];
      if i > 0 {
        assert r[i] == rest[i - 1];
      }
    }
  }

  /** Placing a subject whose code no row of `sorted` has keeps the codes unique. */
  lemma {:induction false} InsertByCodeUnique(s: Subject, sorted: seq<Subject>)
    requires UniqueCodes(sorted)
    requires forall t :: t in sorted ==> t.code != s.code
    ensures UniqueCodes(InsertByCode(s, sorted))
    decreases |sorted|
  {
    if sorted == [] || CodeLe(s.code, sorted[0].code) {
      PrependUnique(s, sorted);
    } else {
      var head, tail := sorted[0], sorted[1..];
      assert sorted == [head] + tail;
      assert UniqueCodes(tail) by {
        forall i, j | 0 <= i < j < |tail| ensures tail[i].code != tail[j].code {
          assert tail[i] == sorted[i + 1] && tail[j] == sorted[j + 1];
        }
      }
      InsertByCodeUnique(s, tail);
      var rest := InsertByCode(s, tail);
      forall t | t in rest ensures t.code != head.code {
        assert t in multiset(rest);
        if t != s {
          var k :| 0 <= k < |tail| && tail[k] == t;
          assert sorted[k + 1] == t;
        }
      }
      PrependUnique(head, rest);
    }
  }

  /** Ordering by code keeps the codes unique: the schema's unique key survives the `ORDER BY`. */
  lemma {:induction false} SortByCodeUnique(subjects: seq<Subject>)
    requires UniqueCodes(subjects)
    ensures UniqueCodes(SortByCode(subjects))
    decreases |subjects|
  {
    if subjects != [] {
      var init := subjects[..|subjects| - 1];
      var last := subjects[|subjects| - 1];
      assert UniqueCodes(init) by {
        forall i, j | 0 <= i < j < |init| ensures init[i].code != init[j].code {
          assert init[i] == subjects[i] && init[j] == subjects[j];
        }
      }
      SortByCodeUnique(init);
      var sorted := SortByCode(init);
      forall t | t in sorted ensures t.code != last.code {
        assert t in multiset(sorted);
        var k :| 0 <= k < |init| && init[k] == t;
        assert subjects[k] == t;
      }
      InsertByCodeUnique(last, sorted);
    }
  }

  /** With unique codes, the ordered listing is strictly increasing: no two rows tie. */
  lemma StrictlyOrdered(subjects: seq<Subject>, i: int, j: int)
    requires UniqueCodes(subjects)
    requires 0 <= i < j < |subjects|
    ensures CodeLe(SortByCode(subjects)[i].code, SortByCode(subjects)[j].code)
    ensures SortByCode(subjects)[i].code != SortByCode(subjects)[j].code
  {
    SortByCodeSorted(subjects);
    SortByCodeUnique(subjects);
  }

  // ---------------------------------------------------------------------
  // GET: the left join with COALESCE
  // ---------------------------------------------------------------------

  /** A listed subject: its own columns and the six counters of the join. */
  datatype SubjectListing = SubjectListing(subject: Subject, totals: StatRow)

  /** The `statistics` row joined to a subject, or an all-zero row (`COALESCE(..., 0)`) when none matches. */
  function JoinedTotals(rows: seq<StatRow>, subjectId: int): (t: StatRow)
    ensures t.subjectId == subjectId
    ensures !HasStatRow(rows, subjectId) ==> t == NewStatRow(subjectId)
    ensures HasStatRow(rows, subjectId) ==> t in rows
    decreases |rows|
  {
    if rows == [] then NewStatRow(subjectId)
    else if rows[0].subjectId == subjectId then rows[0]
    else
      var t := JoinedTotals(rows[1..], subjectId);
      assert HasStatRow(rows, subjectId) ==> HasStatRow(rows[1..], subjectId) by {
        if HasStatRow(rows, subjectId) {
          var i :| 0 <= i < |rows| && rows[i].subjectId == subjectId;
          assert rows[1..][i - 1] == rows[i];
        }
      }
      t
  }

  /** With one row per subject, the joined counters are the counters of that subject's row. */
  lemma JoinedTotalsIsTheRow(rows: seq<StatRow>, k: int)
    requires UniqueStatSubjects(rows)
    requires 0 <= k < |rows|
    ensures JoinedTotals(rows, rows[k].subjectId) == rows[k]
  {
    var t := JoinedTotals(rows, rows[k].subjectId);
    assert HasStatRow(rows, rows[k].subjectId);
    var m :| 0 <= m < |rows| && rows[m] == t;
  }

  function Listing(subjects: seq<Subject>, rows: seq<StatRow>): (r: seq<SubjectListing>)
    ensures |r| == |subjects|
    ensures forall i :: 0 <= i < |r| ==> r[i].subject == subjects[i] && r[i].totals == JoinedTotals(rows, subjects[i].id)
  {
    seq(|subjects|, i requires 0 <= i < |subjects| =>
      SubjectListing(subjects[i], JoinedTotals(rows, subjects[i].id)))
  }

  datatype ListReply = Subjects(rows: seq<SubjectListing>) | ListError(error: string)

  const InternalError := "Internal server error"

  /**
   * With one `statistics` row per subject, each listed subject carries exactly
   * its own row, or zeros when it has none: the join matches at most one row,
   * so it lists every subject once.
   */
  lemma ListingTotals(subjects: seq<Subject>, rows: seq<StatRow>)
    requires UniqueStatSubjects(rows)
    ensures var r := Listing(subjects, rows);
      && (forall i, k :: 0 <= i < |r| && 0 <= k < |rows| && rows[k].subjectId == r[i].subject.id ==>
            r[i].totals == rows[k])
      && (forall i :: 0 <= i < |r| && !HasStatRow(rows, r[i].subject.id) ==> r[i].totals == NewStatRow(r[i].subject.id))
  {
    var r := Listing(subjects, rows);
    forall i, k | 0 <= i < |r| && 0 <= k < |rows| && rows[k].subjectId == r[i].subject.id
      ensures r[i].totals == rows[k]
    {
      JoinedTotalsIsTheRow(rows, k);
    }
  }

  /**
   * The GET handler: one entry per subject, in strictly ascending code order,
   * each carrying its subject's `statistics` row or zeros. The unique keys on
   * `subjects.code` and `statistics.subject_id` are what make the left join
   * list each subject once and the order strict.
   */
  method GetSubjects(db: Database, storeFails: bool) returns (reply: ListReply)
    requires db.Valid()
    ensures storeFails <==> reply == ListError(InternalError)
    ensures reply.Subjects? ==> reply.rows == Listing(SortByCode(db.subjects), db.statistics)
    ensures reply.Subjects? ==> |reply.rows| == |db.subjects|
    ensures reply.Subjects? ==> forall i :: 0 <= i < |reply.rows| ==>
      reply.rows[i].subject in db.subjects && reply.rows[i].totals == JoinedTotals(db.statistics, reply.rows[i].subject.id)
    ensures reply.Subjects? ==> multiset(SubjectsOf(reply.rows)) == multiset(db.subjects)
    ensures reply.Subjects? ==> forall i, j :: 0 <= i < j < |reply.rows| ==>
      CodeLe(reply.rows[i].subject.code, reply.rows[j].subject.code)
      && reply.rows[i].subject.code != reply.rows[j].subject.code
    ensures reply.Subjects? ==> forall i, k ::
      0 <= i < |reply.rows| && 0 <= k < |db.statistics| && db.statistics[k].subjectId == reply.rows[i].subject.id ==>
        reply.rows[i].totals == db.statistics[k]
    ensures reply.Subjects? ==> forall i :: 0 <= i < |reply.rows| && !HasStatRow(db.statistics, reply.rows[i].subject.id) ==>
      reply.rows[i].totals == NewStatRow(reply.rows[i].subject.id)
  {
    if storeFails {
      return ListError(InternalError);
    }
    ListingRowsAreSubjects(db.subjects, db.statistics);
    ListingListsEachSubjectOnce(db.subjects, db.statistics);
    ListingSorted(db.subjects, db.statistics);
    ListingTotals(SortByCode(db.subjects), db.statistics);
    ListingStrictlySorted(db.subjects, db.statistics);
    reply := Subjects(Listing(SortByCode(db.subjects), db.statistics));
  }

  /** Every listed row is a stored subject with its joined counters. */
  lemma ListingRowsAreSubjects(subjects: seq<Subject>, rows: seq<StatRow>)
    ensures var r := Listing(SortByCode(subjects), rows);
      forall i :: 0 <= i < |r| ==> r[i].subject in subjects && r[i].totals == JoinedTotals(rows, r[i].subject.id)
  {
    var ordered := SortByCode(subjects);
    forall i | 0 <= i < |ordered| ensures ordered[i] in subjects {
      assert ordered[i] in multiset(ordered);
    }
  }

  /** The subjects of a listing, in its order. */
  function SubjectsOf(listing: seq<SubjectListing>): (r: seq<Subject>)
    ensures |r| == |listing| && forall i :: 0 <= i < |r| ==> r[i] == listing[i].subject
  {
    seq(|listing|, i requires 0 <= i < |listing| => listing[i].subject)
  }

  /** The listing lists exactly the stored subjects, each once. */
  lemma ListingListsEachSubjectOnce(subjects: seq<Subject>, rows: seq<StatRow>)
    ensures multiset(SubjectsOf(Listing(SortByCode(subjects), rows))) == multiset(subjects)
  {
    var ordered := SortByCode(subjects);
    assert SubjectsOf(Listing(ordered, rows)) == ordered;
  }

  /** The listing is in ascending code order. */
  lemma ListingSorted(subjects: seq<Subject>, rows: seq<StatRow>)
    ensures var r := Listing(SortByCode(subjects), rows);
      forall i, j :: 0 <= i < j < |r| ==> CodeLe(r[i].subject.code, r[j].subject.code)
  {
    SortByCodeSorted(subjects);
  }

  /** With unique codes, no two rows of the listing share a code. */
  lemma ListingStrictlySorted(subjects: seq<Subject>, rows: seq<StatRow>)
    requires UniqueCodes(subjects)
    ensures var r := Listing(SortByCode(subjects), rows);
      forall i, j :: 0 <= i < j < |r| ==> r[i].subject.code != r[j].subject.code
  {
    SortByCodeUnique(subjects);
  }

  // ---------------------------------------------------------------------
  // POST
  // ---------------------------------------------------------------------

  /** The JSON body's fields; `None` is an absent or `null` member. */
  datatype SubjectBody = SubjectBody(
    nameAr: Option<string>, nameEn: Option<string>, code: Option<string>,
    descriptionAr: Option<string>, descriptionEn: Option<string>, semester: Option<int>)

  /** The 201 body echoes the fields as they were sent, not as they were stored. */
  datatype CreateReply =
    | Created(id: int, nameAr: string, nameEn: string, code: string,
              descriptionAr: Option<string>, descriptionEn: Option<string>, semester: Option<int>)
    | BadRequest(error: string)
    | ServerError(error: string)

  const RequiredMessage := "Name (AR), Name (EN), and Code are required"

  predicate Complete(b: SubjectBody)
  {
    Present(b.nameAr) && Present(b.nameEn) && Present(b.code)
  }

  /** `description || null`: an empty description is stored as `null`. */
  function Nullable(d: Option<string>): (r: Option<string>)
    ensures r.Some? <==> Present(d)
    ensures r.Some? ==> r == d
  {
    if Present(d) then d else None
  }

  /** `semester || 1`: a missing or zero semester is stored as 1. */
  function Semester(s: Option<int>): (r: int)
    ensures r != 0
    ensures s.Some? && s.value != 0 ==> r == s.value
  {
    if s.Some? && s.value != 0 then s.value else 1
  }

  /** Where the POST handler's store calls fail. */
  datatype SubjectFault = NoFault | SubjectInsertFails | StatsInsertFails

  /**
   * The POST handler. `body` is `None` when the request is not JSON; the
   * subject insert also fails on a duplicate code (the table's unique key).
   */
  method PostSubject(db: Database, body: Option<SubjectBody>, fault: SubjectFault) returns (reply: CreateReply)
    requires db.Valid()
    modifies db`subjects, db`nextSubjectId, db`statistics
    ensures db.Valid()
    ensures body.None? ==> reply == ServerError(InternalError)
    ensures body.Some? && !Complete(body.value) ==> reply == BadRequest(RequiredMessage)
    ensures reply.BadRequest? <==> body.Some? && !Complete(body.value)
    ensures reply.Created? <==>
      body.Some? && Complete(body.value) && fault == NoFault && !CodeTaken(old(db.subjects), body.value.code.value)
    ensures reply.Created? ==>
      var b := body.value;
      && reply == Created(old(db.nextSubjectId), b.nameAr.value, b.nameEn.value, b.code.value,
                          b.descriptionAr, b.descriptionEn, b.semester)
      && db.statistics == old(db.statistics) + [NewStatRow(reply.id)]
    ensures reply.ServerError? ==> reply.error == InternalError
    ensures fault != NoFault ==> db.statistics == old(db.statistics)
    ensures
      var inserted := body.Some? && Complete(body.value) && fault != SubjectInsertFails
                      && !CodeTaken(old(db.subjects), body.value.code.value);
      && (inserted ==>
            var b := body.value;
            db.subjects == old(db.subjects) + [Subject(old(db.nextSubjectId), b.nameAr.value, b.nameEn.value,
              b.code.value, Nullable(b.descriptionAr), Nullable(b.descriptionEn), Semester(b.semester))])
      && (!inserted ==> db.subjects == old(db.subjects) && db.statistics == old(db.statistics))
  {
    if body.None? {
      return ServerError(InternalError);
    }
    var b := body.value;
    if !Complete(b) {
      return BadRequest(RequiredMessage);
    }
    var id := db.InsertSubject(b.nameAr.value, b.nameEn.value, b.code.value,
                               Nullable(b.descriptionAr), Nullable(b.descriptionEn), Semester(b.semester),
                               fault == SubjectInsertFails);
    if id.None? {
      return ServerError(InternalError);
    }
    assert !HasStatRow(db.statistics, id.value);
    var ok := db.InsertStatRow(id.value, fault == StatsInsertFails);
    if !ok {
      return ServerError(InternalError);
    }
    reply := Created(id.value, b.nameAr.value, b.nameEn.value, b.code.value, b.descriptionAr, b.descriptionEn, b.semester);
  }
}
