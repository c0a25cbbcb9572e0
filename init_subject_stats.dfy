/**
 * The `init-subject-stats` script: every subject without a
 * `subject_statistics` row gets one holding zeros. A failed lookup reads as
 * "no row", so the script then tries the insert, which the key rejects when
 * the row does exist; every failure is only logged.
 */
module InitSubjectStats {
  import opened Common
  import opened Store

  /**
   * The script's loop. `subjectsError` is the subjects query failing;
   * `insertFails` the subjects whose insert the store rejects; `now` the
   * insert time that fills `updated_at`.
   */
  method InitializeStatistics(db: Database, subjectsError: bool, insertFails: set<int>, now: int)
    modifies db`subjectStatistics
    ensures subjectsError ==> db.subjectStatistics == old(db.subjectStatistics)
    ensures forall k :: k in old(db.subjectStatistics) ==>
      k in db.subjectStatistics && db.subjectStatistics[k] == old(db.subjectStatistics)[k]
    ensures forall k :: k in db.subjectStatistics && k !in old(db.subjectStatistics) ==>
      db.subjectStatistics[k] == ZeroStats(now) && k !in insertFails && k in SubjectIds(db.subjects)
    ensures !subjectsError ==> forall k :: k in SubjectIds(db.subjects) && k !in insertFails ==> k in db.subjectStatistics
  {
    if subjectsError {
      return;
    }
    var ids := SubjectIds(db.subjects);
    for i := 0 to |ids|
      invariant forall k :: k in old(db.subjectStatistics) ==>
        k in db.subjectStatistics && db.subjectStatistics[k] == old(db.subjectStatistics)[k]
      invariant forall k :: k in db.subjectStatistics && k !in old(db.subjectStatistics) ==>
        db.subjectStatistics[k] == ZeroStats(now) && k !in insertFails && k in ids[..i]
      invariant forall j :: 0 <= j < i && ids[j] !in insertFails ==> ids[j] in db.subjectStatistics
    {
      var id := ids[i];
      if id !in db.subjectStatistics && id !in insertFails {
        db.subjectStatistics := db.subjectStatistics[id := ZeroStats(now)];
      }
    }
    assert ids[..|ids|] == ids;
  }

  /**
   * Consequence of the contract above: once every subject has its row, a
   * run changes nothing, so the script can be re-run safely.
   */
  lemma RerunChangesNothing(before: map<int, SubjectStats>, after: map<int, SubjectStats>,
                            ids: seq<int>, insertFails: set<int>, now: int)
    requires forall k :: k in ids ==> k in before
    requires forall k :: k in before ==> k in after && after[k] == before[k]
    requires forall k :: k in after && k !in before ==> after[k] == ZeroStats(now) && k !in insertFails && k in ids
    ensures after == before
  {
    forall k | k in after ensures k in before {
      assert k !in before ==> k in ids;
    }
    assert after.Keys == before.Keys by {
      forall k | k in before ensures k in after {
      }
    }
    forall k | k in after ensures after[k] == before[k] {
    }
  }
}
