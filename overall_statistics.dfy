/**
 * `GET /api/statistics/overall`: the six counter columns of `statistics`
 * summed over all rows, plus the number of subjects. A `SUM` over no rows is
 * SQL `NULL`, which the handler replaces by 0.
 */
module OverallStatistics {
  import opened Common
  import opened Store

  /** The sum of column `c` over `rows`. */
  function SumColumn(rows: seq<StatRow>, c: Counter): nat
    decreases |rows|
  {
    if rows == [] then 0 else SumColumn(rows[..|rows| - 1], c) + rows[|rows| - 1].Get(c)
  }

  /** SQL `SUM(c)`: `NULL` (here `None`) over an empty table. */
  function SqlSum(rows: seq<StatRow>, c: Counter): (r: Option<nat>)
    ensures r.None? <==> rows == []
  {
    if rows == [] then None else Some(SumColumn(rows, c))
  }

  /** `value || 0`. */
  function OrZero(v: Option<nat>): nat
  {
    if v.Some? then v.value else 0
  }

  datatype Overall = Overall(
    totalLectures: nat, totalAssignments: nat, totalExams: nat, totalSubjects: nat,
    totalSheets: nat, totalReferences: nat, totalQuestions: nat)
  {
    function Get(c: Counter): nat
    {
      match c
      case TotalLectures => totalLectures
      case TotalSheets => totalSheets
      case TotalAssignments => totalAssignments
      case TotalExams => totalExams
      case TotalReferences => totalReferences
      case TotalQuestions => totalQuestions
    }
  }

  datatype OverallReply = Totals(totals: Overall) | ServerError(error: string)

  const InternalError := "Internal server error"

  /** The `NULL`-to-0 fallback makes each total exactly the column sum, empty table included. */
  lemma FallbackIsSum(rows: seq<StatRow>, c: Counter)
    ensures OrZero(SqlSum(rows, c)) == SumColumn(rows, c)
  {
  }

  /**
   * The GET handler: `storeFails` says whether either query throws. Each
   * total is the column's sum over every `statistics` row and `totalSubjects`
   * counts the subjects.
   */
  method GetOverall(db: Database, storeFails: bool) returns (reply: OverallReply)
    ensures storeFails <==> reply == ServerError(InternalError)
    ensures reply.Totals? ==> reply.totals.totalSubjects == |db.subjects|
    ensures reply.Totals? ==> forall c :: reply.totals.Get(c) == SumColumn(db.statistics, c)
  {
    if storeFails {
      return ServerError(InternalError);
    }
    var rows := db.statistics;
    forall c: Counter ensures OrZero(SqlSum(rows, c)) == SumColumn(rows, c) {
      FallbackIsSum(rows, c);
    }
    reply := Totals(Overall(
      OrZero(SqlSum(rows, TotalLectures)), OrZero(SqlSum(rows, TotalAssignments)),
      OrZero(SqlSum(rows, TotalExams)), |db.subjects|,
      OrZero(SqlSum(rows, TotalSheets)), OrZero(SqlSum(rows, TotalReferences)),
      OrZero(SqlSum(rows, TotalQuestions))));
  }

  // ---------------------------------------------------------------------
  // How the counter updates of the POST handlers move the totals
  // ---------------------------------------------------------------------

  /** The number of rows keyed on `subjectId`. */
  function RowsFor(rows: seq<StatRow>, subjectId: int): nat
    decreases |rows|
  {
    if rows == [] then 0
    else RowsFor(rows[..|rows| - 1], subjectId) + (if rows[|rows| - 1].subjectId == subjectId then 1 else 0)
  }

  /** With one row per subject, a subject has one row if it has any, and none otherwise. */
  lemma {:induction false} RowsForUnique(rows: seq<StatRow>, subjectId: int)
    requires UniqueStatSubjects(rows)
    ensures RowsFor(rows, subjectId) == if HasStatRow(rows, subjectId) then 1 else 0
    decreases |rows|
  {
    if rows != [] {
      var init := rows[..|rows| - 1];
      var last := rows[|rows| - 1];
      assert UniqueStatSubjects(init);
      RowsForUnique(init, subjectId);
      if last.subjectId == subjectId {
        forall i | 0 <= i < |init| ensures init[i].subjectId != subjectId {
          assert init[i] == rows[i];
        }
      }
      if HasStatRow(rows, subjectId) && last.subjectId != subjectId {
        var i :| 0 <= i < |rows| && rows[i].subjectId == subjectId;
        assert init[i].subjectId == subjectId;
      }
    }
  }

  lemma IncrementWhereInit(rows: seq<StatRow>, subjectId: int, c: Counter)
    requires rows != []
    ensures IncrementWhere(rows, subjectId, c)[..|rows| - 1] == IncrementWhere(rows[..|rows| - 1], subjectId, c)
  {
  }

  /**
   * `UPDATE statistics SET c = c + 1 WHERE subject_id = ?` raises the sum of
   * column `c` by the number of rows for the subject and leaves the other
   * sums alone.
   */
  lemma {:induction false} SumAfterIncrementWhere(rows: seq<StatRow>, subjectId: int, c: Counter, d: Counter)
    ensures SumColumn(IncrementWhere(rows, subjectId, c), d) ==
      SumColumn(rows, d) + (if d == c then RowsFor(rows, subjectId) else 0)
    decreases |rows|
  {
    if rows != [] {
      var init := rows[..|rows| - 1];
      SumAfterIncrementWhere(init, subjectId, c, d);
      IncrementWhereInit(rows, subjectId, c);
    }
  }

  /**
   * Creating a resource or question of a counted kind raises the matching
   * overall total by exactly one when the subject has its `statistics` row,
   * and by nothing when it has none.
   */
  lemma TotalAfterIncrement(rows: seq<StatRow>, subjectId: int, c: Counter)
    requires UniqueStatSubjects(rows)
    ensures SumColumn(IncrementWhere(rows, subjectId, c), c) ==
      SumColumn(rows, c) + (if HasStatRow(rows, subjectId) then 1 else 0)
  {
    SumAfterIncrementWhere(rows, subjectId, c, c);
    RowsForUnique(rows, subjectId);
  }

  /** A new subject's zero row leaves every total unchanged. */
  lemma NewRowKeepsTotals(rows: seq<StatRow>, subjectId: int, c: Counter)
    ensures SumColumn(rows + [NewStatRow(subjectId)], c) == SumColumn(rows, c)
  {
    assert (rows + [NewStatRow(subjectId)])[..|rows|] == rows;
  }
}
