/** Report de-duplication, shared by `reportPost` and `reportComment`: a report row records who
    reported which post or comment, and a second report of the same target by the same user is
    answered with a message and inserts nothing. */
module Reports {
  import opened Js

  /** A row of the post or comment report table. */
  datatype Report = Report(userId: Value, targetId: string)

  /** `count({ where: { userId, targetId } })` */
  function CountReports(rows: seq<Report>, userId: Value, targetId: string): (n: nat)
    ensures n == 0 <==> Report(userId, targetId) !in rows
    ensures n <= |rows|
  {
    if rows == [] then 0
    else (if rows[0] == Report(userId, targetId) then 1 else 0) + CountReports(rows[1..], userId, targetId)
  }

  /** The answer: `{ message }` with status 200 for a repeated report, the new row with 201. */
  datatype ReportReply = AlreadyReported | Reported(report: Report)

  /** The JSON of a new report row, its target under `column` (`postId` or `commentId`). */
  function Body(r: Report, column: string): Value {
    Obj(map["userId" := r.userId, column := Str(r.targetId)])
  }

  /** No user has reported the same target twice. */
  ghost predicate NoDuplicates(rows: seq<Report>) {
    forall i, j :: 0 <= i < j < |rows| ==> rows[i] != rows[j]
  }

  /** The report step: when the count is non-zero nothing is inserted, otherwise exactly the new
      row is appended and returned. */
  function Reporting(rows: seq<Report>, userId: Value, targetId: string): (res: (seq<Report>, ReportReply))
    ensures Report(userId, targetId) in rows ==> res == (rows, AlreadyReported)
    ensures Report(userId, targetId) !in rows ==>
      res == (rows + [Report(userId, targetId)], Reported(Report(userId, targetId)))
  {
    if CountReports(rows, userId, targetId) > 0 then (rows, AlreadyReported)
    else (rows + [Report(userId, targetId)], Reported(Report(userId, targetId)))
  }

  /** The table never holds the same report twice. */
  lemma {:induction false} ReportingKeepsNoDuplicates(rows: seq<Report>, userId: Value, targetId: string)
    requires NoDuplicates(rows)
    ensures NoDuplicates(Reporting(rows, userId, targetId).0)
    ensures Report(userId, targetId) in Reporting(rows, userId, targetId).0
  {
    var out := Reporting(rows, userId, targetId).0;
    if Report(userId, targetId) !in rows {
      forall i, j | 0 <= i < j < |out| ensures out[i] != out[j] {
        if j == |rows| {
          assert out[i] == rows[i];
        }
      }
    }
  }

  /** Reporting is idempotent: a second identical report changes nothing and is answered with
      the "already reported" message. */
  lemma ReportingTwice(rows: seq<Report>, userId: Value, targetId: string)
    ensures var once := Reporting(rows, userId, targetId).0;
      Reporting(once, userId, targetId) == (once, AlreadyReported)
  {
  }
}
