/** The run manifest shared by batch runs and swarm traces: one row per task,
    a run status derived from the task statuses, and aggregate counts.
    Timestamps are integer seconds of one clock; the ISO text the program
    writes is not modelled. */
module Manifest {
  import opened Results
  import opened Json
  import Schemas

  datatype TaskStatus = Pending | InProgress | Success | Failure | Timeout | Blocked

  function TaskStatusName(s: TaskStatus): string {
    match s
    case Pending => "pending"
    case InProgress => "in_progress"
    case Success => "success"
    case Failure => "failure"
    case Timeout => "timeout"
    case Blocked => "blocked"
  }

  /** The statuses that make a run fail. */
  predicate Failing(s: TaskStatus) {
    s == Failure || s == Timeout || s == Blocked
  }

  datatype RunState = RunCompleted | RunFailed | RunInProgress | RunPending

  function RunStateName(s: RunState): string {
    match s
    case RunCompleted => "completed"
    case RunFailed => "failed"
    case RunInProgress => "in_progress"
    case RunPending => "pending"
  }

  /** A task row. `exitCode` is whatever value the source stored; `role` and
      `dependsOn` are only present when the request carried valid ones. */
  datatype TaskRow = TaskRow(taskId: string, ownerAgent: string, status: TaskStatus, exitCode: Value,
                             role: Option<string>, dependsOn: Option<seq<string>>)

  datatype Metrics = Metrics(totalTasks: nat, succeeded: nat, failed: nat, durationSeconds: int,
                             totalTokens: nat, retryTotal: nat, conflictCount: nat)

  datatype RunManifest = RunManifest(runId: string, createdAt: int, completedAt: Option<int>, status: RunState,
                                     tasks: seq<TaskRow>, configHash: string, systemRulesHash: string,
                                     metrics: Metrics)

  predicate AllSuccess(rows: seq<TaskRow>) {
    forall i :: 0 <= i < |rows| ==> rows[i].status == Success
  }

  predicate AnyFailing(rows: seq<TaskRow>) {
    exists i :: 0 <= i < |rows| && Failing(rows[i].status)
  }

  predicate AnyInProgress(rows: seq<TaskRow>) {
    exists i :: 0 <= i < |rows| && rows[i].status == InProgress
  }

  /** `sum(1 for t in rows if t.status == "success")` */
  function CountSuccess(rows: seq<TaskRow>): (n: nat)
    ensures n <= |rows|
    ensures n == |rows| <==> AllSuccess(rows)
  {
    if |rows| == 0 then 0
    else
      var rest := CountSuccess(rows[1..]);
      assert AllSuccess(rows) <==> rows[0].status == Success && AllSuccess(rows[1..]) by {
        assert forall i :: 1 <= i < |rows| ==> rows[i] == rows[1..][i - 1];
      }
      (if rows[0].status == Success then 1 else 0) + rest
  }

  function CountFailing(rows: seq<TaskRow>): (n: nat)
    ensures n <= |rows|
    ensures n == 0 <==> !AnyFailing(rows)
  {
    if |rows| == 0 then 0
    else
      var rest := CountFailing(rows[1..]);
      assert AnyFailing(rows) <==> Failing(rows[0].status) || AnyFailing(rows[1..]) by {
        assert forall i :: 1 <= i < |rows| ==> rows[i] == rows[1..][i - 1];
      }
      (if Failing(rows[0].status) then 1 else 0) + rest
  }

  /** A row is never both successful and failing, so the two counts together
      never exceed the number of rows. */
  lemma {:induction false} CountsBounded(rows: seq<TaskRow>)
    ensures CountSuccess(rows) + CountFailing(rows) <= |rows|
  {
    if |rows| > 0 {
      CountsBounded(rows[1..]);
    }
  }

  /** The keys a manifest is written with, in order. */
  const ManifestKeys: seq<string> := ["run_id", "created_at", "completed_at", "status", "tasks", "config_hash",
                                      "system_rules_hash", "aggregate_metrics"]

  function RowJson(t: TaskRow): Value {
    var base := [("task_id", Str(t.taskId)), ("owner_agent", Str(t.ownerAgent)),
                 ("status", Str(TaskStatusName(t.status))), ("exit_code", t.exitCode)];
    var withRole := base + (match t.role case Some(r) => [("role", Str(r))] case None => []);
    Object(withRole + (match t.dependsOn case Some(d) => [("depends_on", StrList(d))] case None => []))
  }

  function MetricsJson(m: Metrics): Value {
    Object([("total_tasks", Int(m.totalTasks)), ("succeeded", Int(m.succeeded)), ("failed", Int(m.failed)),
            ("total_duration_seconds", Int(m.durationSeconds)), ("total_tokens", Int(m.totalTokens)),
            ("retry_total", Int(m.retryTotal)), ("conflict_count", Int(m.conflictCount))])
  }

  /** The manifest as the JSON object written to disk. */
  function ManifestJson(m: RunManifest): (r: Value)
    ensures r.Object? && |r.fields| == |ManifestKeys|
    ensures forall i :: 0 <= i < |ManifestKeys| ==> r.fields[i].0 == ManifestKeys[i]
  {
    Object(Zip(ManifestKeys, [
      Str(m.runId), Int(m.createdAt),
      (match m.completedAt case Some(t) => Int(t) case None => Null),
      Str(RunStateName(m.status)),
      List(seq(|m.tasks|, i requires 0 <= i < |m.tasks| => RowJson(m.tasks[i]))),
      Str(m.configHash), Str(m.systemRulesHash), MetricsJson(m.metrics)]))
  }

  /** Every manifest, from either producer, carries the fields the run-manifest
      schema requires, so validating it never reports an error. */
  lemma ManifestValid(m: RunManifest, strict: bool)
    ensures Schemas.ValidateRunManifest(ManifestJson(m), strict) == Ok([])
  {
    var r := ManifestJson(m);
    var req := Schemas.RequiredFields(Schemas.RunManifestSchema).value;
    assert req == [ManifestKeys[0], ManifestKeys[1], ManifestKeys[3], ManifestKeys[4], ManifestKeys[5], ManifestKeys[6]];
    forall f | f in req ensures Has(r, f) {
      if f == ManifestKeys[0] { assert r.fields[0].0 == f; }
      else if f == ManifestKeys[1] { assert r.fields[1].0 == f; }
      else if f == ManifestKeys[3] { assert r.fields[3].0 == f; }
      else if f == ManifestKeys[4] { assert r.fields[4].0 == f; }
      else if f == ManifestKeys[5] { assert r.fields[5].0 == f; }
      else { assert r.fields[6].0 == f; }
    }
  }
}
