/** The run manifest of a batch run: one row per requested task, in request
    order, whose status comes from the result of the same id; a run status
    derived from the rows; and counts over the results. The run id and both
    hashes are inputs, since they are digests of the request and the clock. */
module BatchManifest {
  import opened Results
  import opened Json
  import PyStr
  import opened Manifest
  import opened CollabUtils

  // ------------------------------------------------------------------ per result

  /** `_task_status`: success wins over a timeout. */
  function TaskStatusOf(r: TaskResult): (s: TaskStatus)
    ensures s == Success || s == Timeout || s == Failure
    ensures s == Success <==> r.success
    ensures s == Timeout <==> !r.success && r.timedOut
  {
    if r.success then Success
    else if r.timedOut then Timeout
    else Failure
  }

  /** `_task_exit_code`, with the same precedence. */
  function TaskExitCode(r: TaskResult): (code: string)
    ensures code == "E-000" || code == "X-001" || code == "S-001"
    ensures code == "E-000" <==> r.success
  {
    if r.success then "E-000"
    else if r.timedOut then "X-001"
    else "S-001"
  }

  /** The exit code a row carries for each status it can have. */
  function ExitCodeForStatus(s: TaskStatus): string {
    match s
    case Success => "E-000"
    case Timeout => "X-001"
    case _ => "S-001"
  }

  /** Status and exit code always agree: the code is determined by the status. */
  lemma StatusAndExitCodeAgree(r: TaskResult)
    ensures TaskExitCode(r) == ExitCodeForStatus(TaskStatusOf(r))
    ensures TaskStatusOf(r) == Timeout <==> TaskExitCode(r) == "X-001"
    ensures TaskStatusOf(r) == Failure <==> TaskExitCode(r) == "S-001"
  {
  }

  // ------------------------------------------------------------------ rows

  /** The position of the last result with the given id, or -1. */
  function LastIndex(results: seq<TaskResult>, id: string): (k: int)
    ensures -1 <= k < |results|
    ensures k == -1 <==> forall j :: 0 <= j < |results| ==> results[j].id != id
    ensures k >= 0 ==> results[k].id == id && forall j :: k < j < |results| ==> results[j].id != id
    decreases |results|
  {
    if |results| == 0 then -1
    else if results[|results| - 1].id == id then |results| - 1
    else
      var prev := results[..|results| - 1];
      assert forall j :: 0 <= j < |prev| ==> prev[j] == results[j];
      LastIndex(prev, id)
  }

  /** `{r.id: r for r in results}.get(id)`: the comprehension keeps the last
      result of every id. */
  function LastResult(results: seq<TaskResult>, id: string): (r: Option<TaskResult>)
    ensures r.None? <==> forall j :: 0 <= j < |results| ==> results[j].id != id
    ensures r.Some? ==> r.value == results[LastIndex(results, id)]
  {
    var k := LastIndex(results, id);
    if k < 0 then None else Some(results[k])
  }

  /** The task id a row shows: the request's own id, else `task-NNN` by 1-based position. */
  function RowTaskId(id: string, position: nat): (r: string)
    ensures |id| > 0 ==> r == id
    ensures |id| == 0 ==> PyStr.StartsWith(r, "task-") && |r| >= 8
  {
    if |id| > 0 then id
    else
      var r := "task-" + PyStr.ZeroPad(position, 3);
      assert r[..5] == "task-";
      r
  }

  function RowFor(task: TaskRequest, position: nat, results: seq<TaskResult>): TaskRow {
    match LastResult(results, task.id)
    case None => TaskRow(RowTaskId(task.id, position), task.provider, Blocked, Str("S-001"), None, None)
    case Some(res) => TaskRow(RowTaskId(task.id, position), task.provider, TaskStatusOf(res), Str(TaskExitCode(res)), None, None)
  }

  /** The rows of `_build_run_manifest`: one per task, in task order. */
  function BatchRows(tasks: seq<TaskRequest>, results: seq<TaskResult>): (rows: seq<TaskRow>)
    ensures |rows| == |tasks|
    ensures forall i :: 0 <= i < |tasks| ==> rows[i].ownerAgent == tasks[i].provider
    ensures forall i :: 0 <= i < |tasks| ==> rows[i].taskId == RowTaskId(tasks[i].id, i + 1)
    ensures forall i :: 0 <= i < |tasks| ==> rows[i].exitCode == Str(ExitCodeForStatus(rows[i].status))
    ensures forall i :: 0 <= i < |tasks| ==> rows[i].role.None? && rows[i].dependsOn.None?
    ensures forall i :: 0 <= i < |tasks| ==> rows[i].status == Success || Failing(rows[i].status)
  {
    seq(|tasks|, i requires 0 <= i < |tasks| => RowFor(tasks[i], i + 1, results))
  }

  /** A row is blocked exactly when no result carries its task's id; otherwise
      it shows the status of the last such result. */
  lemma RowStatus(tasks: seq<TaskRequest>, results: seq<TaskResult>, i: nat)
    requires i < |tasks|
    ensures BatchRows(tasks, results)[i].status == Blocked <==>
      forall j :: 0 <= j < |results| ==> results[j].id != tasks[i].id
    ensures forall j :: (0 <= j < |results| && results[j].id == tasks[i].id &&
      (forall k :: j < k < |results| ==> results[k].id != tasks[i].id)) ==>
        BatchRows(tasks, results)[i].status == TaskStatusOf(results[j])
  {
    var k := LastIndex(results, tasks[i].id);
    forall j | 0 <= j < |results| && results[j].id == tasks[i].id &&
      (forall k :: j < k < |results| ==> results[k].id != tasks[i].id)
      ensures k == j
    {
    }
  }

  // ------------------------------------------------------------------ run status and counts

  /** The batch run status: completed when every row succeeded, failed when
      any row failed, timed out or is blocked, else in progress. */
  function BatchRunStatus(rows: seq<TaskRow>): (s: RunState)
    ensures s == RunCompleted <==> |rows| > 0 && AllSuccess(rows)
    ensures s == RunFailed <==> AnyFailing(rows) && !(|rows| > 0 && AllSuccess(rows))
    ensures s != RunPending
  {
    if |rows| > 0 && AllSuccess(rows) then RunCompleted
    else if AnyFailing(rows) then RunFailed
    else RunInProgress
  }

  /** `sum(1 for r in results if r.success)` */
  function SucceededCount(results: seq<TaskResult>): (n: nat)
    ensures n <= |results|
    ensures n == |results| <==> forall j :: 0 <= j < |results| ==> results[j].success
    ensures n == 0 <==> forall j :: 0 <= j < |results| ==> !results[j].success
    decreases |results|
  {
    if |results| == 0 then 0
    else
      var prev := results[..|results| - 1];
      assert forall j :: 0 <= j < |prev| ==> prev[j] == results[j];
      SucceededCount(prev) + (if results[|results| - 1].success then 1 else 0)
  }

  /** `_build_run_manifest`, with timestamps as integer seconds. */
  function BuildRunManifest(tasks: seq<TaskRequest>, results: seq<TaskResult>, startedAt: int, completedAt: int,
                            runId: string, configHash: string, rulesHash: string): (m: RunManifest)
    ensures m.tasks == BatchRows(tasks, results)
    ensures m.status == BatchRunStatus(m.tasks)
    ensures m.runId == runId && m.createdAt == startedAt
    ensures m.completedAt.None? <==> m.status == RunInProgress
    ensures m.completedAt.Some? ==> m.completedAt.value == completedAt
    ensures m.metrics.totalTasks == |tasks|
    ensures m.metrics.succeeded + m.metrics.failed == |results|
    ensures m.metrics.durationSeconds >= 0
    ensures startedAt <= completedAt ==> m.metrics.durationSeconds == completedAt - startedAt
    ensures m.metrics.totalTokens == 0 && m.metrics.retryTotal == 0 && m.metrics.conflictCount == 0
  {
    var rows := BatchRows(tasks, results);
    var status := BatchRunStatus(rows);
    var succeeded := SucceededCount(results);
    var duration := if completedAt - startedAt > 0 then completedAt - startedAt else 0;
    RunManifest(runId, startedAt, if status == RunInProgress then None else Some(completedAt), status, rows,
                configHash, rulesHash,
                Metrics(|tasks|, succeeded, |results| - succeeded, duration, 0, 0, 0))
  }

  /** Every row of a batch is settled, so a batch run is in progress only when
      it has no tasks at all. */
  lemma BatchInProgressOnlyWhenEmpty(tasks: seq<TaskRequest>, results: seq<TaskResult>)
    ensures BatchRunStatus(BatchRows(tasks, results)) == RunInProgress <==> |tasks| == 0
  {
    var rows := BatchRows(tasks, results);
    if |tasks| > 0 && !AllSuccess(rows) {
      var i :| 0 <= i < |rows| && rows[i].status != Success;
      assert Failing(rows[i].status);
    }
  }

  /** When every task has a successful result the run is completed, and a task
      without any result makes it fail. */
  lemma BatchCompletedIffAllSucceeded(tasks: seq<TaskRequest>, results: seq<TaskResult>)
    requires |tasks| > 0
    ensures BatchRunStatus(BatchRows(tasks, results)) == RunCompleted <==>
      forall i :: 0 <= i < |tasks| ==> (LastResult(results, tasks[i].id).Some? &&
        LastResult(results, tasks[i].id).value.success)
  {
    var rows := BatchRows(tasks, results);
    forall i | 0 <= i < |tasks|
      ensures rows[i].status == Success <==>
        LastResult(results, tasks[i].id).Some? && LastResult(results, tasks[i].id).value.success
    {
    }
  }

  /** A task with no result of its id makes the run fail. */
  lemma MissingResultFailsRun(tasks: seq<TaskRequest>, results: seq<TaskResult>, i: nat)
    requires i < |tasks|
    requires forall j :: 0 <= j < |results| ==> results[j].id != tasks[i].id
    ensures BatchRunStatus(BatchRows(tasks, results)) == RunFailed
  {
    var rows := BatchRows(tasks, results);
    RowStatus(tasks, results, i);
    assert rows[i].status == Blocked && Failing(rows[i].status);
    assert !AllSuccess(rows);
  }

  // ------------------------------------------------------------------ resume and guards

  /** `_apply_resume`: without resume the tasks stay; with it, exactly the tasks
      whose id was not seen remain, in order. */
  function ApplyResume(tasks: seq<TaskRequest>, resume: bool, seen: set<Value>): (r: seq<TaskRequest>)
    ensures !resume ==> r == tasks
    ensures resume ==> forall t :: t in r <==> t in tasks && Str(t.id) !in seen
    ensures |r| <= |tasks|
    decreases |tasks|
  {
    if !resume || |tasks| == 0 then tasks
    else
      var prev := tasks[..|tasks| - 1];
      var last := tasks[|tasks| - 1];
      assert tasks == prev + [last];
      var kept := ApplyResume(prev, resume, seen);
      if Str(last.id) in seen then kept else kept + [last]
  }

  /** Filtering again with the same seen ids changes nothing. */
  lemma {:induction false} ApplyResumeIdempotent(tasks: seq<TaskRequest>, seen: set<Value>)
    ensures ApplyResume(ApplyResume(tasks, true, seen), true, seen) == ApplyResume(tasks, true, seen)
    decreases |tasks|
  {
    if |tasks| > 0 {
      var prev := tasks[..|tasks| - 1];
      var last := tasks[|tasks| - 1];
      ApplyResumeIdempotent(prev, seen);
      var kept := ApplyResume(prev, true, seen);
      if Str(last.id) !in seen {
        var k2 := kept + [last];
        assert k2[..|k2| - 1] == kept;
      }
    }
  }

  /** The outcome of `_run_tasks` before anything runs: an exit code of 2, or
      the tasks to run with the concurrency to use. */
  datatype Plan = Refused(code: int) | Execute(tasks: seq<TaskRequest>, concurrency: nat)

  /** `_run_tasks` guards. `seen` is the resume map's keys, loaded only when a
      progress path is given. */
  function PlanRun(tasks: seq<TaskRequest>, resume: bool, hasProgress: bool, seen: set<Value>,
                   concurrency: Option<int>): (p: Plan)
    ensures p.Refused? ==> p.code == 2
    ensures |tasks| == 0 ==> p.Refused?
    ensures resume && !hasProgress ==> p.Refused?
    ensures p.Execute? ==> |p.tasks| > 0 && p.concurrency > 0
    ensures p.Execute? ==> p.tasks == ApplyResume(tasks, resume, seen)
    ensures p.Execute? && concurrency.Some? && concurrency.value > 0 ==> p.concurrency == concurrency.value
    ensures p.Execute? && (concurrency.None? || concurrency.value <= 0) ==> p.concurrency == |p.tasks|
    ensures p.Refused? <==> |tasks| == 0 || (resume && !hasProgress) || |ApplyResume(tasks, resume, seen)| == 0
  {
    if |tasks| == 0 then Refused(2)
    else if resume && !hasProgress then Refused(2)
    else
      var kept := ApplyResume(tasks, resume, seen);
      if |kept| == 0 then Refused(2)
      else Execute(kept, if concurrency.Some? && concurrency.value > 0 then concurrency.value else |kept|)
  }
}
