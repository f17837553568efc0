/** The run manifest a swarm worker rebuilds for a trace after every message it
    handles: a replay of the trace's messages in creation order. Requests seed
    the task rows; results, errors and updates then move them along. The run
    id's date and digest, and the two hashes, are inputs. */
module TraceManifest {
  import opened Results
  import opened Json
  import PyStr
  import Dicts
  import Bus
  import opened Manifest

  // ------------------------------------------------------------------ seeding

  const RoleAllowlist: set<string> := {"planner", "worker", "reviewer", "merge_agent"}

  predicate IsRequest(m: Bus.Message) {
    m.msgType == "TASK_REQUEST"
  }

  /** The number of requests among `rows`. */
  function RequestCount(rows: seq<Bus.Message>): (n: nat)
    ensures n <= |rows|
    decreases |rows|
  {
    if |rows| == 0 then 0
    else RequestCount(rows[..|rows| - 1]) + (if IsRequest(rows[|rows| - 1]) then 1 else 0)
  }

  /** The status a request's row starts in, from the request's own bus status. */
  function SeedStatus(s: Bus.Status): (r: TaskStatus)
    ensures r == Pending || r == InProgress || r == Failure
    ensures r == InProgress <==> s == Bus.Leased || s == Bus.Done
    ensures r == Failure <==> s == Bus.Dead
  {
    if s == Bus.Leased then InProgress
    else if s == Bus.Dead then Failure
    else if s == Bus.Done then InProgress
    else Pending
  }

  /** The payload's non-empty task id, else `task-NNN` for the `counter`-th request. */
  function SeedTaskId(payload: Value, counter: nat): (r: string)
    ensures |r| > 0
  {
    match NonEmptyStr(payload, "task_id")
    case Some(t) => t
    case None => "task-" + PyStr.ZeroPad(counter, 3)
  }

  function KeptRole(payload: Value): (r: Option<string>)
    ensures r.Some? ==> r.value in RoleAllowlist && GetStr(payload, "role") == r
  {
    match GetStr(payload, "role")
    case Some(role) => if role in RoleAllowlist then Some(role) else None
    case None => None
  }

  function KeptDependsOn(payload: Value): (r: Option<seq<string>>)
    ensures r.Some? <==> Get(payload, "depends_on").Some? && IsStringList(Get(payload, "depends_on").value)
  {
    match Get(payload, "depends_on")
    case Some(v) => if IsStringList(v) then Some(Strings(v.items)) else None
    case None => None
  }

  function SeedRow(m: Bus.Message, taskId: string): TaskRow {
    TaskRow(taskId, m.toAgent, SeedStatus(m.status), Str("S-001"), KeptRole(m.payload), KeptDependsOn(m.payload))
  }

  /** The seeding pass: the request counter, the task rows by task id, and the
      task id of each request by message id. */
  datatype Seeded = Seeded(counter: nat, tasks: Dicts.Dict<string, TaskRow>, requests: Dicts.Dict<string, string>)

  /** Every indexed request points at a seeded task. */
  predicate Indexed(tasks: Dicts.Dict<string, TaskRow>, requests: Dicts.Dict<string, string>) {
    forall mid :: mid in requests.keys ==> requests.entries[mid] in tasks.keys
  }

  function SeedStep(st: Seeded, m: Bus.Message): Seeded {
    if !IsRequest(m) then st
    else
      var c := st.counter + 1;
      var t := SeedTaskId(m.payload, c);
      Seeded(c, Dicts.Put(st.tasks, t, SeedRow(m, t)), Dicts.Put(st.requests, m.id, t))
  }

  /** The first pass over the trace. */
  function Seed(rows: seq<Bus.Message>): (r: Seeded)
    ensures r.counter == RequestCount(rows)
    ensures |r.tasks.keys| <= r.counter
    ensures Indexed(r.tasks, r.requests)
    decreases |rows|
  {
    if |rows| == 0 then Seeded(0, Dicts.Empty(), Dicts.Empty())
    else
      var prev := Seed(rows[..|rows| - 1]);
      var r := SeedStep(prev, rows[|rows| - 1]);
      assert Indexed(r.tasks, r.requests) by {
        if IsRequest(rows[|rows| - 1]) {
          forall mid | mid in r.requests.keys ensures r.requests.entries[mid] in r.tasks.keys {
            assert Dicts.Get(r.requests, mid).Some?;
            if mid != rows[|rows| - 1].id {
              assert Dicts.Get(r.requests, mid) == Dicts.Get(prev.requests, mid);
              assert Dicts.Get(r.tasks, prev.requests.entries[mid]).Some?;
            }
          }
        }
      }
      r
  }

  /** The task id each row seeds, in row order: nothing for a non-request. */
  function SeededIds(rows: seq<Bus.Message>): (r: seq<Option<string>>)
    ensures |r| == |rows|
    decreases |rows|
  {
    if |rows| == 0 then []
    else
      var last := rows[|rows| - 1];
      SeededIds(rows[..|rows| - 1]) + [if IsRequest(last) then Some(SeedTaskId(last.payload, RequestCount(rows))) else None]
  }

  /** Request `i` seeds the id its payload names, else the one its position
      among the requests gives. */
  lemma {:induction false} SeededIdAt(rows: seq<Bus.Message>, i: nat)
    requires i < |rows|
    ensures SeededIds(rows)[i] ==
      if IsRequest(rows[i]) then Some(SeedTaskId(rows[i].payload, RequestCount(rows[..i + 1]))) else None
    decreases |rows|
  {
    if i < |rows| - 1 {
      SeededIdAt(rows[..|rows| - 1], i);
      assert rows[..|rows| - 1][..i + 1] == rows[..i + 1];
    } else {
      assert rows[..i + 1] == rows;
    }
  }

  lemma SeedStepKeys(st: Seeded, m: Bus.Message)
    ensures forall t :: t in SeedStep(st, m).tasks.keys <==>
      (t in st.tasks.keys || (IsRequest(m) && t == SeedTaskId(m.payload, st.counter + 1)))
  {
  }

  /** The seeded task ids are exactly the ids the requests resolve to. */
  lemma {:induction false} SeedKeys(rows: seq<Bus.Message>)
    ensures forall t :: t in Seed(rows).tasks.keys <==> Some(t) in SeededIds(rows)
    decreases |rows|
  {
    if |rows| > 0 {
      var n := |rows|;
      var prev := rows[..n - 1];
      SeedKeys(prev);
      var before := Seed(prev);
      assert Seed(rows) == SeedStep(before, rows[n - 1]);
      SeedStepKeys(before, rows[n - 1]);
      assert RequestCount(rows) == before.counter + (if IsRequest(rows[n - 1]) then 1 else 0);
    }
  }

  /** Every request's message id is indexed. */
  lemma {:induction false} SeedIndexesRequests(rows: seq<Bus.Message>, i: nat)
    requires i < |rows| && IsRequest(rows[i])
    ensures rows[i].id in Seed(rows).requests.keys
    decreases |rows|
  {
    if i < |rows| - 1 {
      SeedIndexesRequests(rows[..|rows| - 1], i);
    }
  }

  // ------------------------------------------------------------------ folding events

  /** The row a result or error creates when no request seeded its task. */
  function NewRow(t: string, m: Bus.Message): TaskRow {
    TaskRow(t, m.fromAgent, Pending, Str("S-001"), None, None)
  }

  /** `setdefault` followed by setting status and exit code. */
  function Settle(tasks: Dicts.Dict<string, TaskRow>, t: string, m: Bus.Message, status: TaskStatus, exitCode: Value)
    : (r: Dicts.Dict<string, TaskRow>)
    ensures r.keys == if t in tasks.keys then tasks.keys else tasks.keys + [t]
    ensures Dicts.Get(r, t).Some? && Dicts.Get(r, t).value.status == status && Dicts.Get(r, t).value.exitCode == exitCode
    ensures Dicts.Get(r, t).value.taskId == (if t in tasks.keys then tasks.entries[t].taskId else t)
    ensures forall k :: k != t ==> Dicts.Get(r, k) == Dicts.Get(tasks, k)
  {
    var row := if t in tasks.entries then tasks.entries[t] else NewRow(t, m);
    Dicts.Put(tasks, t, row.(status := status, exitCode := exitCode))
  }

  /** The task a TASK_ERROR settles: its request's task, else its own non-empty task id. */
  function ErrorTarget(requests: Dicts.Dict<string, string>, payload: Value): (r: Option<string>)
    ensures r.Some? ==> |r.value| > 0
  {
    var viaRequest := match GetStr(payload, "message_id")
      case Some(mid) => Dicts.Get(requests, mid)
      case None => None;
    match viaRequest
    case Some(t) => if |t| > 0 then Some(t) else NonEmptyStr(payload, "task_id")
    case None => NonEmptyStr(payload, "task_id")
  }

  /** The task a TASK_UPDATE moves: only one its request already indexed. */
  function UpdateTarget(requests: Dicts.Dict<string, string>, payload: Value): Option<string> {
    match GetStr(payload, "message_id")
    case None => None
    case Some(mid) =>
      match Dicts.Get(requests, mid)
      case Some(t) => if |t| > 0 then Some(t) else None
      case None => None
  }

  /** One message of the second pass. */
  function ApplyEvent(tasks: Dicts.Dict<string, TaskRow>, requests: Dicts.Dict<string, string>, m: Bus.Message)
    : (r: Dicts.Dict<string, TaskRow>)
    ensures m.msgType == "TASK_RESULT" && NonEmptyStr(m.payload, "task_id").Some? ==>
      var t := NonEmptyStr(m.payload, "task_id").value;
      && Dicts.Get(r, t).Some? && Dicts.Get(r, t).value.status == Success
      && Dicts.Get(r, t).value.exitCode == GetOr(m.payload, "exit_code", Str("E-000"))
      && (forall k :: k != t ==> Dicts.Get(r, k) == Dicts.Get(tasks, k))
    ensures m.msgType == "TASK_ERROR" && ErrorTarget(requests, m.payload).Some? ==>
      var t := ErrorTarget(requests, m.payload).value;
      && Dicts.Get(r, t).Some? && Dicts.Get(r, t).value.status == Failure
      && Dicts.Get(r, t).value.exitCode == Str("S-001")
      && (forall k :: k != t ==> Dicts.Get(r, k) == Dicts.Get(tasks, k))
    ensures m.msgType == "TASK_UPDATE" ==> r.keys == tasks.keys
    ensures m.msgType == "TASK_UPDATE" && UpdateTarget(requests, m.payload).Some?
              && UpdateTarget(requests, m.payload).value in tasks.keys ==>
      var t := UpdateTarget(requests, m.payload).value;
      && Dicts.Get(r, t) == Some(tasks.entries[t].(status := InProgress))
      && (forall k :: k != t ==> Dicts.Get(r, k) == Dicts.Get(tasks, k))
    ensures (m.msgType !in {"TASK_RESULT", "TASK_ERROR", "TASK_UPDATE"}
             || (m.msgType == "TASK_RESULT" && NonEmptyStr(m.payload, "task_id").None?)
             || (m.msgType == "TASK_ERROR" && ErrorTarget(requests, m.payload).None?)
             || (m.msgType == "TASK_UPDATE" && (UpdateTarget(requests, m.payload).None?
                                               || UpdateTarget(requests, m.payload).value !in tasks.keys)))
            ==> r == tasks
    ensures forall k :: k in tasks.keys ==> k in r.keys
  {
    if m.msgType == "TASK_RESULT" then
      match NonEmptyStr(m.payload, "task_id")
      case None => tasks
      case Some(t) => Settle(tasks, t, m, Success, GetOr(m.payload, "exit_code", Str("E-000")))
    else if m.msgType == "TASK_ERROR" then
      match ErrorTarget(requests, m.payload)
      case None => tasks
      case Some(t) => Settle(tasks, t, m, Failure, Str("S-001"))
    else if m.msgType == "TASK_UPDATE" then
      match UpdateTarget(requests, m.payload)
      case None => tasks
      case Some(t) =>
        if t in tasks.entries then Dicts.Put(tasks, t, tasks.entries[t].(status := InProgress)) else tasks
    else tasks
  }

  /** The second pass: every message of the trace in order. */
  function FoldEvents(tasks: Dicts.Dict<string, TaskRow>, requests: Dicts.Dict<string, string>, rows: seq<Bus.Message>)
    : (r: Dicts.Dict<string, TaskRow>)
    decreases |rows|
  {
    if |rows| == 0 then tasks
    else ApplyEvent(FoldEvents(tasks, requests, rows[..|rows| - 1]), requests, rows[|rows| - 1])
  }

  /** Folding never drops a task row: every request keeps its row. */
  lemma {:induction false} FoldKeepsRows(tasks: Dicts.Dict<string, TaskRow>, requests: Dicts.Dict<string, string>,
                                         rows: seq<Bus.Message>)
    ensures forall k :: k in tasks.keys ==> k in FoldEvents(tasks, requests, rows).keys
    decreases |rows|
  {
    if |rows| > 0 {
      FoldKeepsRows(tasks, requests, rows[..|rows| - 1]);
    }
  }

  /** A row the fold adds comes from a result or an error naming it; updates
      and other messages never add one. */
  lemma {:induction false} FoldAddsOnlyNamed(tasks: Dicts.Dict<string, TaskRow>, requests: Dicts.Dict<string, string>,
                                             rows: seq<Bus.Message>, k: string)
    requires k in FoldEvents(tasks, requests, rows).keys && k !in tasks.keys
    ensures exists i :: (0 <= i < |rows| && (
      || (rows[i].msgType == "TASK_RESULT" && NonEmptyStr(rows[i].payload, "task_id") == Some(k))
      || (rows[i].msgType == "TASK_ERROR" && ErrorTarget(requests, rows[i].payload) == Some(k))))
    decreases |rows|
  {
    var n := |rows|;
    var prev := FoldEvents(tasks, requests, rows[..n - 1]);
    if k in prev.keys {
      FoldAddsOnlyNamed(tasks, requests, rows[..n - 1], k);
      var i :| 0 <= i < n - 1 && (
        || (rows[..n - 1][i].msgType == "TASK_RESULT" && NonEmptyStr(rows[..n - 1][i].payload, "task_id") == Some(k))
        || (rows[..n - 1][i].msgType == "TASK_ERROR" && ErrorTarget(requests, rows[..n - 1][i].payload) == Some(k)));
      assert rows[..n - 1][i] == rows[i];
    } else {
      var m := rows[n - 1];
      assert Dicts.Get(prev, k).None?;
      if m.msgType == "TASK_RESULT" && NonEmptyStr(m.payload, "task_id").Some? {
        assert NonEmptyStr(m.payload, "task_id") == Some(k);
      } else if m.msgType == "TASK_ERROR" && ErrorTarget(requests, m.payload).Some? {
        assert ErrorTarget(requests, m.payload) == Some(k);
      }
    }
  }

  /** The last message settling a task decides its status: a result leaves it
      successful and an error failed, whatever came before. */
  lemma LastResultWins(tasks: Dicts.Dict<string, TaskRow>, requests: Dicts.Dict<string, string>,
                       rows: seq<Bus.Message>, m: Bus.Message)
    requires m.msgType == "TASK_RESULT" && NonEmptyStr(m.payload, "task_id").Some?
    ensures var r := FoldEvents(tasks, requests, rows + [m]);
      var t := NonEmptyStr(m.payload, "task_id").value;
      Dicts.Get(r, t).Some? && Dicts.Get(r, t).value.status == Success
  {
    assert (rows + [m])[..|rows|] == rows;
  }

  // ------------------------------------------------------------------ run status and metrics

  /** Completed when there are rows and all succeeded; else failed when any row
      failed, timed out or is blocked; else in progress when any row is; else pending. */
  function TraceRunStatus(rows: seq<TaskRow>): (r: RunState)
    ensures r == RunCompleted <==> |rows| > 0 && AllSuccess(rows)
    ensures r == RunFailed <==> !(|rows| > 0 && AllSuccess(rows)) && AnyFailing(rows)
    ensures r == RunInProgress <==> !(|rows| > 0 && AllSuccess(rows)) && !AnyFailing(rows) && AnyInProgress(rows)
    ensures r == RunPending <==> !(|rows| > 0 && AllSuccess(rows)) && !AnyFailing(rows) && !AnyInProgress(rows)
  {
    if |rows| > 0 && AllSuccess(rows) then RunCompleted
    else if AnyFailing(rows) then RunFailed
    else if AnyInProgress(rows) then RunInProgress
    else RunPending
  }

  /** The status agrees with the metrics computed from the same rows: completed
      exactly when every task succeeded, and failed only with a failure counted. */
  lemma StatusAgreesWithCounts(rows: seq<TaskRow>)
    ensures TraceRunStatus(rows) == RunCompleted <==> |rows| > 0 && CountSuccess(rows) == |rows|
    ensures TraceRunStatus(rows) == RunFailed ==> CountFailing(rows) > 0 && CountSuccess(rows) < |rows|
    ensures CountFailing(rows) > 0 ==> TraceRunStatus(rows) == RunFailed
  {
    if CountFailing(rows) > 0 {
      var i :| 0 <= i < |rows| && Failing(rows[i].status);
      assert rows[i].status != Success;
    }
  }

  /** The TASK_UPDATE messages that report a retry. */
  predicate IsRetryUpdate(m: Bus.Message) {
    m.msgType == "TASK_UPDATE" && m.payload.Object? && GetOrNull(m.payload, "status") == Str("retry")
  }

  function RetryTotal(rows: seq<Bus.Message>): (n: nat)
    ensures n <= |rows|
    ensures n == 0 <==> forall i :: 0 <= i < |rows| ==> !IsRetryUpdate(rows[i])
    decreases |rows|
  {
    if |rows| == 0 then 0
    else
      var rest := RetryTotal(rows[1..]);
      assert forall i :: 1 <= i < |rows| ==> rows[i] == rows[1..][i - 1];
      (if IsRetryUpdate(rows[0]) then 1 else 0) + rest
  }

  /** Retries are counted per message: appending one retry update adds one. */
  lemma {:induction false} RetryTotalAppend(rows: seq<Bus.Message>, m: Bus.Message)
    ensures RetryTotal(rows + [m]) == RetryTotal(rows) + (if IsRetryUpdate(m) then 1 else 0)
    decreases |rows|
  {
    if |rows| > 0 {
      assert (rows + [m])[1..] == rows[1..] + [m];
      RetryTotalAppend(rows[1..], m);
    }
  }

  /** The earliest creation time. */
  function MinCreated(rows: seq<Bus.Message>): (r: int)
    requires |rows| > 0
    ensures exists i :: 0 <= i < |rows| && rows[i].createdAt == r
    ensures forall i :: 0 <= i < |rows| ==> r <= rows[i].createdAt
  {
    if |rows| == 1 then rows[0].createdAt
    else
      var rest := MinCreated(rows[1..]);
      assert forall i :: 1 <= i < |rows| ==> rows[i] == rows[1..][i - 1];
      if rows[0].createdAt <= rest then rows[0].createdAt else rest
  }

  /** The latest update time. */
  function MaxUpdated(rows: seq<Bus.Message>): (r: int)
    requires |rows| > 0
    ensures exists i :: 0 <= i < |rows| && rows[i].updatedAt == r
    ensures forall i :: 0 <= i < |rows| ==> rows[i].updatedAt <= r
  {
    if |rows| == 1 then rows[0].updatedAt
    else
      var rest := MaxUpdated(rows[1..]);
      assert forall i :: 1 <= i < |rows| ==> rows[i] == rows[1..][i - 1];
      if rows[0].updatedAt >= rest then rows[0].updatedAt else rest
  }

  /** The position of the first row whose payload carries a `run-` prefixed run id. */
  function FirstRunIdRow(rows: seq<Bus.Message>): (r: Option<nat>)
    ensures r.Some? ==> (r.value < |rows| && RunIdOf(rows[r.value]).Some? &&
      forall j :: 0 <= j < r.value ==> RunIdOf(rows[j]).None?)
    ensures r.None? ==> forall i :: 0 <= i < |rows| ==> RunIdOf(rows[i]).None?
    decreases |rows|
  {
    if |rows| == 0 then None
    else if RunIdOf(rows[0]).Some? then Some(0)
    else
      var rest := FirstRunIdRow(rows[1..]);
      assert forall i :: 1 <= i < |rows| ==> rows[i] == rows[1..][i - 1];
      if rest.None? then None else Some(rest.value + 1)
  }

  /** `_trace_run_id`: the first `run-` prefixed payload run id of the trace,
      else `run-<day>-<digest>`. */
  function TraceRunId(rows: seq<Bus.Message>, day: string, digest: string): (r: string)
    ensures PyStr.StartsWith(r, "run-")
    ensures (exists i :: 0 <= i < |rows| && RunIdOf(rows[i]).Some?) ==>
      exists i :: 0 <= i < |rows| && RunIdOf(rows[i]) == Some(r)
              && forall j :: 0 <= j < i ==> RunIdOf(rows[j]).None?
    ensures (forall i :: 0 <= i < |rows| ==> RunIdOf(rows[i]).None?) ==> r == "run-" + day + "-" + digest
  {
    match FirstRunIdRow(rows)
    case Some(i) => RunIdOf(rows[i]).value
    case None =>
      var r := "run-" + day + "-" + digest;
      assert r[..4] == "run-";
      r
  }

  /** A message payload's run id, when it is a `run-` prefixed string. */
  function RunIdOf(m: Bus.Message): (r: Option<string>)
    ensures r.Some? ==> PyStr.StartsWith(r.value, "run-")
  {
    match GetStr(m.payload, "run_id")
    case Some(x) => if PyStr.StartsWith(x, "run-") then Some(x) else None
    case None => None
  }

  /** The task rows after both passes, in first-seen order. */
  function TraceTasks(rows: seq<Bus.Message>): seq<TaskRow> {
    var seeded := Seed(rows);
    Dicts.Values(FoldEvents(seeded.tasks, seeded.requests, rows))
  }

  /** `_record_trace_manifest` without the file write: nothing for an empty
      trace, else the replayed manifest. */
  function RecordTraceManifest(rows: seq<Bus.Message>, day: string, digest: string,
                               configHash: string, rulesHash: string): (r: Option<RunManifest>)
    ensures r.None? <==> |rows| == 0
    ensures r.Some? ==>
      var m := r.value;
      && m.tasks == TraceTasks(rows)
      && m.status == TraceRunStatus(m.tasks)
      && m.metrics.totalTasks == |m.tasks|
      && m.metrics.succeeded + m.metrics.failed <= m.metrics.totalTasks
      && m.metrics.durationSeconds >= 0
      && m.metrics.retryTotal == RetryTotal(rows)
      && m.metrics.totalTokens == 0 && m.metrics.conflictCount == 0
      && (m.completedAt.Some? <==> m.status == RunCompleted || m.status == RunFailed)
      && (forall i :: 0 <= i < |rows| ==> m.createdAt <= rows[i].createdAt)
      && PyStr.StartsWith(m.runId, "run-")
  {
    if |rows| == 0 then None
    else
      var tasks := TraceTasks(rows);
      var status := TraceRunStatus(tasks);
      var created := MinCreated(rows);
      var updated := MaxUpdated(rows);
      CountsBounded(tasks);
      Some(RunManifest(
        TraceRunId(rows, day, digest), created,
        if status == RunCompleted || status == RunFailed then Some(updated) else None,
        status, tasks, configHash, rulesHash,
        Metrics(|tasks|, CountSuccess(tasks), CountFailing(tasks), if updated - created > 0 then updated - created else 0,
                0, RetryTotal(rows), 0)))
  }

  /** Every request of the trace has a row in the manifest, under the id it seeded. */
  lemma EveryRequestHasRow(rows: seq<Bus.Message>, i: nat)
    requires i < |rows| && IsRequest(rows[i])
    ensures exists k :: (0 <= k < |TraceTasks(rows)| &&
      TraceTasks(rows)[k].taskId == SeedTaskId(rows[i].payload, RequestCount(rows[..i + 1])))
  {
    var seeded := Seed(rows);
    var t := SeedTaskId(rows[i].payload, RequestCount(rows[..i + 1]));
    SeededIdAt(rows, i);
    SeedKeys(rows);
    assert t in seeded.tasks.keys;
    FoldKeepsRows(seeded.tasks, seeded.requests, rows);
    var folded := FoldEvents(seeded.tasks, seeded.requests, rows);
    assert t in folded.keys;
    var k :| 0 <= k < |folded.keys| && folded.keys[k] == t;
    SeedKeyedById(rows);
    FoldKeyedById(seeded.tasks, seeded.requests, rows);
    ValuesKeyedById(folded);
    assert Dicts.Values(folded)[k].taskId == t;
    assert TraceTasks(rows) == Dicts.Values(folded);
  }

  /** Rows are stored under their own task id, before and after folding. */
  predicate KeyedById(tasks: Dicts.Dict<string, TaskRow>) {
    forall k :: k in tasks.keys ==> tasks.entries[k].taskId == k
  }

  lemma {:induction false} SeedKeyedById(rows: seq<Bus.Message>)
    ensures KeyedById(Seed(rows).tasks)
    decreases |rows|
  {
    if |rows| > 0 {
      SeedKeyedById(rows[..|rows| - 1]);
      var prev := Seed(rows[..|rows| - 1]);
      var r := Seed(rows);
      forall k | k in r.tasks.keys ensures r.tasks.entries[k].taskId == k {
        assert Dicts.Get(r.tasks, k).Some?;
        if IsRequest(rows[|rows| - 1]) && k != SeedTaskId(rows[|rows| - 1].payload, prev.counter + 1) {
          assert Dicts.Get(r.tasks, k) == Dicts.Get(prev.tasks, k);
        }
      }
    }
  }

  lemma {:induction false} FoldKeyedById(tasks: Dicts.Dict<string, TaskRow>, requests: Dicts.Dict<string, string>,
                                         rows: seq<Bus.Message>)
    requires KeyedById(tasks)
    ensures KeyedById(FoldEvents(tasks, requests, rows))
    decreases |rows|
  {
    if |rows| > 0 {
      FoldKeyedById(tasks, requests, rows[..|rows| - 1]);
      var prev := FoldEvents(tasks, requests, rows[..|rows| - 1]);
      var r := FoldEvents(tasks, requests, rows);
      forall k | k in r.keys ensures r.entries[k].taskId == k {
        assert Dicts.Get(r, k).Some?;
        if Dicts.Get(r, k) != Dicts.Get(prev, k) {
          assert k in prev.keys ==> prev.entries[k].taskId == k;
        }
      }
    }
  }

  lemma ValuesKeyedById(d: Dicts.Dict<string, TaskRow>)
    requires KeyedById(d)
    ensures forall k :: 0 <= k < |d.keys| ==> Dicts.Values(d)[k].taskId == d.keys[k]
  {
    forall k | 0 <= k < |d.keys| ensures Dicts.Values(d)[k].taskId == d.keys[k] {
      assert Dicts.Get(d, d.keys[k]) == Some(Dicts.Values(d)[k]);
    }
  }
}
