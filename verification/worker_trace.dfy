/** How a swarm worker's own messages replay in the run manifest of their
    trace. The manifest seeds a request's row under the request's non-empty
    task id, else under `task-NNN` from the request's position in the trace;
    the worker names the task of its result after the request's task id only
    when that id starts with `task-`, else after a hash of the message id.
    The two names meet for `task-` prefixed ids, and otherwise only when the
    hash happens to give the request's position. */
module WorkerTrace {
  import opened Results
  import opened Json
  import PyStr
  import Bus
  import Swarm
  import Dicts
  import opened Manifest
  import TraceManifest

  // ------------------------------------------------------------------ task ids

  /** For a request that names its task, the result reaches the seeded row
      exactly when the name starts with `task-`. */
  lemma NamedTaskIdsMeetIff(req: Bus.Message, counter: nat, idHash: int)
    requires NonEmptyStr(req.payload, "task_id").Some?
    ensures Swarm.DeriveTaskId(req, idHash) == TraceManifest.SeedTaskId(req.payload, counter)
            <==> PyStr.StartsWith(NonEmptyStr(req.payload, "task_id").value, "task-")
  {
  }

  /** For a request without a task id, the result reaches the seeded row
      exactly when the hash of the message id leaves the request's position
      modulo 1000. */
  lemma UnnamedTaskIdsMeetIff(req: Bus.Message, counter: nat, idHash: int)
    requires GetStr(req.payload, "task_id").None?
    ensures Swarm.DeriveTaskId(req, idHash) == TraceManifest.SeedTaskId(req.payload, counter)
            <==> Swarm.Abs(idHash) % 1000 == counter
  {
    var hashed := PyStr.ZeroPad(Swarm.Abs(idHash) % 1000, 3);
    var seeded := PyStr.ZeroPad(counter, 3);
    assert Swarm.DeriveTaskId(req, idHash) == "task-" + hashed;
    assert TraceManifest.SeedTaskId(req.payload, counter) == "task-" + seeded;
    if "task-" + hashed == "task-" + seeded {
      assert hashed == ("task-" + hashed)[5..];
      assert seeded == ("task-" + seeded)[5..];
      PyStr.ParseZeroPad(Swarm.Abs(idHash) % 1000, 3);
      PyStr.ParseZeroPad(counter, 3);
    }
  }

  /** The task id an output report sends is the one the manifest reads. */
  lemma ReportTaskId(rep: Swarm.Report)
    requires |rep.taskId| > 0
    ensures NonEmptyStr(Swarm.ReportJson(rep), "task_id") == Some(rep.taskId)
  {
    var fields := Swarm.ReportJson(rep).fields;
    assert fields[0].0 == "run_id" && fields[1] == ("task_id", Str(rep.taskId));
    assert fields[1..][0] == fields[1];
    assert Lookup(fields[1..], "task_id") == Some(Str(rep.taskId));
    assert Lookup(fields, "task_id") == Lookup(fields[1..], "task_id");
  }

  // ------------------------------------------------------------------ one request, replayed

  /** A successful request replayed with the worker's acceptance and result:
      when the result names another task than the one the request seeded,
      the manifest lists two tasks and the request's own stays in progress,
      so the run never completes. */
  lemma MissedResultLeavesRunOpen(req: Bus.Message, accept: Bus.Message, result: Bus.Message,
                                  output: string, day: string, idHash: int)
    requires TraceManifest.IsRequest(req) && req.status == Bus.Done
    requires accept.msgType == "TASK_ACCEPT"
    requires result.msgType == "TASK_RESULT"
    requires result.payload == Swarm.ReportJson(Swarm.OutputReport(req, output, true, "", day, idHash))
    requires Swarm.DeriveTaskId(req, idHash) != TraceManifest.SeedTaskId(req.payload, 1)
    ensures |TraceManifest.TraceTasks([req, accept, result])| == 2
    ensures TraceManifest.TraceRunStatus(TraceManifest.TraceTasks([req, accept, result])) == RunInProgress
  {
    ReportTaskId(Swarm.OutputReport(req, output, true, "", day, idHash));
    MissedIdLeavesRunOpen(req, accept, result);
  }

  /** The same replay for any result whose task id is not the seeded one. */
  lemma MissedIdLeavesRunOpen(req: Bus.Message, accept: Bus.Message, result: Bus.Message)
    requires TraceManifest.IsRequest(req) && req.status == Bus.Done
    requires accept.msgType == "TASK_ACCEPT"
    requires result.msgType == "TASK_RESULT"
    requires NonEmptyStr(result.payload, "task_id").Some?
    requires NonEmptyStr(result.payload, "task_id").value != TraceManifest.SeedTaskId(req.payload, 1)
    ensures |TraceManifest.TraceTasks([req, accept, result])| == 2
    ensures TraceManifest.TraceRunStatus(TraceManifest.TraceTasks([req, accept, result])) == RunInProgress
  {
    var rows := [req, accept, result];
    var seeded := SeedThree(req, accept, result);
    var reported := NonEmptyStr(result.payload, "task_id").value;
    var st := TraceManifest.Seed(rows);
    var folded := FoldThree(st.tasks, st.requests, req, accept, result);
    assert folded.keys == [seeded, reported];
    TwoRowsInProgress(folded, seeded, reported);
    assert TraceManifest.TraceTasks(rows) == Dicts.Values(folded);
  }

  /** The partner case: when the result names the seeded task, the manifest
      lists that one task as successful and the run completes. */
  lemma MetResultCompletesRun(req: Bus.Message, accept: Bus.Message, result: Bus.Message,
                              output: string, day: string, idHash: int)
    requires TraceManifest.IsRequest(req) && req.status == Bus.Done
    requires accept.msgType == "TASK_ACCEPT"
    requires result.msgType == "TASK_RESULT"
    requires result.payload == Swarm.ReportJson(Swarm.OutputReport(req, output, true, "", day, idHash))
    requires Swarm.DeriveTaskId(req, idHash) == TraceManifest.SeedTaskId(req.payload, 1)
    ensures |TraceManifest.TraceTasks([req, accept, result])| == 1
    ensures TraceManifest.TraceRunStatus(TraceManifest.TraceTasks([req, accept, result])) == RunCompleted
  {
    ReportTaskId(Swarm.OutputReport(req, output, true, "", day, idHash));
    MetIdCompletesRun(req, accept, result);
  }

  lemma MetIdCompletesRun(req: Bus.Message, accept: Bus.Message, result: Bus.Message)
    requires TraceManifest.IsRequest(req) && req.status == Bus.Done
    requires accept.msgType == "TASK_ACCEPT"
    requires result.msgType == "TASK_RESULT"
    requires NonEmptyStr(result.payload, "task_id") == Some(TraceManifest.SeedTaskId(req.payload, 1))
    ensures |TraceManifest.TraceTasks([req, accept, result])| == 1
    ensures TraceManifest.TraceRunStatus(TraceManifest.TraceTasks([req, accept, result])) == RunCompleted
  {
    var rows := [req, accept, result];
    var seeded := SeedThree(req, accept, result);
    var st := TraceManifest.Seed(rows);
    var folded := FoldThreeSame(st.tasks, st.requests, req, accept, result);
    OneRowCompleted(folded, seeded);
    assert TraceManifest.TraceTasks(rows) == Dicts.Values(folded);
  }

  /** One successful row completes the run. */
  lemma OneRowCompleted(d: Dicts.Dict<string, TaskRow>, a: string)
    requires d.keys == [a]
    requires Dicts.Get(d, a).Some? && Dicts.Get(d, a).value.status == Success
    ensures |Dicts.Values(d)| == 1
    ensures TraceManifest.TraceRunStatus(Dicts.Values(d)) == RunCompleted
  {
    var vs := Dicts.Values(d);
    assert vs[0].status == Success;
    assert AllSuccess(vs);
  }

  /** Two rows, the first in progress and the second successful, list two
      tasks and keep the run in progress. */
  lemma TwoRowsInProgress(d: Dicts.Dict<string, TaskRow>, a: string, b: string)
    requires d.keys == [a, b]
    requires Dicts.Get(d, a).Some? && Dicts.Get(d, a).value.status == InProgress
    requires Dicts.Get(d, b).Some? && Dicts.Get(d, b).value.status == Success
    ensures |Dicts.Values(d)| == 2
    ensures TraceManifest.TraceRunStatus(Dicts.Values(d)) == RunInProgress
  {
    var vs := Dicts.Values(d);
    assert vs[0].status == InProgress && vs[1].status == Success;
    InProgressBesideSuccess(vs);
  }

  /** A task in progress next to a successful one keeps the run in progress. */
  lemma InProgressBesideSuccess(vs: seq<TaskRow>)
    requires |vs| == 2 && vs[0].status == InProgress && vs[1].status == Success
    ensures TraceManifest.TraceRunStatus(vs) == RunInProgress
  {
    assert !Failing(vs[0].status) && !Failing(vs[1].status);
  }

  /** The seeding pass over the three messages: one row, under the seeded id,
      in progress since the request is done. */
  lemma SeedThree(req: Bus.Message, accept: Bus.Message, result: Bus.Message) returns (seeded: string)
    requires TraceManifest.IsRequest(req) && req.status == Bus.Done
    requires accept.msgType == "TASK_ACCEPT" && result.msgType == "TASK_RESULT"
    ensures seeded == TraceManifest.SeedTaskId(req.payload, 1)
    ensures TraceManifest.Seed([req, accept, result]).tasks.keys == [seeded]
    ensures Dicts.Get(TraceManifest.Seed([req, accept, result]).tasks, seeded).value.status == InProgress
  {
    seeded := TraceManifest.SeedTaskId(req.payload, 1);
    var rows := [req, accept, result];
    assert rows[..2][..1] == [req];
    assert rows[..2] == [req, accept];
    assert [req][..0] == [];
    var s1 := TraceManifest.Seed([req]);
    assert s1.tasks.keys == [seeded];
    assert TraceManifest.Seed(rows[..2]) == s1;
    assert TraceManifest.Seed(rows) == s1;
  }

  /** The folding pass over the three messages: the acceptance changes
      nothing, and a result naming another task adds a second row. */
  lemma FoldThree(tasks: Dicts.Dict<string, TaskRow>, requests: Dicts.Dict<string, string>,
                  req: Bus.Message, accept: Bus.Message, result: Bus.Message) returns (folded: Dicts.Dict<string, TaskRow>)
    requires TraceManifest.IsRequest(req) && accept.msgType == "TASK_ACCEPT" && result.msgType == "TASK_RESULT"
    requires |tasks.keys| == 1
    requires NonEmptyStr(result.payload, "task_id").Some?
    requires NonEmptyStr(result.payload, "task_id").value != tasks.keys[0]
    ensures folded == TraceManifest.FoldEvents(tasks, requests, [req, accept, result])
    ensures folded.keys == tasks.keys + [NonEmptyStr(result.payload, "task_id").value]
    ensures Dicts.Get(folded, tasks.keys[0]) == Dicts.Get(tasks, tasks.keys[0])
    ensures Dicts.Get(folded, NonEmptyStr(result.payload, "task_id").value).value.status == Success
  {
    var rows := [req, accept, result];
    assert rows[..2] == [req, accept];
    assert rows[..2][..1] == [req];
    assert [req][..0] == [];
    assert TraceManifest.FoldEvents(tasks, requests, [req]) == tasks;
    assert TraceManifest.FoldEvents(tasks, requests, rows[..2]) == tasks;
    var t := NonEmptyStr(result.payload, "task_id").value;
    assert t !in tasks.keys;
    folded := TraceManifest.FoldEvents(tasks, requests, rows);
  }

  /** The folding pass over the three messages when the result names the
      seeded task: no new row, and that one succeeds. */
  lemma FoldThreeSame(tasks: Dicts.Dict<string, TaskRow>, requests: Dicts.Dict<string, string>,
                      req: Bus.Message, accept: Bus.Message, result: Bus.Message) returns (folded: Dicts.Dict<string, TaskRow>)
    requires TraceManifest.IsRequest(req) && accept.msgType == "TASK_ACCEPT" && result.msgType == "TASK_RESULT"
    requires |tasks.keys| == 1
    requires NonEmptyStr(result.payload, "task_id") == Some(tasks.keys[0])
    ensures folded == TraceManifest.FoldEvents(tasks, requests, [req, accept, result])
    ensures folded.keys == tasks.keys
    ensures Dicts.Get(folded, tasks.keys[0]).Some? && Dicts.Get(folded, tasks.keys[0]).value.status == Success
  {
    var rows := [req, accept, result];
    assert rows[..2] == [req, accept];
    assert rows[..2][..1] == [req];
    assert [req][..0] == [];
    assert TraceManifest.FoldEvents(tasks, requests, [req]) == tasks;
    assert TraceManifest.FoldEvents(tasks, requests, rows[..2]) == tasks;
    folded := TraceManifest.FoldEvents(tasks, requests, rows);
  }
}
