/** The two earlier single-file collaborators kept in the history folder.
    Their task specification parser is the current one with a fixed table of
    three providers; version 0.2 also maps each executor outcome to a result
    and gathers a batch into a dictionary keyed by task id. The executor's
    outcome and the executable search are inputs. */
module CollaborateHistory {
  import opened Results
  import PyStr
  import Dicts
  import Providers
  import CollabUtils

  /** Both history versions know exactly these providers. */
  const HistoryProviders: seq<string> := ["codex", "claude", "gemini"]

  /** `parse_task_spec` of versions 0.2 and 0.3. */
  function ParseTaskSpec(spec: string, promptHash: int): (r: Result<CollabUtils.TaskRequest>)
    ensures r.Err? <==> ':' !in spec || PyStr.Strip(PyStr.SplitN(spec, ':', 2)[0]) !in HistoryProviders
    ensures r.Ok? ==> r.value.provider in HistoryProviders && r.value.timeout == CollabUtils.DefaultTimeout
  {
    CollabUtils.ParseTaskSpec(spec, HistoryProviders, promptHash)
  }

  /** A spec the history parser accepts parses the same way with the current
      provider table. */
  lemma HistoryAgreesWhenAccepted(spec: string, promptHash: int)
    ensures ParseTaskSpec(spec, promptHash).Ok? ==>
      CollabUtils.ParseTaskSpec(spec, Providers.ProviderNames(), promptHash) == ParseTaskSpec(spec, promptHash)
  {
    Providers.ProviderNamesExact();
  }

  /** Of the current providers, only `antigravity` is refused by the history
      parser: a well-formed spec naming any other provider is accepted by both. */
  lemma HistoryRefusesOnlyAntigravity(provider: string, prompt: string, id: string, promptHash: int)
    requires provider in Providers.ProviderNames()
    requires CollabUtils.PlainField(provider) && CollabUtils.PlainField(prompt)
    requires |id| > 0 ==> !PyStr.IsSpace(id[0]) && !PyStr.IsSpace(id[|id| - 1])
    ensures CollabUtils.ParseTaskSpec(provider + ":" + prompt + ":" + id, Providers.ProviderNames(), promptHash).Ok?
    ensures ParseTaskSpec(provider + ":" + prompt + ":" + id, promptHash).Err? <==> provider == "antigravity"
  {
    CollabUtils.TaskSpecRoundTrip(provider, prompt, id, Providers.ProviderNames(), promptHash);
    var s := provider + ":" + prompt + ":" + id;
    CollabUtils.SpecParts(provider, prompt, id);
    PyStr.StripPlain(provider);
    assert ParseTaskSpec(s, promptHash).Err? <==> provider !in HistoryProviders;
    Providers.ProviderNamesExact();
  }

  // ------------------------------------------------------------------ version 0.2 execution

  /** A result of version 0.2: no return code, timeout or cancel flags. */
  datatype RunResult = RunResult(id: string, provider: string, success: bool, output: string, error: string)

  /** What the process did, once started. */
  datatype Outcome =
    | Exited(returncode: int, stdout: string, stderr: string)
    | TimedOut
    | Crashed(message: string)

  const ProviderListText := "['codex', 'claude', 'gemini']"

  /** `run_ai_command_async` of version 0.2: an unknown provider or a missing
      executable fails at once; otherwise the outcome decides. */
  function RunCommand(task: CollabUtils.TaskRequest, executable: Option<string>, outcome: Outcome): (r: RunResult)
    ensures r.id == task.id && r.provider == task.provider
    ensures r.success <==> (task.provider in HistoryProviders && executable.Some? &&
      outcome.Exited? && outcome.returncode == 0)
    ensures task.provider !in HistoryProviders ==>
      r.error == "Provider '" + task.provider + "' not supported. Available: " + ProviderListText
    ensures r.success ==> r.error == "" && r.output == outcome.stdout
    ensures !r.success ==> |r.error| > 0 || (outcome.Exited? && |outcome.stderr| == 0)
  {
    if task.provider !in HistoryProviders then
      RunResult(task.id, task.provider, false, "",
                "Provider '" + task.provider + "' not supported. Available: " + ProviderListText)
    else if executable.None? then
      RunResult(task.id, task.provider, false, "", task.provider + " CLI not found on system.")
    else
      match outcome
      case Exited(code, out, err) =>
        RunResult(task.id, task.provider, code == 0, out, if |err| > 0 && code != 0 then err else "")
      case TimedOut =>
        RunResult(task.id, task.provider, false, "",
                  "Command timed out after " + PyStr.IntToString(task.timeout) + " seconds")
      case Crashed(m) => RunResult(task.id, task.provider, false, "", "Unexpected error: " + m)
  }

  /** An unsupported provider never runs: the result does not depend on the
      executable search or on anything the process would have done. */
  lemma UnsupportedProviderNeverRuns(task: CollabUtils.TaskRequest, e1: Option<string>, o1: Outcome,
                                     e2: Option<string>, o2: Outcome)
    requires task.provider !in HistoryProviders
    ensures RunCommand(task, e1, o1) == RunCommand(task, e2, o2)
    ensures !RunCommand(task, e1, o1).success
  {
  }

  /** What `asyncio.gather(..., return_exceptions=True)` hands back per task. */
  datatype Gathered = Returned(result: RunResult) | Raised(text: string)

  /** The entry `run_batch_async` stores for one task. */
  function EntryFor(task: CollabUtils.TaskRequest, g: Gathered): RunResult {
    match g
    case Returned(res) => res
    case Raised(t) => RunResult(task.id, task.provider, false, "", t)
  }

  /** `run_batch_async` of version 0.2: one entry per distinct task id, a later
      task of the same id overwriting an earlier one, and a raised exception
      becoming a failed result carrying its text. */
  function RunBatch(tasks: seq<CollabUtils.TaskRequest>, gathered: seq<Gathered>): (r: Dicts.Dict<string, RunResult>)
    requires |gathered| == |tasks|
    ensures forall id :: id in r.keys <==> exists i :: 0 <= i < |tasks| && tasks[i].id == id
  {
    var pairs := BatchPairs(tasks, gathered);
    Dicts.FromPairs(pairs)
  }

  /** The `(task id, entry)` pairs in task order. */
  function BatchPairs(tasks: seq<CollabUtils.TaskRequest>, gathered: seq<Gathered>): (pairs: seq<(string, RunResult)>)
    requires |gathered| == |tasks|
    ensures |pairs| == |tasks|
    ensures forall i :: 0 <= i < |tasks| ==> pairs[i] == (tasks[i].id, EntryFor(tasks[i], gathered[i]))
  {
    seq(|tasks|, i requires 0 <= i < |tasks| => (tasks[i].id, EntryFor(tasks[i], gathered[i])))
  }

  /** The entry of an id is the one of its last task. */
  lemma RunBatchLastWins(tasks: seq<CollabUtils.TaskRequest>, gathered: seq<Gathered>, i: nat)
    requires |gathered| == |tasks| && i < |tasks|
    requires forall j :: i < j < |tasks| ==> tasks[j].id != tasks[i].id
    ensures Dicts.Get(RunBatch(tasks, gathered), tasks[i].id) == Some(EntryFor(tasks[i], gathered[i]))
  {
    Dicts.FromPairsLastWins(BatchPairs(tasks, gathered), i);
  }

  /** `run_ai_command`'s single task always has the id `<provider>_0`, which a
      task specification can carry back unchanged. */
  function SingleTask(provider: string, prompt: string, contextDir: Option<string>, timeout: int): (t: CollabUtils.TaskRequest)
    ensures t.provider == provider && t.prompt == prompt && t.timeout == timeout
    ensures |t.id| == |provider| + 2 && t.id[..|provider|] == provider && PyStr.EndsWith(t.id, "_0")
  {
    var id := provider + "_0";
    assert id[|id| - 2..] == "_0";
    CollabUtils.TaskRequest(id, provider, prompt, contextDir, None, timeout)
  }
}
