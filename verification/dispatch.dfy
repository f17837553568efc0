/** The ticket-to-collaborator bridge: a ticket's front matter decides
    whether it is dispatched at all, in which mode, and with which
    `codex:<title>:<id>` task specification; the collaborator's answer (or its
    absence) becomes the record written next to the ticket. The front matter
    is an input (already read into a map), and so are the search for the
    collaborator runtime, the process the bridge starts, and the clock. */
module Dispatch {
  import opened Results
  import opened Json
  import PyStr
  import TicketValidate
  import CollabUtils
  import Providers

  type FrontMatter = map<string, string>

  /** `fm.get(key, default)` */
  function FmGet(fm: FrontMatter, key: string, default: string): string {
    if key in fm then fm[key] else default
  }

  /** `fm.get(key) or default`: a missing or empty value gives the default. */
  function FmOr(fm: FrontMatter, key: string, default: string): (r: string)
    ensures |default| > 0 ==> |r| > 0
  {
    if key in fm && |fm[key]| > 0 then fm[key] else default
  }

  // ------------------------------------------------------------------ _parse_list

  /** `str(item).strip()` for each item, in order. */
  function Texts(items: seq<Value>): (ts: seq<string>)
    ensures |ts| == |items| && forall i :: 0 <= i < |items| ==> ts[i] == PyStr.Strip(ToStr(items[i]))
  {
    seq(|items|, i requires 0 <= i < |items| => PyStr.Strip(ToStr(items[i])))
  }

  /** Each text is already stripped. */
  lemma TextsStripped(items: seq<Value>)
    ensures forall t :: t in Texts(items) ==> PyStr.Strip(t) == t
  {
    forall t | t in Texts(items) ensures PyStr.Strip(t) == t {
      var i :| 0 <= i < |items| && Texts(items)[i] == t;
      PyStr.StripIdempotent(ToStr(items[i]));
    }
  }

  /** The non-empty texts, in order. */
  function NonBlank(ts: seq<string>): (r: seq<string>)
    ensures |r| <= |ts|
    ensures forall x :: x in r <==> x in ts && |x| > 0
    decreases |ts|
  {
    if |ts| == 0 then []
    else (if |ts[0]| > 0 then [ts[0]] else []) + NonBlank(ts[1..])
  }

  /** Texts that are all non-empty are kept whole. */
  lemma {:induction false} NonBlankOfFull(ts: seq<string>)
    requires forall i :: 0 <= i < |ts| ==> |ts[i]| > 0
    ensures NonBlank(ts) == ts
    decreases |ts|
  {
    if |ts| > 0 {
      NonBlankOfFull(ts[1..]);
    }
  }

  /** Stripped texts stay stripped when the empty ones are dropped. */
  lemma NonBlankClean(ts: seq<string>)
    requires forall t :: t in ts ==> PyStr.Strip(t) == t
    ensures forall i :: 0 <= i < |NonBlank(ts)| ==> |NonBlank(ts)[i]| > 0 && PyStr.Strip(NonBlank(ts)[i]) == NonBlank(ts)[i]
  {
    var r := NonBlank(ts);
    assert forall i :: 0 <= i < |r| ==> r[i] in r;
  }

  /** The stripped, non-blank `str(item)` of each item, in order. */
  function ListItems(items: seq<Value>): (r: seq<string>)
    ensures |r| <= |items|
    ensures forall i :: 0 <= i < |r| ==> |r[i]| > 0 && PyStr.Strip(r[i]) == r[i]
  {
    TextsStripped(items);
    NonBlankClean(Texts(items));
    NonBlank(Texts(items))
  }

  /** An item is listed exactly when it is the non-blank stripped text of some item. */
  lemma ListItemsMembers(items: seq<Value>, x: string)
    ensures x in ListItems(items) <==> |x| > 0 && exists i :: 0 <= i < |items| && x == PyStr.Strip(ToStr(items[i]))
  {
    var ts := Texts(items);
    assert x in ts <==> exists i :: 0 <= i < |ts| && x == ts[i];
  }

  /** A bracketed text: it starts with `[` and ends with `]`. */
  predicate Bracketed(t: string) {
    PyStr.StartsWith(t, "[") && PyStr.EndsWith(t, "]")
  }

  /** The items of a text: blank is nothing, bracketed is split at its commas
      with quotes stripped from each piece, anything else is one item. */
  function TextItems(s: string): (r: seq<string>)
    ensures PyStr.IsBlank(s) ==> r == []
    ensures !PyStr.IsBlank(s) && !Bracketed(PyStr.Strip(s)) ==> r == [PyStr.Strip(s)]
  {
    var t := PyStr.Strip(s);
    if |t| == 0 then []
    else if Bracketed(t) then
      assert t[0] == '[' && t[|t| - 1] == ']';
      BracketItems(t)
    else [t]
  }

  /** `[x.strip().strip('"\'') for x in raw[1:-1].strip().split(",") if x.strip()]` */
  function BracketItems(t: string): seq<string>
    requires |t| >= 2
  {
    TicketValidate.Items(PyStr.Split(PyStr.Strip(t[1..|t| - 1]), ','))
  }

  /** `_parse_list`: `None` is nothing, a list gives its stripped non-blank
      items, a string is read by `TextItems`, anything else is its own text. */
  function ParseList(raw: Value): (r: seq<string>)
    ensures raw.Null? ==> r == []
    ensures raw.List? ==> forall i :: 0 <= i < |r| ==> |r[i]| > 0 && PyStr.Strip(r[i]) == r[i]
    ensures !raw.Null? && !raw.List? && !raw.Str? ==> |r| == 1
  {
    if raw.Null? then []
    else if raw.List? then ListItems(raw.items)
    else if raw.Str? then TextItems(raw.s)
    else [ToStr(raw)]
  }

  /** A bracketed text whose inside is unpadded splits its inside at the commas. */
  lemma TextItemsBracketed(inner: string)
    requires |inner| > 0 ==> !PyStr.IsSpace(inner[0]) && !PyStr.IsSpace(inner[|inner| - 1])
    ensures TextItems("[" + inner + "]") == TicketValidate.Items(PyStr.Split(inner, ','))
  {
    BracketedText(inner);
    TextItemsOfBracketed("[" + inner + "]");
    BracketInside(inner);
  }

  /** `[` and `]` around any text make a bracketed text that stripping keeps. */
  lemma BracketedText(inner: string)
    ensures var t := "[" + inner + "]"; |t| >= 2 && PyStr.Strip(t) == t && Bracketed(t)
  {
    var t := "[" + inner + "]";
    PyStr.PrintableNotSpace(t[0]);
    PyStr.PrintableNotSpace(t[|t| - 1]);
    PyStr.StripPlain(t);
    assert t[..1] == "[" && t[|t| - 1..] == "]";
  }

  lemma BracketInside(inner: string)
    requires |inner| > 0 ==> !PyStr.IsSpace(inner[0]) && !PyStr.IsSpace(inner[|inner| - 1])
    ensures BracketItems("[" + inner + "]") == TicketValidate.Items(PyStr.Split(inner, ','))
  {
    var t := "[" + inner + "]";
    assert t[1..|t| - 1] == inner;
    PyStr.StripPlain(inner);
  }

  lemma TextItemsOfBracketed(t: string)
    requires |t| >= 2 && PyStr.Strip(t) == t && Bracketed(t)
    ensures TextItems(t) == BracketItems(t)
  {
  }

  /** The quoted items joined by `, ` start and end with a quote. */
  lemma QuotedJoinUnpadded(xs: seq<string>)
    ensures var inner := PyStr.Join(TicketValidate.QuotedItems(xs), ", ");
      |inner| > 0 ==> !PyStr.IsSpace(inner[0]) && !PyStr.IsSpace(inner[|inner| - 1])
  {
    PyStr.PrintableNotSpace('\'');
    var q := TicketValidate.QuotedItems(xs);
    if |xs| > 0 {
      PyStr.JoinFirst(q, ", ");
      PyStr.JoinLast(q, ", ");
      assert q[0][0] == '\'' && q[|q| - 1][|q[|q| - 1]| - 1] == '\'';
    } else {
      assert q == [];
    }
  }

  /** A list of plain items written the way `str(list)` writes it reads back
      as the same list: what a YAML front matter turns a tag list into. */
  lemma ParseListOfRendered(xs: seq<string>)
    requires forall i :: 0 <= i < |xs| ==> TicketValidate.PlainDep(xs[i])
    ensures ParseList(Str(ToStr(StrList(xs)))) == xs
  {
    TicketValidate.RenderedDeps(xs);
    var inner := PyStr.Join(TicketValidate.QuotedItems(xs), ", ");
    QuotedJoinUnpadded(xs);
    TextItemsBracketed(inner);
    TicketValidate.ItemsOfRendered(xs);
  }

  /** Clean items given back as a list read back unchanged. */
  lemma ListItemsOfClean(xs: seq<string>)
    requires forall i :: 0 <= i < |xs| ==> |xs[i]| > 0 && PyStr.Strip(xs[i]) == xs[i]
    ensures ListItems(StrList(xs).items) == xs
  {
    assert Texts(StrList(xs).items) == xs;
    NonBlankOfFull(xs);
  }

  /** Reading a list is idempotent: its result, given back as a list, reads the same. */
  lemma ParseListIdempotent(items: seq<Value>)
    ensures ParseList(StrList(ParseList(List(items)))) == ParseList(List(items))
  {
    var r := ListItems(items);
    ParseListOfList(items);
    ListItemsOfClean(r);
    ParseListOfList(StrList(r).items);
  }

  lemma ParseListOfList(items: seq<Value>)
    ensures ParseList(List(items)) == ListItems(items)
  {
  }

  /** One plain item reads the same written bare or as a one-item list. */
  lemma SingleItemForms(x: string)
    requires TicketValidate.PlainDep(x) && x[0] != '['
    ensures ParseList(Str(x)) == ParseList(Str(ToStr(StrList([x])))) == [x]
  {
    ParseListOfStr(x);
    PlainTextItem(x);
    ParseListOfRendered([x]);
  }

  lemma ParseListOfStr(s: string)
    ensures ParseList(Str(s)) == TextItems(s)
  {
  }

  /** An unbracketed plain text is one item. */
  lemma PlainTextItem(x: string)
    requires TicketValidate.PlainDep(x) && x[0] != '['
    ensures TextItems(x) == [x]
  {
    PyStr.StripPlain(x);
    assert !PyStr.IsSpace(x[0]);
    assert !PyStr.IsBlank(x);
    assert !Bracketed(x);
  }

  // ------------------------------------------------------------------ infer_mode

  function Tags(fm: FrontMatter): seq<string> {
    ParseList(Str(FmGet(fm, "tags", "")))
  }

  /** `priority.strip().lower() in {"high", "critical"}` */
  predicate HighPriority(fm: FrontMatter) {
    PyStr.Lower(PyStr.Strip(FmGet(fm, "priority", ""))) in {"high", "critical"}
  }

  /** `requested` is truthy: given and not empty. */
  predicate Requested(requested: Option<string>) {
    requested.Some? && |requested.value| > 0
  }

  /** `infer_mode`: the requested mode, else one read off the tags and the priority. */
  function InferMode(fm: FrontMatter, requested: Option<string>): (r: string)
    ensures Requested(requested) ==> r == requested.value
    ensures !Requested(requested) ==> r in {"batch", "swarm", "run"}
  {
    if Requested(requested) then requested.value
    else
      var tags := Tags(fm);
      if "batch" in tags then "batch"
      else if "swarm" in tags || "multi" in tags then "swarm"
      else if HighPriority(fm) then "batch"
      else "run"
  }

  /** Without a request, each mode is chosen exactly in its own case: a batch
      tag beats a swarm or multi tag, which beats the priority. */
  lemma InferModeCases(fm: FrontMatter)
    ensures var tags := Tags(fm); var r := InferMode(fm, None);
      && (r == "batch" <==> "batch" in tags || ("swarm" !in tags && "multi" !in tags && HighPriority(fm)))
      && (r == "swarm" <==> "batch" !in tags && ("swarm" in tags || "multi" in tags))
      && (r == "run" <==> "batch" !in tags && "swarm" !in tags && "multi" !in tags && !HighPriority(fm))
  {
  }

  /** A tag list written by a YAML front matter reaches the mode choice intact. */
  lemma RenderedTagsChooseMode(fm: FrontMatter, tags: seq<string>)
    requires "tags" in fm && fm["tags"] == ToStr(StrList(tags))
    requires forall i :: 0 <= i < |tags| ==> TicketValidate.PlainDep(tags[i])
    ensures "batch" in tags ==> InferMode(fm, None) == "batch"
    ensures "batch" !in tags && ("swarm" in tags || "multi" in tags) ==> InferMode(fm, None) == "swarm"
  {
    ParseListOfRendered(tags);
  }

  // ------------------------------------------------------------------ build_payload

  /** `title.replace(":", " - ").replace("\n", " ").strip() or "ticket"` */
  function SafeTitle(title: string): (r: string)
    ensures |r| > 0 && ':' !in r && '\n' !in r
    ensures CollabUtils.PlainField(r)
  {
    var spaced := PyStr.ReplaceChar(PyStr.ReplaceChar(title, ':', " - "), '\n', " ");
    var t := PyStr.Strip(spaced);
    PyStr.StripSubset(spaced);
    if |t| > 0 then t else "ticket"
  }

  /** A title that is already safe is kept as it is. */
  lemma SafeTitleKeepsSafe(title: string)
    requires |title| > 0 && ':' !in title && '\n' !in title
    requires !PyStr.IsSpace(title[0]) && !PyStr.IsSpace(title[|title| - 1])
    ensures SafeTitle(title) == title
  {
    PyStr.StripPlain(title);
  }

  /** Making a title safe twice is making it safe once. */
  lemma SafeTitleIdempotent(title: string)
    ensures SafeTitle(SafeTitle(title)) == SafeTitle(title)
  {
    SafeTitleKeepsSafe(SafeTitle(title));
  }

  const RequiredSkills: seq<string> :=
    ["mso-agent-collaboration", "mso-task-context-management", "mso-agent-audit-log"]

  /** The handoff payload of `build_payload`; `runId` is `run-` and the clock. */
  datatype Payload = Payload(
    runId: string, taskId: string, mode: string, artifactUri: string, taskName: string,
    owner: string, dependencies: seq<string>, tags: seq<string>, dueBy: string,
    status: string, stateMachineVersion: string, taskSpec: string, ccCouplingId: string,
    requiredSkillIds: seq<string>, missingDependencyAction: string)

  /** The id `build_payload` puts in the task specification. */
  function PayloadTaskId(fm: FrontMatter): (r: string)
    ensures |r| > 0
  {
    if "id" in fm && |fm["id"]| > 0 then fm["id"] else FmOr(fm, "task_context_id", "TASK-UNKNOWN")
  }

  /** `fm.get("title") or fm.get("task", "ticket")` */
  function Title(fm: FrontMatter): string {
    FmOr(fm, "title", FmGet(fm, "task", "ticket"))
  }

  /** `f"codex:{safe_title}:{task_id}"`: splitting it at its first two colons
      gives back the provider, the safe title and the id. */
  function TaskSpec(fm: FrontMatter): (spec: string)
    ensures PyStr.SplitN(spec, ':', 2) == ["codex", SafeTitle(Title(fm)), PayloadTaskId(fm)]
  {
    var safe := SafeTitle(Title(fm));
    var id := PayloadTaskId(fm);
    CodexPlain();
    CollabUtils.SpecParts("codex", safe, id);
    "codex" + ":" + safe + ":" + id
  }

  /** `build_payload`. */
  function BuildPayload(fm: FrontMatter, mode: string, artifactUri: string, clock: string): (r: Payload)
    ensures r.taskId == PayloadTaskId(fm) && r.mode == mode && r.artifactUri == artifactUri
    ensures var parts := PyStr.SplitN(r.taskSpec, ':', 2);
      |parts| == 3 && parts[0] == "codex" && parts[2] == r.taskId
      && |parts[1]| > 0 && CollabUtils.PlainField(parts[1])
    ensures r.requiredSkillIds == RequiredSkills && r.missingDependencyAction == "manual_required"
  {
    var spec := TaskSpec(fm);
    Payload(
      "run-" + clock, PayloadTaskId(fm), mode, artifactUri, Title(fm), FmGet(fm, "owner", "agent"),
      ParseList(Str(FmGet(fm, "dependencies", ""))), Tags(fm), FmGet(fm, "due_by", ""),
      FmGet(fm, "status", "todo"), FmGet(fm, "task_context_id", "v1"), spec,
      FmGet(fm, "cc_coupling_id", "CC-04"), RequiredSkills, "manual_required")
  }

  /** The collaborator parses the task specification back into a codex request
      for the safe title under the payload's own id. */
  lemma TaskSpecParses(fm: FrontMatter, promptHash: int)
    requires var id := PayloadTaskId(fm); !PyStr.IsSpace(id[0]) && !PyStr.IsSpace(id[|id| - 1])
    ensures CollabUtils.ParseTaskSpec(TaskSpec(fm), Providers.ProviderNames(), promptHash)
      == Ok(CollabUtils.TaskRequest(PayloadTaskId(fm), "codex", SafeTitle(Title(fm)), None, None,
                                    CollabUtils.DefaultTimeout))
  {
    var safe := SafeTitle(Title(fm));
    var id := PayloadTaskId(fm);
    CodexPlain();
    CollabUtils.TaskSpecRoundTrip("codex", safe, id, Providers.ProviderNames(), promptHash);
  }

  /** `codex` is a known provider and a plain field. */
  lemma CodexPlain()
    ensures "codex" in Providers.ProviderNames() && CollabUtils.PlainField("codex")
  {
    Providers.ProviderNamesExact();
    PyStr.PrintableNotSpace('c');
    PyStr.PrintableNotSpace('x');
  }

  // ------------------------------------------------------------------ artifact_reference

  /** `(fm.get("artifact_uri") or "").strip() or str(ticket)` */
  function ArtifactReference(fm: FrontMatter, ticket: string): (r: string)
    ensures |PyStr.Strip(FmGet(fm, "artifact_uri", ""))| > 0 ==> r == PyStr.Strip(FmGet(fm, "artifact_uri", ""))
    ensures PyStr.IsBlank(FmGet(fm, "artifact_uri", "")) ==> r == ticket
  {
    var direct := PyStr.Strip(FmOr(fm, "artifact_uri", ""));
    if |direct| > 0 then direct else ticket
  }

  // ------------------------------------------------------------------ the written record

  /** The handoff part of a written record: a fallback carries the reason and
      always asks for manual confirmation, a dispatch carries the full payload
      with the mode and `requires_manual_confirmation` false. */
  datatype Handoff =
    | FallbackHandoff(taskId: string, artifactUri: string, reason: string)
    | DispatchHandoff(payload: Payload, dispatchMode: string)

  /** The `.agent-collaboration.json` record; `errors` and `warnings` are
      whatever JSON the collaborator gave. */
  datatype Record = Record(
    dispatchMode: string, handoff: Handoff, requiresManual: bool, fallbackReason: Value,
    status: string, nextActions: seq<string>, artifactUri: string, runId: string,
    errors: Value, warnings: Value, missingDependencyAction: string)

  /** What every written record keeps: asking for manual confirmation goes
      with status `in_progress` and the `manual_required` action, and not
      asking goes with `success` and `auto`. */
  predicate Consistent(rec: Record) {
    && (rec.requiresManual <==> rec.status == "in_progress")
    && (!rec.requiresManual <==> rec.status == "success")
    && (rec.requiresManual <==> rec.missingDependencyAction == "manual_required")
    && (!rec.requiresManual <==> rec.missingDependencyAction == "auto")
  }

  const RuntimeMissing := "ai-collaborator runtime missing or unavailable"

  /** `build_fallback`. */
  function Fallback(taskId: string, reason: string, artifactUri: string, clock: string): (r: Record)
    ensures r.requiresManual && r.dispatchMode == "run" && r.handoff.FallbackHandoff?
    ensures Consistent(r)
    ensures r.errors == StrList([reason]) && r.fallbackReason == Str(reason)
  {
    Record("run", FallbackHandoff(taskId, artifactUri, reason), true, Str(reason), "in_progress",
           ["manual_dispatch", "validate_manual_route"], artifactUri, "run-" + clock,
           StrList([reason]), StrList([RuntimeMissing]), "manual_required")
  }

  // ------------------------------------------------------------------ run_cli

  /** What starting the collaborator did: it raised (script missing, process
      timeout), or it finished with a return code, its output, and what
      `json.loads` made of the output (`None` when it could not parse it). */
  datatype CliCall =
    | Raised(message: string)
    | Completed(returncode: int, stdout: string, stderr: string, parsed: Option<Value>)

  /** The status field of a collaborator answer, when it is an object. */
  function StatusOf(v: Value): Value {
    GetOrNull(v, "status")
  }

  /** `run_cli` once the process finished: a failing exit becomes a failure
      object, empty or unreadable output a success object, and readable output
      is returned as it was parsed, whatever its shape. */
  function RunCliResult(returncode: int, stdout: string, stderr: string, parsed: Option<Value>): (r: Value)
    ensures returncode != 0 ==>
      (r.Object? && StatusOf(r) == Str("failure")
       && Get(r, "error") == Some(Str("cli_exit=" + PyStr.IntToString(returncode))))
    ensures returncode == 0 && (PyStr.IsBlank(stdout) || parsed.None?) ==> r.Object? && StatusOf(r) == Str("success")
    ensures returncode == 0 && !PyStr.IsBlank(stdout) && parsed.Some? ==> r == parsed.value
  {
    if returncode != 0 then FailureObject(stdout, stderr, returncode)
    else if |PyStr.Strip(stdout)| == 0 then
      Object([("status", Str("success")), ("raw_stdout", Str("")), ("raw_stderr", Str(PyStr.Strip(stderr)))])
    else
      match parsed
      case Some(v) => v
      case None =>
        Object([("status", Str("success")), ("raw_stdout", Str(PyStr.Strip(stdout))),
                ("raw_stderr", Str(PyStr.Strip(stderr)))])
  }

  /** The failure object of a non-zero exit, naming the exit code. */
  function FailureObject(stdout: string, stderr: string, returncode: int): (r: Value)
    ensures r.Object? && StatusOf(r) == Str("failure")
    ensures Get(r, "error") == Some(Str("cli_exit=" + PyStr.IntToString(returncode)))
  {
    var fields := [("status", Str("failure")), ("raw_stdout", Str(PyStr.Strip(stdout))),
                   ("raw_stderr", Str(PyStr.Strip(stderr))),
                   ("error", Str("cli_exit=" + PyStr.IntToString(returncode)))];
    assert fields[0].0[0] != 'e' && fields[1].0[0] != 'e' && fields[2].0[0] != 'e';
    LookupFirst(fields, 3, "error");
    Object(fields)
  }

  // ------------------------------------------------------------------ dispatch_one

  /** `isinstance(cli_result, dict) and cli_result.get("status") == "failure"` */
  predicate FailureAnswer(v: Value) {
    v.Object? && StatusOf(v) == Str("failure")
  }

  /** The summary written after the collaborator answered, with `warnings`
      read only from an object answer, as `errors` is. */
  function Summary(payload: Payload, mode: string, artifactUri: string, answer: Value): (r: Record)
    ensures r.requiresManual <==> FailureAnswer(answer)
    ensures r.requiresManual ==> r.fallbackReason == GetOr(answer, "error", Str("unknown collaborator failure"))
    ensures Consistent(r)
    ensures r.handoff == DispatchHandoff(payload, mode) && r.runId == payload.runId
    ensures !answer.Object? ==> r.errors == List([]) && r.warnings == List([])
  {
    var manual := FailureAnswer(answer);
    Record(mode, DispatchHandoff(payload, mode), manual,
           if manual then GetOr(answer, "error", Str("unknown collaborator failure")) else Null,
           if manual then "in_progress" else "success", ["monitor"], artifactUri, payload.runId,
           if answer.Object? then GetOr(answer, "errors", List([])) else List([]),
           if answer.Object? then GetOr(answer, "warnings", List([])) else List([]),
           if manual then "manual_required" else "auto")
  }

  /** What `dispatch_one` does; it returns 0 in every case. */
  datatype Outcome = Skipped(status: string) | Wrote(record: Record)

  const Dispatchable: set<string> := {"todo", "in_progress", "queued"}

  /** `(fm.get("status") or "todo").strip()` */
  function TicketStatus(fm: FrontMatter): string {
    PyStr.Strip(FmOr(fm, "status", "todo"))
  }

  /** `dispatch_one` with `warnings` guarded like `errors`. */
  function DispatchOne(fm: FrontMatter, requested: Option<string>, ticket: string,
                       runtimeFound: bool, cli: CliCall, clock: string): (r: Outcome)
    ensures r.Skipped? <==> TicketStatus(fm) !in Dispatchable
    ensures r.Wrote? ==> Consistent(r.record)
    ensures r.Wrote? && r.record.handoff.FallbackHandoff? ==>
      r.record.requiresManual && r.record.status == "in_progress"
    ensures r.Wrote? ==> (r.record.handoff.FallbackHandoff? <==> !runtimeFound || cli.Raised?)
    ensures r.Wrote? && cli.Completed? && runtimeFound ==>
      (var answer := RunCliResult(cli.returncode, cli.stdout, cli.stderr, cli.parsed);
       (r.record.requiresManual <==> FailureAnswer(answer))
       && (r.record.status == "success" <==> !r.record.requiresManual))
  {
    var status := TicketStatus(fm);
    if status !in Dispatchable then Skipped(status)
    else
      var mode := InferMode(fm, requested);
      var taskId := FmOr(fm, "id", "TKT-UNKNOWN");
      var artifactUri := ArtifactReference(fm, ticket);
      if !runtimeFound then
        Wrote(Fallback(taskId, "ai-collaborator runtime not found", artifactUri, clock))
      else
        match cli
        case Raised(m) => Wrote(Fallback(taskId, "collaborator execution failed: " + m, artifactUri, clock))
        case Completed(code, out, err, parsed) =>
          var payload := BuildPayload(fm, mode, artifactUri, clock);
          Wrote(Summary(payload, mode, artifactUri, RunCliResult(code, out, err, parsed)))
  }

  /** A collaborator that exits non-zero always leaves the ticket waiting for
      manual confirmation. */
  lemma FailingExitNeedsManual(fm: FrontMatter, requested: Option<string>, ticket: string,
                               code: int, out: string, err: string, parsed: Option<Value>, clock: string)
    requires TicketStatus(fm) in Dispatchable && code != 0
    ensures var r := DispatchOne(fm, requested, ticket, true, Completed(code, out, err, parsed), clock);
      r.Wrote? && r.record.requiresManual && r.record.status == "in_progress"
      && r.record.fallbackReason == Str("cli_exit=" + PyStr.IntToString(code))
  {
    var answer := RunCliResult(code, out, err, parsed);
    assert GetOr(answer, "error", Str("unknown collaborator failure")) == Str("cli_exit=" + PyStr.IntToString(code));
    var r := DispatchOne(fm, requested, ticket, true, Completed(code, out, err, parsed), clock);
    assert r.Wrote? && r.record.handoff.DispatchHandoff?;
  }

  /** The summary as `dispatch_one` writes it: `warnings` is read with `.get`
      on whatever the collaborator answered, so an answer that is not an
      object raises before anything is written. */
  function SummaryAsWritten(payload: Payload, mode: string, artifactUri: string, answer: Value): (r: Result<Record>)
    ensures r.Err? <==> !answer.Object?
  {
    var manual := FailureAnswer(answer);
    var errors := if answer.Object? then GetOr(answer, "errors", List([])) else List([]);
    if !answer.Object? then Err("AttributeError: object has no attribute 'get'")
    else
      Ok(Record(mode, DispatchHandoff(payload, mode), manual,
                if manual then GetOr(answer, "error", Str("unknown collaborator failure")) else Null,
                if manual then "in_progress" else "success", ["monitor"], artifactUri, payload.runId,
                errors, GetOr(answer, "warnings", List([])),
                if manual then "manual_required" else "auto"))
  }

  /** `dispatch_one` as written; an error is the exception that ends the script. */
  function DispatchOneAsWritten(fm: FrontMatter, requested: Option<string>, ticket: string,
                                runtimeFound: bool, cli: CliCall, clock: string): (r: Result<Outcome>)
    ensures r.Err? ==> TicketStatus(fm) in Dispatchable && runtimeFound && cli.Completed?
  {
    var status := TicketStatus(fm);
    if status !in Dispatchable then Ok(Skipped(status))
    else
      var mode := InferMode(fm, requested);
      var taskId := FmOr(fm, "id", "TKT-UNKNOWN");
      var artifactUri := ArtifactReference(fm, ticket);
      if !runtimeFound then
        Ok(Wrote(Fallback(taskId, "ai-collaborator runtime not found", artifactUri, clock)))
      else
        match cli
        case Raised(m) => Ok(Wrote(Fallback(taskId, "collaborator execution failed: " + m, artifactUri, clock)))
        case Completed(code, out, err, parsed) =>
          var payload := BuildPayload(fm, mode, artifactUri, clock);
          match SummaryAsWritten(payload, mode, artifactUri, RunCliResult(code, out, err, parsed))
          case Ok(rec) => Ok(Wrote(rec))
          case Err(e) => Err(e)
  }

  /** Whenever the script as written gets through, it writes what the guarded
      version writes; it fails exactly when the collaborator's readable
      output is not a JSON object. */
  lemma AsWrittenAgrees(fm: FrontMatter, requested: Option<string>, ticket: string,
                        runtimeFound: bool, cli: CliCall, clock: string)
    ensures var w := DispatchOneAsWritten(fm, requested, ticket, runtimeFound, cli, clock);
      && (w.Ok? ==> w.value == DispatchOne(fm, requested, ticket, runtimeFound, cli, clock))
      && (w.Err? <==> TicketStatus(fm) in Dispatchable && runtimeFound && cli.Completed?
                      && !RunCliResult(cli.returncode, cli.stdout, cli.stderr, cli.parsed).Object?)
  {
  }

  /** A collaborator printing only `[]` crashes the script as written, while
      the guarded version records a success with no warnings. */
  lemma ListAnswerCrashes(fm: FrontMatter, requested: Option<string>, ticket: string, clock: string)
    requires TicketStatus(fm) in Dispatchable
    ensures var cli := Completed(0, "[]", "", Some(List([])));
      && DispatchOneAsWritten(fm, requested, ticket, true, cli, clock).Err?
      && DispatchOne(fm, requested, ticket, true, cli, clock).Wrote?
      && DispatchOne(fm, requested, ticket, true, cli, clock).record.status == "success"
      && DispatchOne(fm, requested, ticket, true, cli, clock).record.warnings == List([])
  {
    ListOutputKept();
    AsWrittenAgrees(fm, requested, ticket, true, Completed(0, "[]", "", Some(List([]))), clock);
  }

  /** Output that parses as an empty list is handed back as that list. */
  lemma ListOutputKept()
    ensures RunCliResult(0, "[]", "", Some(List([]))) == List([])
  {
    PyStr.PrintableNotSpace('[');
    assert !PyStr.IsBlank("[]") by {
      assert !PyStr.IsSpace("[]"[0]);
    }
  }

  /** A ticket without a status counts as `todo` and is dispatched. */
  lemma MissingStatusIsTodo()
    ensures TicketStatus(map[]) == "todo" && "todo" in Dispatchable
  {
    PyStr.PrintableNotSpace('t');
    PyStr.PrintableNotSpace('o');
    PyStr.StripPlain("todo");
  }
}
