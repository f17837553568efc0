/** The swarm worker: the agent-to-provider mapping given on the command line,
    the payloads a worker derives from a claimed message, and what one worker
    does with one claimed message. The provider run is not modelled; its
    outcome is an input of the step. */
module Swarm {
  import opened Results
  import opened Json
  import PyStr
  import Providers
  import Schemas
  import Bus

  // ------------------------------------------------------------------ agent mapping

  /** `[p.strip() for p in parts if p.strip()]` */
  function CleanTokens(parts: seq<string>): (r: seq<string>)
    ensures |r| <= |parts|
    ensures forall k :: 0 <= k < |r| ==> |r[k]| > 0
  {
    if |parts| == 0 then []
    else
      var t := PyStr.Strip(parts[0]);
      (if |t| > 0 then [t] else []) + CleanTokens(parts[1..])
  }

  /** One `agent:provider` token, split at its first ':'. */
  function ParseAgentToken(token: string): (r: Result<(string, string)>)
    ensures ':' !in token ==> r.Err?
    ensures r.Ok? ==> |r.value.0| > 0 && |r.value.1| > 0 && Providers.Known(r.value.1)
  {
    if ':' !in token then Err("Invalid agent mapping: " + token + ". Expected agent:provider")
    else
      var k := PyStr.IndexOf(token, ':').value;
      var agent := PyStr.Strip(token[..k]);
      var provider := PyStr.Strip(token[k + 1..]);
      if |agent| == 0 || |provider| == 0 then Err("Invalid agent mapping: " + token)
      else if !Providers.Known(provider) then Err("Unknown provider '" + provider + "'")
      else Ok((agent, provider))
  }

  /** The first failure of a list of per-token results, or all their values. */
  function Collect(rs: seq<Result<(string, string)>>): (r: Result<seq<(string, string)>>)
    ensures r.Ok? ==> |r.value| == |rs| && forall k :: 0 <= k < |rs| ==> rs[k] == Ok(r.value[k])
    ensures r.Err? <==> exists k :: 0 <= k < |rs| && rs[k].Err?
  {
    if |rs| == 0 then Ok([])
    else if rs[0].Err? then Err(rs[0].error)
    else
      var rest := Collect(rs[1..]);
      if rest.Err? then
        assert exists k :: 0 <= k < |rs| && rs[k].Err? by {
          var k :| 0 <= k < |rs[1..]| && rs[1..][k].Err?;
          assert rs[k + 1].Err?;
        }
        Err(rest.error)
      else
        var r := [rs[0].value] + rest.value;
        assert forall k :: 1 <= k < |rs| ==> rs[k] == rs[1..][k - 1] && r[k] == rest.value[k - 1];
        Ok(r)
  }

  /** Every token parsed in order; the first bad token raises. */
  function ParseTokens(tokens: seq<string>): (r: Result<seq<(string, string)>>)
    ensures r.Ok? ==> |r.value| == |tokens|
    ensures r.Ok? ==> forall k :: 0 <= k < |tokens| ==> ParseAgentToken(tokens[k]) == Ok(r.value[k])
    ensures r.Err? <==> exists k :: 0 <= k < |tokens| && ParseAgentToken(tokens[k]).Err?
  {
    var rs := seq(|tokens|, i requires 0 <= i < |tokens| => ParseAgentToken(tokens[i]));
    Collect(rs)
  }

  /** `parse_agents_spec`: comma-separated `agent:provider` pairs in input order;
      blank input, a malformed token or an unknown provider raises. */
  function ParseAgentsSpec(spec: string): (r: Result<seq<(string, string)>>)
    ensures PyStr.IsBlank(spec) ==> r.Err?
    ensures r.Ok? ==> forall k :: 0 <= k < |r.value| ==>
      |r.value[k].0| > 0 && Providers.Known(r.value[k].1)
  {
    if |PyStr.Strip(spec)| == 0 then Err("--agents cannot be empty")
    else ParseTokens(CleanTokens(PyStr.Split(spec, ',')))
  }

  /** An agent name the mapping syntax can carry unchanged. */
  predicate PlainAgent(a: string) {
    |a| > 0 && ',' !in a && ':' !in a && !PyStr.IsSpace(a[0]) && !PyStr.IsSpace(a[|a| - 1])
  }

  function RenderPair(p: (string, string)): string {
    p.0 + ":" + p.1
  }

  /** The `--agents` text for a list of pairs. */
  function RenderAgents(pairs: seq<(string, string)>): string {
    PyStr.Join(seq(|pairs|, i requires 0 <= i < |pairs| => RenderPair(pairs[i])), [','])
  }

  lemma ProviderNameShape(p: string)
    requires p in Providers.ProviderNames()
    ensures |p| > 0 && ',' !in p && ':' !in p && !PyStr.IsSpace(p[0]) && !PyStr.IsSpace(p[|p| - 1])
  {
    Providers.ProviderNamesExact();
    LowerWordShape(p);
  }

  /** A word of lower-case letters is an agent-mapping field as it stands. */
  lemma LowerWordShape(p: string)
    requires |p| > 0 && forall j :: 0 <= j < |p| ==> 'a' <= p[j] <= 'z'
    ensures ',' !in p && ':' !in p && !PyStr.IsSpace(p[0]) && !PyStr.IsSpace(p[|p| - 1])
  {
  }

  lemma ParsePair(a: string, p: string)
    requires PlainAgent(a) && p in Providers.ProviderNames()
    ensures ParseAgentToken(a + ":" + p) == Ok((a, p))
  {
    var token := a + ":" + p;
    ProviderNameShape(p);
    assert token[|a|] == ':';
    assert token[..|a|] == a;
    assert token[|a| + 1..] == p;
    assert PyStr.IndexOf(token, ':') == Some(|a|);
    PyStr.StripPlain(a);
    PyStr.StripPlain(p);
  }

  lemma ParseRenderedTokens(pairs: seq<(string, string)>)
    requires forall k :: 0 <= k < |pairs| ==> PlainAgent(pairs[k].0) && pairs[k].1 in Providers.ProviderNames()
    ensures ParseTokens(seq(|pairs|, i requires 0 <= i < |pairs| => RenderPair(pairs[i]))) == Ok(pairs)
  {
    var toks := seq(|pairs|, i requires 0 <= i < |pairs| => RenderPair(pairs[i]));
    forall k | 0 <= k < |toks|
      ensures ParseAgentToken(toks[k]) == Ok(pairs[k])
    {
      ParsePair(pairs[k].0, pairs[k].1);
    }
    var r := ParseTokens(toks);
    assert r.Ok?;
    assert |r.value| == |pairs|;
    assert forall k :: 0 <= k < |pairs| ==> r.value[k] == pairs[k];
    assert r.value == pairs;
  }

  lemma {:induction false} CleanTokensFixed(toks: seq<string>)
    requires forall k :: 0 <= k < |toks| ==>
      (|toks[k]| > 0 && !PyStr.IsSpace(toks[k][0]) && !PyStr.IsSpace(toks[k][|toks[k]| - 1]))
    ensures CleanTokens(toks) == toks
    decreases |toks|
  {
    if |toks| > 0 {
      PyStr.StripPlain(toks[0]);
      CleanTokensFixed(toks[1..]);
      assert toks == [toks[0]] + toks[1..];
    }
  }

  /** Rendering well-formed pairs as `--agents` text and parsing it back gives
      the same pairs in the same order. */
  lemma ParseRenderRoundTrip(pairs: seq<(string, string)>)
    requires |pairs| >= 1
    requires forall k :: 0 <= k < |pairs| ==> PlainAgent(pairs[k].0) && pairs[k].1 in Providers.ProviderNames()
    ensures ParseAgentsSpec(RenderAgents(pairs)) == Ok(pairs)
  {
    var toks := seq(|pairs|, i requires 0 <= i < |pairs| => RenderPair(pairs[i]));
    forall k | 0 <= k < |toks|
      ensures ',' !in toks[k] && |toks[k]| > 0 && !PyStr.IsSpace(toks[k][0]) && !PyStr.IsSpace(toks[k][|toks[k]| - 1])
    {
      ProviderNameShape(pairs[k].1);
      assert toks[k] == pairs[k].0 + ":" + pairs[k].1;
    }
    PyStr.SplitOfJoin(toks, ',');
    CleanTokensFixed(toks);
    ParseRenderedTokens(pairs);
    var spec := RenderAgents(pairs);
    assert !PyStr.IsBlank(spec) by {
      PyStr.SplitJoin(spec, ',');
      assert toks[0][0] in spec by {
        JoinHead(toks, [',']);
      }
      NonSpaceNotBlank(spec, toks[0][0]);
    }
  }

  lemma JoinHead(parts: seq<string>, sep: string)
    requires |parts| >= 1
    ensures PyStr.Join(parts, sep)[..|parts[0]|] == parts[0]
  {
    if |parts| > 1 {
      PyStr.JoinCons(parts[0], parts[1..], sep);
      assert parts == [parts[0]] + parts[1..];
    }
  }

  lemma NonSpaceNotBlank(s: string, c: char)
    requires c in s && !PyStr.IsSpace(c)
    ensures !PyStr.IsBlank(s)
  {
  }

  // ------------------------------------------------------------------ derived payload fields

  /** `_derive_task_prompt`: objective, then goal, then summary when truthy;
      otherwise the JSON text of the payload, given as `payloadJson`. */
  function DeriveTaskPrompt(payload: Value, payloadJson: string): (r: string)
    ensures payload.Object? && Get(payload, "objective").Some? && Truthy(Get(payload, "objective").value) ==>
      r == ToStr(Get(payload, "objective").value)
    ensures !(payload.Object?) ==> r == payloadJson
  {
    if payload.Object? && Truthy(GetOrNull(payload, "objective")) then ToStr(GetOrNull(payload, "objective"))
    else if payload.Object? && Truthy(GetOrNull(payload, "goal")) then ToStr(GetOrNull(payload, "goal"))
    else if payload.Object? && Truthy(GetOrNull(payload, "summary")) then ToStr(GetOrNull(payload, "summary"))
    else payloadJson
  }

  /** `_derive_run_id`: the payload's `run-` prefixed run id, else
      `run-<day>-<first six characters of the message id>`. */
  function DeriveRunId(msg: Bus.Message, day: string): (r: string)
    ensures PyStr.StartsWith(r, "run-")
    ensures (match GetStr(msg.payload, "run_id") case Some(x) => PyStr.StartsWith(x, "run-") case None => false)
      ==> Some(r) == GetStr(msg.payload, "run_id")
  {
    match GetStr(msg.payload, "run_id")
    case Some(x) => if PyStr.StartsWith(x, "run-") then x else "run-" + day + "-" + PyStr.Prefix(msg.id, 6)
    case None => "run-" + day + "-" + PyStr.Prefix(msg.id, 6)
  }

  /** `_derive_task_id`: the payload's `task-` prefixed task id, else
      `task-NNN` from the message id's hash (`idHash` stands for Python's `hash`). */
  function DeriveTaskId(msg: Bus.Message, idHash: int): (r: string)
    ensures PyStr.StartsWith(r, "task-")
  {
    match GetStr(msg.payload, "task_id")
    case Some(x) => if PyStr.StartsWith(x, "task-") then x else "task-" + PyStr.ZeroPad(Abs(idHash) % 1000, 3)
    case None => "task-" + PyStr.ZeroPad(Abs(idHash) % 1000, 3)
  }

  function Abs(x: int): nat {
    if x < 0 then -x else x
  }

  const SummaryLimit := 2000

  /** The output report's summary: the output, else the error, else "No output",
      cut to 2000 characters; a summary under ten characters gets a note appended. */
  function ReportSummary(output: string, errorText: string): (r: string)
    ensures 0 < |r| <= SummaryLimit
  {
    var s := PyStr.Prefix(if |output| > 0 then output else if |errorText| > 0 then errorText else "No output", SummaryLimit);
    if |s| < 10 then
      var t := s + " (no detailed output)";
      assert t[|t| - 1] == ')';
      assert !PyStr.IsBlank(t) by {
        assert !PyStr.IsSpace(t[|t| - 1]);
      }
      PyStr.Strip(t)
    else s
  }

  /** An output report; its `changed_files` list is always empty. */
  datatype Report = Report(runId: string, taskId: string, status: string, exitCode: string,
                           summary: string, nextAction: string)

  /** `_build_output_report_payload`: success proceeds with E-000; any failure
      asks for a retry with S-001. */
  function OutputReport(msg: Bus.Message, output: string, success: bool, errorText: string,
                        day: string, idHash: int): (r: Report)
    ensures success <==> r.status == "success"
    ensures r.status in {"success", "failure"}
    ensures r.exitCode == (if success then "E-000" else "S-001")
    ensures r.nextAction == (if success then "proceed" else "retry")
    ensures 0 < |r.summary| <= SummaryLimit
    ensures PyStr.StartsWith(r.runId, "run-") && PyStr.StartsWith(r.taskId, "task-")
  {
    var summary := ReportSummary(output, errorText);
    if success then Report(DeriveRunId(msg, day), DeriveTaskId(msg, idHash), "success", "E-000", summary, "proceed")
    else Report(DeriveRunId(msg, day), DeriveTaskId(msg, idHash), "failure", "S-001", summary, "retry")
  }

  /** The keys of an output report, in the order the worker writes them. */
  const ReportKeys: seq<string> := ["run_id", "task_id", "status", "exit_code", "changed_files", "summary", "next_action"]

  /** The report as the JSON object sent in a TASK_RESULT. */
  function ReportJson(rep: Report): (r: Value)
    ensures r.Object? && |r.fields| == |ReportKeys|
    ensures forall i :: 0 <= i < |ReportKeys| ==> r.fields[i].0 == ReportKeys[i]
  {
    Object(Zip(ReportKeys, [Str(rep.runId), Str(rep.taskId), Str(rep.status), Str(rep.exitCode), List([]),
                            Str(rep.summary), Str(rep.nextAction)]))
  }

  /** Every output report carries all fields its schema requires, so checking
      it never reports an error, in strict mode or not. */
  lemma OutputReportValid(rep: Report, strict: bool)
    ensures Schemas.ValidatePayloadByType("TASK_RESULT", ReportJson(rep), strict) == Ok([])
  {
    var r := ReportJson(rep);
    var req := Schemas.RequiredFields(Schemas.OutputReportSchema).value;
    assert req == ReportKeys;
    forall f | f in req ensures Has(r, f) {
      var k :| 0 <= k < |req| && req[k] == f;
      assert r.fields[k].0 == f;
    }
  }

  // ------------------------------------------------------------------ worker step

  /** What the provider run produced: `success`, `output` and `error` of the result. */
  datatype Outcome = Outcome(success: bool, output: string, error: string)

  /** One action of the worker, in the order the worker performs it. */
  datatype Effect =
    | Send(toAgent: string, msgType: string, payload: Value)
    | MarkDone(id: string)
    | MarkRetry(id: string, err: string)
    | MarkDead(id: string, err: string)
    | RecordManifest(traceId: string)

  /** Message types the worker only acknowledges. */
  const AckTypes: set<string> := {"TASK_ACCEPT", "TASK_UPDATE", "TASK_RESULT", "TASK_ERROR", "PONG"}

  function ErrorPayload(msgId: string, workerId: string, err: string): Value {
    Object([("message_id", Str(msgId)), ("worker", Str(workerId)), ("error", Str(err))])
  }

  /** The worker's handling of one claimed message. `outcome` is the provider
      run's result, used only for task requests; a request whose payload fails
      the strict schema check raises before anything is sent. */
  function WorkerStep(msg: Bus.Message, agent: string, provider: string, workerId: string,
                      strict: bool, maxAttempts: int, outcome: Outcome, day: string, idHash: int): (r: Result<seq<Effect>>)
    ensures msg.msgType != "TASK_REQUEST" ==> r.Ok?
    ensures r.Ok? ==> |r.value| >= 2 && r.value[|r.value| - 1] == RecordManifest(msg.traceId)
  {
    var id := msg.id;
    if msg.msgType == "PING" then
      Ok([Send(msg.fromAgent, "PONG", Object([("reply_to", Str(id)), ("worker", Str(workerId))])),
          MarkDone(id), RecordManifest(msg.traceId)])
    else if msg.msgType in AckTypes then
      Ok([MarkDone(id), RecordManifest(msg.traceId)])
    else if msg.msgType != "TASK_REQUEST" then
      var err := "unsupported message type: " + msg.msgType;
      Ok([MarkDead(id, err), Send(msg.fromAgent, "TASK_ERROR", ErrorPayload(id, workerId, err)),
          RecordManifest(msg.traceId)])
    else
      match Schemas.ValidatePayloadByType("TASK_REQUEST", msg.payload, strict)
      case Err(e) => Err(e)
      case Ok(_) => Ok(RequestEffects(msg, provider, workerId, maxAttempts, outcome, day, idHash))
  }

  /** The effects of a task request that passed the schema check: the
      acceptance, then the outcome of the provider run. */
  function RequestEffects(msg: Bus.Message, provider: string, workerId: string, maxAttempts: int,
                          outcome: Outcome, day: string, idHash: int): (r: seq<Effect>)
    ensures |r| >= 2 && r[|r| - 1] == RecordManifest(msg.traceId)
    ensures r[0].Send? && r[0].msgType == "TASK_ACCEPT"
  {
    var id := msg.id;
    var accept := Send(msg.fromAgent, "TASK_ACCEPT",
      Object([("accepted", Bool(true)), ("message_id", Str(id)), ("worker", Str(workerId)), ("provider", Str(provider))]));
    if outcome.success then
      [accept, Send(msg.fromAgent, "TASK_RESULT", ReportJson(OutputReport(msg, outcome.output, true, "", day, idHash))),
       MarkDone(id), RecordManifest(msg.traceId)]
    else
      var err := if |outcome.error| > 0 then outcome.error else "provider execution failed";
      if msg.attempt >= maxAttempts then
        [accept, MarkDead(id, err), Send(msg.fromAgent, "TASK_ERROR", ErrorPayload(id, workerId, err)),
         RecordManifest(msg.traceId)]
      else
        [accept, MarkRetry(id, err),
         Send(msg.fromAgent, "TASK_UPDATE",
           Object([("message_id", Str(id)), ("worker", Str(workerId)), ("status", Str("retry")),
                   ("attempt", Int(msg.attempt))])),
         RecordManifest(msg.traceId)]
  }

  /** A request's effects settle it by its provider outcome and the attempt count. */
  lemma RequestEffectsSettle(msg: Bus.Message, provider: string, workerId: string, maxAttempts: int,
                             outcome: Outcome, day: string, idHash: int)
    requires msg.msgType == "TASK_REQUEST"
    ensures Settles(RequestEffects(msg, provider, workerId, maxAttempts, outcome, day, idHash),
                    ExpectedMark(msg, maxAttempts, outcome), msg.fromAgent)
  {
    assert "TASK_REQUEST" !in AckTypes;
  }

  predicate IsMark(e: Effect) {
    e.MarkDone? || e.MarkRetry? || e.MarkDead?
  }

  /** The outcome a claimed message is settled with, as a reference for the step. */
  function ExpectedMark(msg: Bus.Message, maxAttempts: int, outcome: Outcome): (e: Effect)
    ensures IsMark(e) && e.id == msg.id
  {
    if msg.msgType == "PING" || msg.msgType in AckTypes then MarkDone(msg.id)
    else if msg.msgType != "TASK_REQUEST" then MarkDead(msg.id, "unsupported message type: " + msg.msgType)
    else if outcome.success then MarkDone(msg.id)
    else
      var err := if |outcome.error| > 0 then outcome.error else "provider execution failed";
      if msg.attempt >= maxAttempts then MarkDead(msg.id, err) else MarkRetry(msg.id, err)
  }

  /** Every step that completes settles the claimed message with exactly the
      expected outcome and no other, sends only to the sender of the claimed
      message, and ends by rebuilding the trace manifest. */
  lemma WorkerStepSettles(msg: Bus.Message, agent: string, provider: string, workerId: string,
                          strict: bool, maxAttempts: int, outcome: Outcome, day: string, idHash: int)
    ensures var r := WorkerStep(msg, agent, provider, workerId, strict, maxAttempts, outcome, day, idHash);
      r.Ok? ==>
        && ExpectedMark(msg, maxAttempts, outcome) in r.value
        && (forall e :: e in r.value && IsMark(e) ==> e == ExpectedMark(msg, maxAttempts, outcome))
        && (forall e :: e in r.value && e.Send? ==> e.toAgent == msg.fromAgent)
  {
    var r := WorkerStep(msg, agent, provider, workerId, strict, maxAttempts, outcome, day, idHash);
    var mark := ExpectedMark(msg, maxAttempts, outcome);
    if r.Ok? {
      if msg.msgType == "PING" || msg.msgType in AckTypes || msg.msgType != "TASK_REQUEST" {
        assert Settles(r.value, mark, msg.fromAgent);
      } else {
        RequestEffectsSettle(msg, provider, workerId, maxAttempts, outcome, day, idHash);
      }
    }
  }

  /** `effects` settle with `mark` alone and send only to `to`. */
  predicate Settles(effects: seq<Effect>, mark: Effect, to: string) {
    && mark in effects
    && (forall e :: e in effects && IsMark(e) ==> e == mark)
    && (forall e :: e in effects && e.Send? ==> e.toAgent == to)
  }

  /** Only a task request failing the strict schema check stops the step. */
  lemma WorkerStepFailsOnlyOnSchema(msg: Bus.Message, agent: string, provider: string, workerId: string,
                                    strict: bool, maxAttempts: int, outcome: Outcome, day: string, idHash: int)
    ensures var r := WorkerStep(msg, agent, provider, workerId, strict, maxAttempts, outcome, day, idHash);
      (r.Err? <==> (msg.msgType == "TASK_REQUEST" && strict
                    && |Schemas.Validate(Schemas.TaskHandoffSchema, msg.payload)| > 0))
  {
  }

  /** A task request's step sends the acceptance before anything else. */
  lemma AcceptFirst(msg: Bus.Message, agent: string, provider: string, workerId: string,
                    strict: bool, maxAttempts: int, outcome: Outcome, day: string, idHash: int)
    requires msg.msgType == "TASK_REQUEST"
    ensures var r := WorkerStep(msg, agent, provider, workerId, strict, maxAttempts, outcome, day, idHash);
      r.Ok? ==> r.value[0].Send? && r.value[0].msgType == "TASK_ACCEPT"
  {
  }

  // ------------------------------------------------------------------ message lifecycle

  /** The status a failed request ends a round in: dead once its attempt count
      has reached `maxAttempts`, retry before. */
  function FailedRound(m: Bus.Message, workerId: string, leaseSeconds: int, maxAttempts: int, now: int): (r: Bus.Message)
    requires Bus.Claimable(m, now)
    ensures r.attempt == m.attempt + 1
    ensures r.status == if m.attempt + 1 >= maxAttempts then Bus.Dead else Bus.Retry
    ensures r.leaseUntil.None?
  {
    var leased := Bus.Lease(m, workerId, now + Bus.LeaseLength(leaseSeconds), now);
    var err := "provider execution failed";
    if leased.attempt >= maxAttempts then Bus.Finish(leased, Bus.Dead, Some(err), now)
    else Bus.Finish(leased, Bus.Retry, Some(err), now)
  }

  /** `n` rounds of claim-and-fail, one clock unit apart. */
  function FailRounds(m: Bus.Message, workerId: string, leaseSeconds: int, maxAttempts: int, now: int, n: nat): (r: Option<Bus.Message>)
    decreases n
  {
    if n == 0 then Some(m)
    else
      match FailRounds(m, workerId, leaseSeconds, maxAttempts, now, n - 1)
      case None => None
      case Some(p) => if Bus.Claimable(p, now + n) then Some(FailedRound(p, workerId, leaseSeconds, maxAttempts, now + n)) else None
  }

  function MaxOne(x: int): nat {
    if x < 1 then 1 else x
  }

  /** A request whose provider run always fails goes back to retry after every
      round before the last, and is dead after exactly `max(1, maxAttempts)`
      claims; no further claim is possible after that. */
  lemma {:induction false} AlwaysFailingLifecycle(m: Bus.Message, workerId: string, leaseSeconds: int,
                                                  maxAttempts: int, now: int, n: nat)
    requires m.status == Bus.Queued && m.attempt == 0 && m.leaseUntil.None?
    requires n <= MaxOne(maxAttempts)
    ensures FailRounds(m, workerId, leaseSeconds, maxAttempts, now, n).Some?
    ensures var r := FailRounds(m, workerId, leaseSeconds, maxAttempts, now, n).value;
      r.attempt == n && r.status == (if n == 0 then Bus.Queued else if n < MaxOne(maxAttempts) then Bus.Retry else Bus.Dead)
    ensures n == MaxOne(maxAttempts) ==> FailRounds(m, workerId, leaseSeconds, maxAttempts, now, n + 1).None?
    decreases n
  {
    if n > 0 {
      AlwaysFailingLifecycle(m, workerId, leaseSeconds, maxAttempts, now, n - 1);
    }
  }
}
