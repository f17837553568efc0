/** The audit-log appender: one run payload (a JSON object) normalised into the
    common audit fields, one `audit_logs` row and one `decisions` row per
    decision. Database access is modelled by the rows the script would write;
    `INSERT OR REPLACE` is modelled on a table keyed by id. */
module AuditPayload {
  import opened Results
  import opened Json
  import PyStr
  import CcDefaults

  const SchemaVersion := "1.5.0"
  const ScriptName := "append_from_payload.py"
  const Governance := "mso-skill-governance"

  /** The skills a payload's metadata names when it names none. */
  const DefaultSkillIds: seq<string> := [
    CcDefaults.TopologyDesign, CcDefaults.MentalModelDesign, CcDefaults.ExecutionDesign,
    CcDefaults.TaskContext, CcDefaults.AgentCollaboration, CcDefaults.AuditLog,
    CcDefaults.Observability, Governance
  ]

  /** Non-empty text with nothing left to strip. */
  predicate Clean(s: string) {
    |s| > 0 && PyStr.Strip(s) == s
  }

  /** Text whose first and last characters are visible is clean. */
  lemma VisibleClean(s: string)
    requires |s| > 0 && !PyStr.IsSpace(s[0]) && !PyStr.IsSpace(s[|s| - 1])
    ensures Clean(s)
  {
    PyStr.StripPlain(s);
  }

  /** Text that starts and ends with printable ASCII is clean. */
  lemma PrintableClean(s: string)
    requires |s| > 0 && '!' <= s[0] <= '~' && '!' <= s[|s| - 1] <= '~'
    ensures Clean(s)
  {
    PyStr.PrintableNotSpace(s[0]);
    PyStr.PrintableNotSpace(s[|s| - 1]);
    VisibleClean(s);
  }

  // ---------------------------------------------------------------- scalars

  /** `safe_text(value, default)`: `str(value).strip()`, or the default for
      `None` and for blank text. */
  function SafeText(v: Value, default: string): (r: string)
    ensures r != default ==> Clean(r) && r == PyStr.Strip(ToStr(v))
    ensures v.Null? ==> r == default
  {
    if v.Null? then default
    else
      var t := PyStr.Strip(ToStr(v));
      PyStr.StripIdempotent(ToStr(v));
      if t != "" then t else default
  }

  /** Normalising text a second time changes nothing, for a default that is
      itself stripped. */
  lemma SafeTextAgain(v: Value, default: string)
    requires PyStr.Strip(default) == default
    ensures SafeText(Str(SafeText(v, default)), default) == SafeText(v, default)
  {
  }

  /** `to_bool_int(value)`: SQLite's integer for Python truthiness. */
  function ToBoolInt(v: Value): (r: int)
    ensures r == 0 || r == 1
    ensures r == 1 <==> Truthy(v)
  {
    if Truthy(v) then 1 else 0
  }

  // ---------------------------------------------------------------- lists

  /** The non-blank items of a list as stripped text, in order. */
  function CleanTexts(items: seq<Value>): (r: seq<string>)
    ensures |r| <= |items|
    ensures forall i :: 0 <= i < |r| ==> Clean(r[i])
    decreases |items|
  {
    if |items| == 0 then []
    else
      var t := SafeText(items[0], "");
      (if t != "" then [t] else []) + CleanTexts(items[1..])
  }

  /** Every kept text comes from some item. */
  lemma {:induction false} CleanTextsFrom(items: seq<Value>, x: string)
    requires x in CleanTexts(items)
    ensures exists i :: 0 <= i < |items| && SafeText(items[i], "") == x
    decreases |items|
  {
    var t := SafeText(items[0], "");
    if x != t || t == "" {
      assert x in CleanTexts(items[1..]);
      CleanTextsFrom(items[1..], x);
      var i :| 0 <= i < |items[1..]| && SafeText(items[1..][i], "") == x;
      assert SafeText(items[i + 1], "") == x;
    }
  }

  /** Every item with non-blank text is kept. */
  lemma {:induction false} CleanTextsKeep(items: seq<Value>, i: nat)
    requires i < |items| && SafeText(items[i], "") != ""
    ensures SafeText(items[i], "") in CleanTexts(items)
    decreases i
  {
    if i > 0 {
      assert items[1..][i - 1] == items[i];
      CleanTextsKeep(items[1..], i - 1);
    }
  }

  /** A text is kept exactly when some item normalises to it. */
  lemma CleanTextsMembers(items: seq<Value>, x: string)
    ensures x in CleanTexts(items) <==> x != "" && exists i :: 0 <= i < |items| && SafeText(items[i], "") == x
  {
    if x in CleanTexts(items) {
      CleanTextsFrom(items, x);
    }
    if x != "" && exists i :: 0 <= i < |items| && SafeText(items[i], "") == x {
      var i :| 0 <= i < |items| && SafeText(items[i], "") == x;
      CleanTextsKeep(items, i);
    }
  }

  /** `str(v)` of a bool, an int or a dict has no surrounding whitespace. */
  lemma OtherTextClean(v: Value)
    requires v.Bool? || v.Int? || v.Object?
    ensures Clean(ToStr(v))
  {
    var s := ToStr(v);
    if v.Bool? {
      VisibleClean(s);
    } else if v.Int? {
      var d := PyStr.NatToString(if v.i < 0 then -v.i else v.i);
      assert PyStr.IsDigit(d[0]) && PyStr.IsDigit(d[|d| - 1]);
      assert s[|s| - 1] == d[|d| - 1];
      PyStr.PrintableNotSpace(s[0]);
      PyStr.PrintableNotSpace(s[|s| - 1]);
      VisibleClean(s);
    } else {
      assert s[0] == '{' && s[|s| - 1] == '}';
      VisibleClean(s);
    }
  }

  /** `as_list(value)`: the non-blank texts a payload field holds. */
  function AsList(v: Value): (r: seq<string>)
    ensures forall i :: 0 <= i < |r| ==> Clean(r[i])
    ensures v.Null? ==> r == []
    ensures v.Str? ==> r == (if PyStr.IsBlank(v.s) then [] else [PyStr.Strip(v.s)])
    ensures v.Bool? || v.Int? || v.Object? ==> r == [ToStr(v)]
  {
    match v
    case Null => []
    case List(items) => CleanTexts(items)
    case Str(s) =>
      var t := PyStr.Strip(s);
      PyStr.StripIdempotent(s);
      if t != "" then [t] else []
    case _ =>
      OtherTextClean(v);
      [ToStr(v)]
  }

  /** A list of clean texts reads back as itself. */
  lemma {:induction false} CleanTextsOfClean(xs: seq<string>)
    requires forall i :: 0 <= i < |xs| ==> Clean(xs[i])
    ensures CleanTexts(StrItems(xs)) == xs
    decreases |xs|
  {
    if |xs| > 0 {
      var items := StrItems(xs);
      assert items[0] == Str(xs[0]) && SafeText(items[0], "") == xs[0];
      assert items[1..] == StrItems(xs[1..]);
      CleanTextsOfClean(xs[1..]);
    }
  }

  /** Normalising a field twice is normalising it once: the texts `as_list`
      returns, stored as a list, come back unchanged. */
  lemma AsListAgain(v: Value)
    ensures AsList(StrList(AsList(v))) == AsList(v)
  {
    var xs := AsList(v);
    assert StrList(xs) == List(StrItems(xs));
    CleanTextsOfClean(xs);
  }

  // ---------------------------------------------------------------- common fields

  /** The text fields `build_common` returns: each is the payload's value,
      stripped, or its default. */
  datatype Texts = Texts(
    runId: string,
    artifactUri: string,
    status: string,
    taskName: string,
    mode: string,
    action: string,
    script: string)

  /** The fields `build_common` passes through untouched (the v0.0.4 fields). */
  datatype Extras = Extras(
    workType: Value,
    triggeredBy: Value,
    durationSec: Value,
    filesAffected: Value,
    sprint: Value,
    patternTag: Value,
    sessionId: Value,
    intent: Value)

  /** The dict `build_common` hands to the row writers. */
  datatype Common = Common(
    texts: Texts,
    errors: seq<string>,
    warnings: seq<string>,
    nextActions: seq<string>,
    metadata: seq<(string, Value)>,
    extras: Extras)

  /** `artifact_uri`, falling back to `artifact` when that one is falsy. */
  function ArtifactField(payload: Value): Value {
    var uri := GetOrNull(payload, "artifact_uri");
    if Truthy(uri) then uri else GetOrNull(payload, "artifact")
  }

  function BuildTexts(payload: Value, runId: string, defaultArtifact: string): Texts {
    Texts(
      SafeText(GetOrNull(payload, "run_id"), runId),
      SafeText(ArtifactField(payload), defaultArtifact),
      SafeText(GetOrNull(payload, "status"), "in_progress"),
      SafeText(GetOrNull(payload, "task_name"), SafeText(GetOrNull(payload, "source"), "pipeline-operation")),
      SafeText(GetOrNull(payload, "mode"), "pipeline"),
      SafeText(GetOrNull(payload, "action"), "record"),
      SafeText(GetOrNull(payload, "script"), ScriptName))
  }

  /** Every text field is clean or its default; the task name and the script
      are never blank; a run id or status the payload leaves out takes the
      default. */
  lemma TextsDefaults(payload: Value, runId: string, defaultArtifact: string)
    ensures var t := BuildTexts(payload, runId, defaultArtifact);
      && (t.runId == runId || Clean(t.runId))
      && (t.artifactUri == defaultArtifact || Clean(t.artifactUri))
      && (t.status == "in_progress" || Clean(t.status))
      && (t.mode == "pipeline" || Clean(t.mode))
      && (t.action == "record" || Clean(t.action))
      && Clean(t.taskName) && Clean(t.script)
      && (!Has(payload, "status") ==> t.status == "in_progress")
      && (!Has(payload, "run_id") ==> t.runId == runId)
  {
    DefaultsClean();
  }

  /** A `files_affected` list is stored as its JSON text. */
  function FilesAffected(v: Value): (r: Value)
    ensures !r.List?
    ensures !v.List? ==> r == v
  {
    if v.List? then Str(Dumps(v)) else v
  }

  function BuildExtras(payload: Value): Extras {
    Extras(
      GetOrNull(payload, "work_type"),
      GetOrNull(payload, "triggered_by"),
      GetOrNull(payload, "duration_sec"),
      FilesAffected(GetOrNull(payload, "files_affected")),
      GetOrNull(payload, "sprint"),
      GetOrNull(payload, "pattern_tag"),
      GetOrNull(payload, "session_id"),
      GetOrNull(payload, "intent"))
  }

  /** The payload's `metadata` when it is a dict, else an empty dict. */
  function PayloadMetadata(payload: Value): seq<(string, Value)> {
    var m := GetOrNull(payload, "metadata");
    if m.Object? then m.fields else []
  }

  /** The metadata with the schema version, the coupling id and the required
      skills filled in, each only when the metadata lacks it. */
  function Metadata(payload: Value): seq<(string, Value)> {
    var m0 := PayloadMetadata(payload);
    var m1 := SetDefaultField(m0, "schema_version", GetOr(payload, "schema_version", Str(SchemaVersion)));
    var m2 := SetDefaultField(m1, "cc_coupling_id", GetOr(payload, "cc_coupling_id", Str("CC-SET")));
    SetDefaultField(m2, "required_skill_ids", GetOr(payload, "required_skill_ids", StrList(DefaultSkillIds)))
  }

  /** A key the payload's metadata has keeps its value; the three defaulted
      keys take the payload's top-level value or the built-in default; no
      other key appears. */
  lemma MetadataLookup(payload: Value, k: string)
    ensures Lookup(Metadata(payload), k) ==
      if HasField(PayloadMetadata(payload), k) then Lookup(PayloadMetadata(payload), k)
      else if k == "schema_version" then Some(GetOr(payload, "schema_version", Str(SchemaVersion)))
      else if k == "cc_coupling_id" then Some(GetOr(payload, "cc_coupling_id", Str("CC-SET")))
      else if k == "required_skill_ids" then Some(GetOr(payload, "required_skill_ids", StrList(DefaultSkillIds)))
      else None
  {
  }

  /** `build_common(payload, run_id, default_artifact)` */
  function BuildCommon(payload: Value, runId: string, defaultArtifact: string): Common {
    Common(
      BuildTexts(payload, runId, defaultArtifact),
      AsList(GetOrNull(payload, "errors")),
      AsList(GetOrNull(payload, "warnings")),
      AsList(GetOrNull(payload, "next_actions")),
      Metadata(payload),
      BuildExtras(payload))
  }

  /** `payload` holds the text fields as `build_common` returns them, and
      neither `artifact` nor `source`. */
  predicate StoresTexts(payload: Value, t: Texts) {
    && GetOrNull(payload, "run_id") == Str(t.runId)
    && GetOrNull(payload, "artifact_uri") == Str(t.artifactUri)
    && GetOrNull(payload, "artifact") == Null
    && GetOrNull(payload, "status") == Str(t.status)
    && GetOrNull(payload, "task_name") == Str(t.taskName)
    && GetOrNull(payload, "source") == Null
    && GetOrNull(payload, "mode") == Str(t.mode)
    && GetOrNull(payload, "action") == Str(t.action)
    && GetOrNull(payload, "script") == Str(t.script)
  }

  predicate StoresExtras(payload: Value, e: Extras) {
    && GetOrNull(payload, "work_type") == e.workType
    && GetOrNull(payload, "triggered_by") == e.triggeredBy
    && GetOrNull(payload, "duration_sec") == e.durationSec
    && GetOrNull(payload, "files_affected") == e.filesAffected
    && GetOrNull(payload, "sprint") == e.sprint
    && GetOrNull(payload, "pattern_tag") == e.patternTag
    && GetOrNull(payload, "session_id") == e.sessionId
    && GetOrNull(payload, "intent") == e.intent
  }

  /** `payload` holds the dict `build_common` returns. */
  predicate StoresCommon(payload: Value, c: Common) {
    && StoresTexts(payload, c.texts)
    && GetOrNull(payload, "errors") == StrList(c.errors)
    && GetOrNull(payload, "warnings") == StrList(c.warnings)
    && GetOrNull(payload, "next_actions") == StrList(c.nextActions)
    && GetOrNull(payload, "metadata") == Object(c.metadata)
    && StoresExtras(payload, c.extras)
  }

  /** The built-in defaults of the text fields are clean. */
  lemma DefaultsClean()
    ensures Clean("in_progress") && Clean("pipeline") && Clean("record")
    ensures Clean("pipeline-operation") && Clean(ScriptName)
  {
    PrintableClean("in_progress");
    PrintableClean("pipeline");
    PrintableClean("record");
    PrintableClean("pipeline-operation");
    PrintableClean(ScriptName);
  }

  /** A payload field stored back as its normalised text normalises to the
      same text. */
  lemma FieldAgain(payload: Value, again: Value, key: string, default: string)
    requires PyStr.Strip(default) == default
    requires GetOrNull(again, key) == Str(SafeText(GetOrNull(payload, key), default))
    ensures SafeText(GetOrNull(again, key), default) == SafeText(GetOrNull(payload, key), default)
  {
    SafeTextAgain(GetOrNull(payload, key), default);
  }

  /** The artifact falls back to `artifact`, which the stored dict lacks; an
      empty stored value falls back to the same default. */
  lemma ArtifactAgain(payload: Value, again: Value, default: string)
    requires PyStr.Strip(default) == default
    requires GetOrNull(again, "artifact_uri") == Str(SafeText(ArtifactField(payload), default))
    requires GetOrNull(again, "artifact") == Null
    ensures SafeText(ArtifactField(again), default) == SafeText(ArtifactField(payload), default)
  {
    SafeTextAgain(ArtifactField(payload), default);
  }

  /** With a clean default the result is clean. */
  lemma SafeTextClean(v: Value, default: string)
    requires Clean(default)
    ensures Clean(SafeText(v, default))
  {
  }

  /** Clean text comes back as itself, whatever the default. */
  lemma CleanAgain(s: string, default: string)
    requires Clean(s)
    ensures SafeText(Str(s), default) == s
  {
  }

  /** A stored task name is never blank, so the fallback to `source` is not
      taken again. */
  lemma TaskNameAgain(payload: Value, again: Value)
    requires GetOrNull(again, "task_name") == Str(SafeText(GetOrNull(payload, "task_name"), SafeText(GetOrNull(payload, "source"), "pipeline-operation")))
    ensures SafeText(GetOrNull(again, "task_name"), SafeText(GetOrNull(again, "source"), "pipeline-operation"))
            == SafeText(GetOrNull(payload, "task_name"), SafeText(GetOrNull(payload, "source"), "pipeline-operation"))
  {
    DefaultsClean();
    var source := SafeText(GetOrNull(payload, "source"), "pipeline-operation");
    SafeTextClean(GetOrNull(payload, "source"), "pipeline-operation");
    SafeTextClean(GetOrNull(payload, "task_name"), source);
    CleanAgain(SafeText(GetOrNull(payload, "task_name"), source), SafeText(GetOrNull(again, "source"), "pipeline-operation"));
  }

  lemma TextsAgain(payload: Value, again: Value, runId: string, defaultArtifact: string)
    requires PyStr.Strip(runId) == runId && PyStr.Strip(defaultArtifact) == defaultArtifact
    requires StoresTexts(again, BuildTexts(payload, runId, defaultArtifact))
    ensures BuildTexts(again, runId, defaultArtifact) == BuildTexts(payload, runId, defaultArtifact)
  {
    DefaultsClean();
    FieldAgain(payload, again, "run_id", runId);
    ArtifactAgain(payload, again, defaultArtifact);
    FieldAgain(payload, again, "status", "in_progress");
    TaskNameAgain(payload, again);
    FieldAgain(payload, again, "mode", "pipeline");
    FieldAgain(payload, again, "action", "record");
    FieldAgain(payload, again, "script", ScriptName);
  }

  lemma ExtrasAgain(payload: Value, again: Value)
    requires StoresExtras(again, BuildExtras(payload))
    ensures BuildExtras(again) == BuildExtras(payload)
  {
  }

  /** Filling in the metadata a second time adds nothing. */
  lemma MetadataAgain(payload: Value, again: Value)
    requires GetOrNull(again, "metadata") == Object(Metadata(payload))
    ensures Metadata(again) == Metadata(payload)
  {
    var m := Metadata(payload);
    MetadataLookup(payload, "schema_version");
    MetadataLookup(payload, "cc_coupling_id");
    MetadataLookup(payload, "required_skill_ids");
    assert PayloadMetadata(again) == m;
  }

  /** Normalisation is idempotent: a payload holding the dict `build_common`
      returned normalises to the same dict, for a run id and default artifact
      that are themselves stripped (as `main` passes them). */
  lemma BuildCommonAgain(payload: Value, again: Value, runId: string, defaultArtifact: string)
    requires PyStr.Strip(runId) == runId && PyStr.Strip(defaultArtifact) == defaultArtifact
    requires StoresCommon(again, BuildCommon(payload, runId, defaultArtifact))
    ensures BuildCommon(again, runId, defaultArtifact) == BuildCommon(payload, runId, defaultArtifact)
  {
    TextsAgain(payload, again, runId, defaultArtifact);
    ExtrasAgain(payload, again);
    MetadataAgain(payload, again);
    AsListAgain(GetOrNull(payload, "errors"));
    AsListAgain(GetOrNull(payload, "warnings"));
    AsListAgain(GetOrNull(payload, "next_actions"));
  }

  // ---------------------------------------------------------------- notes

  /** One `label=a; b; c` group, or nothing for an empty list. */
  function Group(name: string, xs: seq<string>): (g: seq<string>)
    ensures |g| == if |xs| == 0 then 0 else 1
  {
    if |xs| == 0 then [] else [name + "=" + PyStr.Join(xs, "; ")]
  }

  /** The notes `insert_audit_row` writes: the non-empty groups of errors,
      warnings and next actions joined by ` | `, and SQL NULL when all three
      are empty. */
  function Notes(errors: seq<string>, warnings: seq<string>, nextActions: seq<string>): (r: Option<string>)
    ensures r.None? <==> errors == [] && warnings == [] && nextActions == []
    ensures r.Some? ==> (PyStr.StartsWith(r.value, "errors=") <==> errors != [])
    ensures errors == [] && warnings != [] ==> r.Some? && PyStr.StartsWith(r.value, "warnings=")
    ensures errors == [] && warnings == [] && nextActions != [] ==>
              r == Some("next_actions=" + PyStr.Join(nextActions, "; "))
  {
    var parts := Group("errors", errors) + Group("warnings", warnings) + Group("next_actions", nextActions);
    if |parts| == 0 then None
    else
      JoinStartsWith(parts, " | ");
      assert parts[0] == (if errors != [] then "errors=" + PyStr.Join(errors, "; ")
                          else if warnings != [] then "warnings=" + PyStr.Join(warnings, "; ")
                          else "next_actions=" + PyStr.Join(nextActions, "; "));
      PrefixOfPrefix(PyStr.Join(parts, " | "), parts[0], "errors=");
      PrefixOfPrefix(PyStr.Join(parts, " | "), parts[0], "warnings=");
      var j := PyStr.Join(parts, " | ");
      assert errors == [] && |j| >= 7 ==> j[0] != 'e';
      Some(j)
  }

  /** A join starts with its first part. */
  lemma JoinStartsWith(parts: seq<string>, sep: string)
    requires |parts| > 0
    ensures PyStr.StartsWith(PyStr.Join(parts, sep), parts[0])
  {
    var j := PyStr.Join(parts, sep);
    if |parts| > 1 {
      assert j == parts[0] + (sep + PyStr.Join(parts[1..], sep));
      assert j[..|parts[0]|] == parts[0];
    }
  }

  /** A prefix of a prefix is a prefix. */
  lemma PrefixOfPrefix(s: string, p: string, q: string)
    requires PyStr.StartsWith(s, p)
    ensures PyStr.StartsWith(p, q) ==> PyStr.StartsWith(s, q)
    ensures |q| <= |p| && !PyStr.StartsWith(p, q) ==> !PyStr.StartsWith(s, q)
  {
    if |q| <= |p| {
      assert s[..|q|] == p[..|q|];
    }
  }

  // ---------------------------------------------------------------- rows

  datatype AuditRow = AuditRow(
    id: string,
    taskName: string,
    mode: string,
    action: string,
    inputPath: string,
    outputPath: string,
    scriptPath: string,
    status: string,
    notes: Option<string>,
    contextForNext: string,
    continuationHint: Option<string>,
    transitionRepeated: int,
    transitionReuse: int,
    transitionDecision: int,
    workType: Value,
    triggeredBy: Value,
    durationSec: Value,
    filesAffected: Value,
    sprint: Value,
    patternTag: Value,
    sessionId: Value,
    intent: Value)

  /** `insert_audit_row(cur, common, task_id)`: the row written to `audit_logs`.
      The common fields never carry `notes`, so the notes are always the
      assembled groups. */
  function AuditRowOf(c: Common, taskId: string): (row: AuditRow)
    ensures row.id == taskId
    ensures row.inputPath == row.outputPath == c.texts.artifactUri
    ensures row.notes == Notes(c.errors, c.warnings, c.nextActions)
    ensures row.continuationHint.None? || Clean(row.continuationHint.value)
    ensures row.transitionRepeated == 1 <==> Lookup(c.metadata, "transition_repeated").Some? && Truthy(Lookup(c.metadata, "transition_repeated").value)
    ensures row.transitionReuse == 1 <==> Lookup(c.metadata, "transition_reuse").Some? && Truthy(Lookup(c.metadata, "transition_reuse").value)
    ensures row.transitionDecision == 1 <==> Lookup(c.metadata, "transition_decision").Some? && Truthy(Lookup(c.metadata, "transition_decision").value)
  {
    var meta := Object(c.metadata);
    var hint := SafeText(GetOr(meta, "continuation_hint", Str("")), "");
    AuditRow(
      taskId, c.texts.taskName, c.texts.mode, c.texts.action, c.texts.artifactUri, c.texts.artifactUri,
      c.texts.script, c.texts.status,
      Notes(c.errors, c.warnings, c.nextActions),
      SafeText(GetOr(meta, "context_for_next", Str("")), ""),
      if hint == "" then None else Some(hint),
      ToBoolInt(GetOr(meta, "transition_repeated", Int(0))),
      ToBoolInt(GetOr(meta, "transition_reuse", Int(0))),
      ToBoolInt(GetOr(meta, "transition_decision", Int(0))),
      c.extras.workType, c.extras.triggeredBy, c.extras.durationSec, c.extras.filesAffected,
      c.extras.sprint, c.extras.patternTag, c.extras.sessionId, c.extras.intent)
  }

  datatype DecisionRow = DecisionRow(
    id: string,
    title: string,
    context: string,
    content: string,
    requestedBy: string,
    approvedBy: Option<string>,
    relatedAuditId: string)

  /** `f"DEC-{task_id}-{idx:02d}"`: at least two digits, more from 100 on. */
  function GeneratedDecisionId(taskId: string, idx: nat): string {
    "DEC-" + taskId + "-" + PyStr.ZeroPad(idx, 2)
  }

  /** Generated ids of one task never collide: the number reads back. */
  lemma GeneratedDecisionIdsDistinct(taskId: string, i: nat, j: nat)
    requires GeneratedDecisionId(taskId, i) == GeneratedDecisionId(taskId, j)
    ensures i == j
  {
    var p := "DEC-" + taskId + "-";
    assert GeneratedDecisionId(taskId, i)[|p|..] == PyStr.ZeroPad(i, 2);
    assert GeneratedDecisionId(taskId, j)[|p|..] == PyStr.ZeroPad(j, 2);
    PyStr.ParseZeroPad(i, 2);
    PyStr.ParseZeroPad(j, 2);
  }

  /** `decision_content`, falling back to `content` when that one is falsy. */
  function ContentField(d: Value): Value {
    var dc := GetOrNull(d, "decision_content");
    if Truthy(dc) then dc else GetOrNull(d, "content")
  }

  /** The `decisions` row for one decision dict, the `idx`-th counting from 1. */
  function RowFor(taskId: string, idx: nat, d: Value): DecisionRow {
    var approved := SafeText(GetOrNull(d, "approved_by"), "");
    DecisionRow(
      SafeText(GetOrNull(d, "id"), GeneratedDecisionId(taskId, idx)),
      SafeText(GetOrNull(d, "title"), "Pipeline decision"),
      SafeText(GetOrNull(d, "context"), ""),
      SafeText(ContentField(d), ""),
      SafeText(GetOrNull(d, "requested_by"), "orchestrator"),
      if approved == "" then None else Some(approved),
      taskId)
  }

  /** A decision without a usable id gets the generated one; otherwise its own
      id, stripped. */
  lemma RowForId(taskId: string, idx: nat, d: Value)
    ensures SafeText(GetOrNull(d, "id"), "") == "" ==> RowFor(taskId, idx, d).id == GeneratedDecisionId(taskId, idx)
    ensures SafeText(GetOrNull(d, "id"), "") != "" ==> RowFor(taskId, idx, d).id == SafeText(GetOrNull(d, "id"), "")
    ensures RowFor(taskId, idx, d).approvedBy.None? || Clean(RowFor(taskId, idx, d).approvedBy.value)
  {
  }

  /** The rows for `items`, numbered from 1. Python stops at the first item
      that is not a dict (it has no `.get`); the transaction then writes
      nothing, so the outcome is an error whichever item it was. */
  function DecisionRowsOf(taskId: string, items: seq<Value>): (r: Result<seq<DecisionRow>>)
    ensures r.Ok? <==> forall i :: 0 <= i < |items| ==> items[i].Object?
    ensures r.Ok? ==> |r.value| == |items|
    ensures r.Ok? ==> forall i :: 0 <= i < |items| ==> r.value[i].relatedAuditId == taskId
  {
    if forall i :: 0 <= i < |items| ==> items[i].Object? then
      Ok(seq(|items|, i requires 0 <= i < |items| => RowFor(taskId, 1 + i, items[i])))
    else Err("decision has no attribute 'get'")
  }

  /** `insert_decision_rows(cur, task_id, decisions)`: nothing for a falsy
      value; a list of dicts gives one row each, every row pointing at the
      audit row; anything else raises (a string or dict iterates to strings, a
      number is not iterable). */
  function DecisionRows(taskId: string, decisions: Value): (r: Result<seq<DecisionRow>>)
    ensures r.Ok? <==> !Truthy(decisions) || (decisions.List? && forall i :: 0 <= i < |decisions.items| ==> decisions.items[i].Object?)
    ensures r.Ok? && decisions.List? ==> |r.value| == |decisions.items|
    ensures r.Ok? ==> forall i :: 0 <= i < |r.value| ==> r.value[i].relatedAuditId == taskId
  {
    if !Truthy(decisions) then Ok([])
    else if decisions.List? then DecisionRowsOf(taskId, decisions.items)
    else Err("decisions are not a list of objects")
  }

  /** A blank id falls back to whatever default is given. */
  lemma SafeTextBlank(v: Value, default: string)
    requires SafeText(v, "") == ""
    ensures SafeText(v, default) == default
  {
  }

  /** Two rows of one payload that both lack an id get different ids. */
  lemma DecisionIdsDistinct(taskId: string, items: seq<Value>, rows: seq<DecisionRow>, i: nat, j: nat)
    requires DecisionRowsOf(taskId, items) == Ok(rows)
    requires i < j < |items|
    requires SafeText(GetOrNull(items[i], "id"), "") == "" && SafeText(GetOrNull(items[j], "id"), "") == ""
    ensures rows[i].id != rows[j].id
  {
    RowForId(taskId, 1 + i, items[i]);
    RowForId(taskId, 1 + j, items[j]);
    if rows[i].id == rows[j].id {
      GeneratedDecisionIdsDistinct(taskId, 1 + i, 1 + j);
    }
  }

  // ---------------------------------------------------------------- INSERT OR REPLACE

  /** The rows written one after another into a table keyed by id. */
  function Upsert(table: map<string, DecisionRow>, rows: seq<DecisionRow>): map<string, DecisionRow>
    decreases |rows|
  {
    if |rows| == 0 then table else Upsert(table[rows[0].id := rows[0]], rows[1..])
  }

  /** The last row with the given id, looking from the end. */
  function LastRow(rows: seq<DecisionRow>, id: string): (r: Option<DecisionRow>)
    ensures r.Some? ==> r.value in rows && r.value.id == id
    ensures r.None? <==> forall i :: 0 <= i < |rows| ==> rows[i].id != id
    decreases |rows|
  {
    if |rows| == 0 then None
    else if rows[|rows| - 1].id == id then Some(rows[|rows| - 1])
    else
      var r := LastRow(rows[..|rows| - 1], id);
      assert forall i :: 0 <= i < |rows| - 1 ==> rows[i] == rows[..|rows| - 1][i];
      r
  }

  lemma {:induction false} UpsertSnoc(table: map<string, DecisionRow>, rows: seq<DecisionRow>, x: DecisionRow)
    ensures Upsert(table, rows + [x]) == Upsert(table, rows)[x.id := x]
    decreases |rows|
  {
    if |rows| > 0 {
      assert (rows + [x])[1..] == rows[1..] + [x];
      UpsertSnoc(table[rows[0].id := rows[0]], rows[1..], x);
    }
  }

  /** `INSERT OR REPLACE`: after writing the rows, an id holds the last row
      written with it, and ids no row used keep what the table had. */
  lemma {:induction false} UpsertLastWins(table: map<string, DecisionRow>, rows: seq<DecisionRow>, id: string)
    ensures id in Upsert(table, rows) <==> LastRow(rows, id).Some? || id in table
    ensures LastRow(rows, id).Some? ==> Upsert(table, rows)[id] == LastRow(rows, id).value
    ensures LastRow(rows, id).None? && id in table ==> Upsert(table, rows)[id] == table[id]
    decreases |rows|
  {
    if |rows| > 0 {
      var init := rows[..|rows| - 1];
      var x := rows[|rows| - 1];
      assert rows == init + [x];
      UpsertSnoc(table, init, x);
      UpsertLastWins(table, init, id);
    }
  }

  // ---------------------------------------------------------------- main

  datatype Written = Written(audit: AuditRow, decisions: seq<DecisionRow>)

  /** Every decision row written points at the audit row written with it. */
  predicate Linked(w: Written) {
    forall i :: 0 <= i < |w.decisions| ==> w.decisions[i].relatedAuditId == w.audit.id
  }

  /** A value sqlite3 binds as a statement parameter: `None`, a `bool` or an
      `int` within 64 bits, or a `str`. A list or dict raises
      ProgrammingError and a wider int raises OverflowError. */
  predicate Bindable(v: Value) {
    match v
    case Null => true
    case Bool(_) => true
    case Int(i) => -0x8000_0000_0000_0000 <= i < 0x8000_0000_0000_0000
    case Str(_) => true
    case _ => false
  }

  /** The extra fields of the audit row can all be bound. */
  predicate ExtrasBindable(e: Extras) {
    Bindable(e.workType) && Bindable(e.triggeredBy) && Bindable(e.durationSec) && Bindable(e.filesAffected)
    && Bindable(e.sprint) && Bindable(e.patternTag) && Bindable(e.sessionId) && Bindable(e.intent)
  }

  /** The same condition read off the payload: a `files_affected` list is
      bound as its JSON text, every other extra as it is. */
  predicate PayloadBindable(payload: Value) {
    var files := GetOrNull(payload, "files_affected");
    Bindable(GetOrNull(payload, "work_type")) && Bindable(GetOrNull(payload, "triggered_by"))
    && Bindable(GetOrNull(payload, "duration_sec")) && (files.List? || Bindable(files))
    && Bindable(GetOrNull(payload, "sprint")) && Bindable(GetOrNull(payload, "pattern_tag"))
    && Bindable(GetOrNull(payload, "session_id")) && Bindable(GetOrNull(payload, "intent"))
  }

  lemma PayloadBindableExtras(payload: Value)
    ensures PayloadBindable(payload) <==> ExtrasBindable(BuildExtras(payload))
  {
  }

  /** `main()` after parsing arguments: the payload must be a dict and the
      database must exist; the audit row and then the decision rows are
      written in one transaction, so a value sqlite3 cannot bind or a bad
      decision list writes nothing. `genTaskId` stands for `gen_task_id`,
      which reads the clock and hashes the run id. */
  function Append(payload: Value, dbExists: bool, genTaskId: string -> string): (r: Result<Written>)
    ensures r.Ok? <==> payload.Object? && dbExists && PayloadBindable(payload)
                       && DecisionRows("", GetOr(payload, "decisions", List([]))).Ok?
    ensures r.Ok? ==> Linked(r.value)
    ensures r.Ok? ==> r.value.audit.id == SafeText(GetOrNull(payload, "task_id"), genTaskId(SafeText(GetOrNull(payload, "run_id"), "")))
  {
    if !payload.Object? then Err("payload must be a JSON object")
    else if !dbExists then Err("DB not found")
    else if !PayloadBindable(payload) then Err("Error binding parameter: type is not supported")
    else
      var runId := SafeText(GetOrNull(payload, "run_id"), "");
      var common := BuildCommon(payload, runId, "");
      var taskId := SafeText(GetOrNull(payload, "task_id"), genTaskId(common.texts.runId));
      var decisions := DecisionRows(taskId, GetOr(payload, "decisions", List([])));
      if decisions.Err? then Err(decisions.error)
      else Ok(Written(AuditRowOf(common, taskId), decisions.value))
  }
}
