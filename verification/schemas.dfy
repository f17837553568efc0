/** Payload validation for bus messages and run manifests when no JSON Schema
    library is installed: each schema name has a fixed list of required
    top-level fields. Strict mode turns a non-empty error list into a raised
    error; warn mode hands the list back. */
module Schemas {
  import opened Results
  import opened Json

  const TaskHandoffSchema := "task-handoff.schema.json"
  const OutputReportSchema := "output-report.schema.json"
  const BusMessageSchema := "bus-message.schema.json"
  const RunManifestSchema := "run-manifest.schema.json"

  const NotAnObject := "payload must be an object"

  function MissingField(field: string): string {
    "missing required field: " + field
  }

  /** The required fields of the fields-present check, in list order. */
  function MissingFields(payload: Value, required: seq<string>): (r: seq<string>)
    requires payload.Object?
    ensures |r| <= |required|
    ensures forall f :: f in required && !Has(payload, f) ==> MissingField(f) in r
    ensures forall k :: 0 <= k < |r| ==> exists f :: f in required && !Has(payload, f) && r[k] == MissingField(f)
    ensures |r| == 0 <==> forall f :: f in required ==> Has(payload, f)
  {
    if |required| == 0 then []
    else
      var rest := MissingFields(payload, required[1..]);
      assert forall f :: f in required ==> f == required[0] || f in required[1..];
      if Has(payload, required[0]) then rest else [MissingField(required[0])] + rest
  }

  /** `_fallback_required_check`. */
  function FallbackRequiredCheck(payload: Value, required: seq<string>): (r: seq<string>)
    ensures !payload.Object? ==> r == [NotAnObject]
    ensures payload.Object? ==> r == MissingFields(payload, required)
  {
    if !payload.Object? then [NotAnObject] else MissingFields(payload, required)
  }

  const HandoffFields := ["run_id", "task_id", "phase", "owner_agent", "role", "objective", "allowed_paths", "constraints"]
  const ReportFields := ["run_id", "task_id", "status", "exit_code", "changed_files", "summary", "next_action"]
  const BusFields := ["id", "trace_id", "thread_id", "from_agent", "to_agent", "type", "payload", "status", "attempt",
                      "created_at", "updated_at"]
  const ManifestFields := ["run_id", "created_at", "status", "tasks", "config_hash", "system_rules_hash"]

  /** The required-field list of each schema the fallback knows. */
  function RequiredFields(schemaName: string): (r: Option<seq<string>>)
    ensures r.Some? <==> schemaName in {TaskHandoffSchema, OutputReportSchema, BusMessageSchema, RunManifestSchema}
  {
    if schemaName == TaskHandoffSchema then Some(HandoffFields)
    else if schemaName == OutputReportSchema then Some(ReportFields)
    else if schemaName == BusMessageSchema then Some(BusFields)
    else if schemaName == RunManifestSchema then Some(ManifestFields)
    else None
  }

  /** The payload passes the fallback check: an object with every required field. */
  predicate Conforms(payload: Value, required: seq<string>) {
    payload.Object? && forall f :: f in required ==> Has(payload, f)
  }

  /** The errors the fallback check may report: the object error for a
      non-object, otherwise one error per missing required field. */
  predicate Reported(required: seq<string>, payload: Value, e: string) {
    if payload.Object? then exists f :: f in required && !Has(payload, f) && e == MissingField(f)
    else e == NotAnObject
  }

  /** `_validate` on its fallback path; an unknown schema name yields no
      errors, a known one exactly the errors of its field list. */
  function Validate(schemaName: string, payload: Value): (r: seq<string>)
    ensures RequiredFields(schemaName).None? ==> r == []
    ensures RequiredFields(schemaName).Some? ==> forall e :: e in r <==> Reported(RequiredFields(schemaName).value, payload, e)
    ensures |r| == 0 <==> RequiredFields(schemaName).None? || Conforms(payload, RequiredFields(schemaName).value)
  {
    match RequiredFields(schemaName)
    case None => []
    case Some(fields) => FallbackRequiredCheck(payload, fields)
  }

  /** `_apply_mode`: raises exactly when strict and there are errors; otherwise
      the errors come back unchanged. */
  function ApplyMode(errors: seq<string>, strict: bool, what: string): (r: Result<seq<string>>)
    ensures r.Err? <==> strict && |errors| > 0
    ensures r.Ok? ==> r.value == errors
  {
    if |errors| > 0 && strict then Err(what + " validation failed: " + JoinErrors(errors)) else Ok(errors)
  }

  function JoinErrors(errors: seq<string>): string {
    if |errors| == 0 then "" else if |errors| == 1 then errors[0] else errors[0] + "; " + JoinErrors(errors[1..])
  }

  /** The required fields of the message types that carry a checked payload. */
  function TypeFields(msgType: string): Option<seq<string>> {
    if msgType == "TASK_REQUEST" then Some(HandoffFields)
    else if msgType == "TASK_RESULT" then Some(ReportFields)
    else None
  }

  /** `validate_payload_by_type`: only requests and results are checked. Strict
      mode raises exactly when a checked payload fails its schema; otherwise
      the errors are exactly the reported ones. */
  function ValidatePayloadByType(msgType: string, payload: Value, strict: bool): (r: Result<seq<string>>)
    ensures r.Err? <==> strict && TypeFields(msgType).Some? && !Conforms(payload, TypeFields(msgType).value)
    ensures r.Ok? ==> forall e :: e in r.value <==> TypeFields(msgType).Some? && Reported(TypeFields(msgType).value, payload, e)
  {
    if msgType == "TASK_REQUEST" then ApplyMode(Validate(TaskHandoffSchema, payload), strict, "TASK_REQUEST payload")
    else if msgType == "TASK_RESULT" then ApplyMode(Validate(OutputReportSchema, payload), strict, "TASK_RESULT payload")
    else Ok([])
  }

  /** `validate_run_manifest`. */
  function ValidateRunManifest(payload: Value, strict: bool): (r: Result<seq<string>>)
    ensures r.Err? <==> strict && !Conforms(payload, ManifestFields)
    ensures r.Ok? ==> forall e :: e in r.value <==> Reported(ManifestFields, payload, e)
  {
    ApplyMode(Validate(RunManifestSchema, payload), strict, "run manifest")
  }

  /** Warn mode never raises, whatever the payload. */
  lemma WarnModeNeverRaises(msgType: string, payload: Value)
    ensures ValidatePayloadByType(msgType, payload, false).Ok?
    ensures ValidateRunManifest(payload, false).Ok?
  {
  }

  /** A non-object payload of a checked type gets exactly the one
      "payload must be an object" error. */
  lemma NonObjectSingleError(payload: Value)
    requires !payload.Object?
    ensures ValidatePayloadByType("TASK_REQUEST", payload, false) == Ok([NotAnObject])
    ensures ValidatePayloadByType("TASK_RESULT", payload, false) == Ok([NotAnObject])
  {
  }
}
