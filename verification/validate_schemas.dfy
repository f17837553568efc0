/** The schema validator of the governance skill when the `jsonschema`
    library is absent: a hand-written required-field, type and enum check,
    the frontmatter scalar reader, the manifest-index reader, and the status
    record of one validation target. Loading files and JSON decoding arrive
    as inputs. */
module SchemaValidate {
  import opened Results
  import opened Json
  import PyStr

  // ---------------------------------------------------------------- types

  /** The strings of a list, in order. */
  function StringsOf(items: seq<Value>): seq<string>
    decreases |items|
  {
    if |items| == 0 then []
    else (if items[0].Str? then [items[0].s] else []) + StringsOf(items[1..])
  }

  /** Exactly the strings of the list are kept, and nothing is lost iff every
      item is a string. */
  lemma {:induction false} StringsOfMembers(items: seq<Value>)
    ensures forall x :: x in StringsOf(items) <==> Str(x) in items
    ensures |StringsOf(items)| <= |items|
    ensures |StringsOf(items)| == |items| <==> forall i :: 0 <= i < |items| ==> items[i].Str?
    decreases |items|
  {
    if |items| > 0 {
      StringsOfMembers(items[1..]);
      assert forall x :: Str(x) in items <==> Str(x) == items[0] || Str(x) in items[1..];
      assert forall i :: 1 <= i < |items| ==> items[i] == items[1..][i - 1];
    }
  }

  /** Filtering strings distributes over concatenation, so their order is kept. */
  lemma {:induction false} StringsOfAppend(a: seq<Value>, b: seq<Value>)
    ensures StringsOf(a + b) == StringsOf(a) + StringsOf(b)
    decreases |a|
  {
    if |a| == 0 {
      assert a + b == b;
    } else {
      assert (a + b)[0] == a[0];
      assert (a + b)[1..] == a[1..] + b;
      StringsOfAppend(a[1..], b);
    }
  }

  /** `normalize_schema_types`: a string is its own list, a list keeps only
      its strings, anything else declares no type. */
  function NormalizeSchemaTypes(v: Value): (r: seq<string>)
    ensures v.Str? ==> r == [v.s]
    ensures v.List? ==> forall x :: x in r <==> Str(x) in v.items
    ensures v.List? ==> (|r| == |v.items| <==> forall i :: 0 <= i < |v.items| ==> v.items[i].Str?)
    ensures !v.Str? && !v.List? ==> r == []
  {
    if v.Str? then [v.s]
    else if v.List? then
      StringsOfMembers(v.items);
      StringsOf(v.items)
    else []
  }

  /** The JSON Schema type names a value satisfies under Python's
      `isinstance`, where `bool` is a subclass of `int`; `integer` is the one
      name the checker narrows to exclude booleans. */
  function TypeNames(v: Value): set<string> {
    if v.Null? then {"null"}
    else if v.Bool? then {"boolean", "number"}
    else if v.Int? then {"integer", "number"}
    else if v.Str? then {"string"}
    else if v.List? then {"array"}
    else {"object"}
  }

  /** `isinstance(value, JSONSCHEMA_TYPES[name])`; false for a name the table
      does not hold. */
  predicate IsInstance(v: Value, name: string) {
    (name == "string" && v.Str?) || (name == "integer" && (v.Int? || v.Bool?))
    || (name == "number" && (v.Int? || v.Bool?)) || (name == "boolean" && v.Bool?)
    || (name == "object" && v.Object?) || (name == "array" && v.List?) || (name == "null" && v.Null?)
  }

  /** The loop of `fallback_type_check` over the declared names. */
  function AnyTypeMatches(v: Value, names: seq<string>): bool
    decreases |names|
  {
    if |names| == 0 then false
    else if names[0] == "null" && v.Null? then true
    else if names[0] == "integer" then v.Int? || AnyTypeMatches(v, names[1..])
    else IsInstance(v, names[0]) || AnyTypeMatches(v, names[1..])
  }

  lemma {:induction false} AnyTypeMatchesIff(v: Value, names: seq<string>)
    ensures AnyTypeMatches(v, names) <==> exists i :: 0 <= i < |names| && names[i] in TypeNames(v)
    decreases |names|
  {
    if |names| > 0 {
      AnyTypeMatchesIff(v, names[1..]);
      assert forall i :: 1 <= i < |names| ==> names[i] == names[1..][i - 1];
      assert names[0] in TypeNames(v) ==> exists i :: 0 <= i < |names| && names[i] in TypeNames(v);
      if exists i :: 0 <= i < |names| && names[i] in TypeNames(v) {
        var i :| 0 <= i < |names| && names[i] in TypeNames(v);
        if i > 0 {
          assert names[1..][i - 1] in TypeNames(v);
        }
      }
    }
  }

  /** `fallback_type_check`: no declared type accepts anything; otherwise
      some declared name must fit the value. Booleans pass as `number` but not
      as `integer`, and only `None` passes as `null`. */
  function FallbackTypeCheck(v: Value, names: seq<string>): (ok: bool)
    ensures ok <==> |names| == 0 || exists i :: 0 <= i < |names| && names[i] in TypeNames(v)
  {
    AnyTypeMatchesIff(v, names);
    |names| == 0 || AnyTypeMatches(v, names)
  }

  // ---------------------------------------------------------------- fallback checks

  const NotAnObject := "payload is not an object"

  function MissingFinding(name: Value): string {
    "missing required field: " + ToStr(name)
  }

  /** `name in payload` for a hashable name: only strings can be keys of a
      decoded JSON object. */
  predicate Present(payload: Value, name: Value) {
    name.Str? && Has(payload, name.s)
  }

  /** `value in enum_values`, with Python's `==`. */
  predicate InEnum(v: Value, options: seq<Value>) {
    exists i :: 0 <= i < |options| && PyEq(v, options[i])
  }

  /** The schema entry of a property, when it is a dict. */
  function PropertyInfo(properties: Value, name: string): Option<Value> {
    var info := GetOrNull(properties, name);
    if info.Object? then Some(info) else None
  }

  /** A required name that is present and whose value fits the declared
      types and enum, if any. */
  predicate FieldPasses(name: Value, payload: Value, properties: Value) {
    Present(payload, name)
    && (PropertyInfo(properties, name.s).None?
        || var info := PropertyInfo(properties, name.s).value;
           var value := GetOrNull(payload, name.s);
           var types := NormalizeSchemaTypes(GetOrNull(info, "type"));
           var options := GetOrNull(info, "enum");
           (|types| == 0 || FallbackTypeCheck(value, types)) && (!options.List? || InEnum(value, options.items)))
  }

  /** The findings of one declared type and enum, for a present field. */
  function ValueFindings(name: string, value: Value, info: Value): (r: seq<string>)
    ensures |r| <= 2
    ensures forall k :: 0 <= k < |r| ==> PyStr.StartsWith(r[k], name + ": ")
  {
    var types := NormalizeSchemaTypes(GetOrNull(info, "type"));
    var options := GetOrNull(info, "enum");
    var a := if |types| > 0 && !FallbackTypeCheck(value, types) then [name + ": expected " + PyStr.Join(types, "|")] else [];
    var b := if options.List? && !InEnum(value, options.items) then [name + ": value not in enum set"] else [];
    assert forall k :: 0 <= k < |a + b| ==>
             ((a + b)[k] == name + ": expected " + PyStr.Join(types, "|") || (a + b)[k] == name + ": value not in enum set");
    a + b
  }

  /** The findings of one required name: a list or dict name cannot be looked
      up (Python raises), a missing field gives exactly one finding and skips
      the type and enum checks, a present one at most two, each naming it. */
  function NameFindings(name: Value, payload: Value, properties: Value): (r: Result<seq<string>>)
    ensures r.Err? <==> name.List? || name.Object?
    ensures r.Ok? && !Present(payload, name) ==> r.value == [MissingFinding(name)]
    ensures r.Ok? && Present(payload, name) ==>
              |r.value| <= 2 && forall k :: 0 <= k < |r.value| ==> PyStr.StartsWith(r.value[k], name.s + ": ")
    ensures r.Ok? ==> (r.value == [] <==> FieldPasses(name, payload, properties))
  {
    if name.List? || name.Object? then Err("unhashable type: " + TypeLabel(name))
    else if !Present(payload, name) then Ok([MissingFinding(name)])
    else
      match PropertyInfo(properties, name.s)
      case None => Ok([])
      case Some(info) => Ok(ValueFindings(name.s, GetOrNull(payload, name.s), info))
  }

  function TypeLabel(v: Value): string {
    if v.List? then "'list'" else "'dict'"
  }

  /** The loop over the required names, findings in name order. */
  function NamesFindings(names: seq<Value>, payload: Value, properties: Value): (r: Result<seq<string>>)
    ensures r.Err? <==> exists i :: 0 <= i < |names| && (names[i].List? || names[i].Object?)
    ensures r == Ok([]) <==> forall i :: 0 <= i < |names| ==> FieldPasses(names[i], payload, properties)
    decreases |names|
  {
    if |names| == 0 then Ok([])
    else
      var head := NameFindings(names[0], payload, properties);
      var rest := NamesFindings(names[1..], payload, properties);
      NamesSplit(names, payload, properties);
      if head.Err? then head
      else if rest.Err? then rest
      else
        assert |head.value + rest.value| == |head.value| + |rest.value|;
        Ok(head.value + rest.value)
  }

  /** Both quantifiers over the names split into the first name and the rest. */
  lemma NamesSplit(names: seq<Value>, payload: Value, properties: Value)
    requires |names| > 0
    ensures (exists i :: 0 <= i < |names| && (names[i].List? || names[i].Object?))
            <==> (names[0].List? || names[0].Object?)
                 || exists i :: 0 <= i < |names[1..]| && (names[1..][i].List? || names[1..][i].Object?)
    ensures (forall i :: 0 <= i < |names| ==> FieldPasses(names[i], payload, properties))
            <==> FieldPasses(names[0], payload, properties)
                 && forall i :: 0 <= i < |names[1..]| ==> FieldPasses(names[1..][i], payload, properties)
  {
    assert forall i :: 1 <= i < |names| ==> names[i] == names[1..][i - 1];
    if exists i :: 0 <= i < |names| && (names[i].List? || names[i].Object?) {
      var i :| 0 <= i < |names| && (names[i].List? || names[i].Object?);
      if i > 0 {
        assert names[1..][i - 1] == names[i];
      }
    }
  }

  /** `fallback_checks`. A non-dict payload gives the one finding
      `payload is not an object`; a non-dict schema cannot be read (Python
      raises). A `required` or `properties` entry of the wrong shape counts
      as empty. */
  function FallbackChecks(payload: Value, schema: Value): (r: Result<seq<string>>)
    ensures !payload.Object? ==> r == Ok([NotAnObject])
    ensures payload.Object? && !schema.Object? ==> r.Err?
    ensures payload.Object? && schema.Object? ==> r == NamesFindings(RequiredNames(schema), payload, Properties(schema))
  {
    if !payload.Object? then Ok([NotAnObject])
    else if !schema.Object? then Err("'" + TypeText(schema) + "' object has no attribute 'get'")
    else NamesFindings(RequiredNames(schema), payload, Properties(schema))
  }

  function TypeText(v: Value): string {
    if v.Null? then "NoneType" else if v.Bool? then "bool" else if v.Int? then "int"
    else if v.Str? then "str" else if v.List? then "list" else "dict"
  }

  /** `schema.get("required", [])`, treated as empty unless a list. */
  function RequiredNames(schema: Value): seq<Value> {
    var v := GetOr(schema, "required", List([]));
    if v.List? then v.items else []
  }

  /** `schema.get("properties", {})`, treated as empty unless a dict. */
  function Properties(schema: Value): Value {
    var v := GetOr(schema, "properties", Object([]));
    if v.Object? then v else Object([])
  }

  // ---------------------------------------------------------------- frontmatter scalars

  /** The raw text with whitespace, then quotes, stripped. */
  function Unquoted(raw: string): string {
    PyStr.StripChars(PyStr.Strip(raw), {'"', '\''})
  }

  /** `_parse_frontmatter_scalar`, with `ast.literal_eval` as `eval` (`None`
      when it raises or yields a type outside the allowed ones). Empty text,
      `null` and `true`/`false` in any case are decided before any literal
      evaluation; what `eval` cannot read stays a string. */
  function ParseScalar(raw: string, eval: string -> Option<Value>): (r: Value)
    ensures Unquoted(raw) == "" ==> r == Str("")
    ensures Unquoted(raw) != "" && PyStr.Lower(Unquoted(raw)) == "null" ==> r == Null
    ensures Unquoted(raw) != "" && PyStr.Lower(Unquoted(raw)) in {"true", "false"} ==> r == Bool(PyStr.Lower(Unquoted(raw)) == "true")
    ensures Unquoted(raw) != "" && PyStr.Lower(Unquoted(raw)) !in {"null", "true", "false"} ==>
              r == (if eval(Unquoted(raw)).Some? then eval(Unquoted(raw)).value else Str(Unquoted(raw)))
  {
    var value := Unquoted(raw);
    if value == "" then Str("")
    else
      var lower := PyStr.Lower(value);
      if lower == "null" then Null
      else if lower == "true" || lower == "false" then Bool(lower == "true")
      else match eval(value)
        case Some(v) => v
        case None => Str(value)
  }

  /** The keywords do not depend on the literal evaluator. */
  lemma KeywordsBeforeEval(raw: string, e1: string -> Option<Value>, e2: string -> Option<Value>)
    requires PyStr.Lower(Unquoted(raw)) in {"null", "true", "false"} || Unquoted(raw) == ""
    ensures ParseScalar(raw, e1) == ParseScalar(raw, e2)
  {
  }

  // ---------------------------------------------------------------- manifest index

  /** The non-empty strings, in order. */
  function NonEmpty(xs: seq<string>): (r: seq<string>)
    ensures |r| <= |xs|
    decreases |xs|
  {
    if |xs| == 0 then []
    else if xs[|xs| - 1] == "" then NonEmpty(xs[..|xs| - 1])
    else NonEmpty(xs[..|xs| - 1]) + [xs[|xs| - 1]]
  }

  /** Nothing is kept exactly when every string is empty, and the last one
      kept is the last non-empty string. */
  lemma NonEmptyLast(xs: seq<string>)
    ensures NonEmpty(xs) == [] <==> forall i :: 0 <= i < |xs| ==> xs[i] == ""
    ensures NonEmpty(xs) != [] ==> exists j :: (0 <= j < |xs| && xs[j] != "" && NonEmpty(xs)[|NonEmpty(xs)| - 1] == xs[j]
              && forall k :: j < k < |xs| ==> xs[k] == "")
  {
    NonEmptyNone(xs);
    if NonEmpty(xs) != [] {
      var j := NonEmptyLastKept(xs);
      assert EmptyAfter(xs, j);
    }
  }

  /** Every string after position `j` is empty. */
  ghost predicate EmptyAfter(xs: seq<string>, j: int) {
    forall k :: 0 <= k && j < k < |xs| ==> xs[k] == ""
  }

  lemma {:induction false} NonEmptyNone(xs: seq<string>)
    ensures NonEmpty(xs) == [] <==> EmptyAfter(xs, -1)
    decreases |xs|
  {
    if |xs| > 0 {
      var init := xs[..|xs| - 1];
      NonEmptyNone(init);
      assert forall i :: 0 <= i < |xs| - 1 ==> init[i] == xs[i];
    }
  }

  lemma {:induction false} NonEmptyLastKept(xs: seq<string>) returns (j: nat)
    requires NonEmpty(xs) != []
    ensures j < |xs| && xs[j] != "" && NonEmpty(xs)[|NonEmpty(xs)| - 1] == xs[j] && EmptyAfter(xs, j)
    decreases |xs|
  {
    var init := xs[..|xs| - 1];
    if xs[|xs| - 1] == "" {
      j := NonEmptyLastKept(init);
      assert xs[j] == init[j];
      assert forall k :: j < k < |init| ==> init[k] == xs[k];
    } else {
      j := |xs| - 1;
    }
  }

  function StripAll(lines: seq<string>): (r: seq<string>)
    ensures |r| == |lines| && forall i :: 0 <= i < |lines| ==> r[i] == PyStr.Strip(lines[i])
    decreases |lines|
  {
    if |lines| == 0 then [] else [PyStr.Strip(lines[0])] + StripAll(lines[1..])
  }

  /** `[line.strip() for line in lines if line.strip()]` */
  function NonBlankLines(lines: seq<string>): seq<string> {
    NonEmpty(StripAll(lines))
  }

  datatype IndexRecord = IndexMissing(error: string) | IndexInvalid(error: string) | IndexOk(record: Value)

  /** `_latest_index_record` on the index text (`None` when the file is
      absent), with `json.loads` as `parse`. */
  function LatestIndexRecord(path: string, text: Option<string>, parse: string -> Option<Value>): (r: IndexRecord)
    ensures r.IndexMissing? <==> text.None? || NonBlankLines(PyStr.SplitLines(text.value)) == []
    ensures r.IndexOk? ==> r.record.Object?
    ensures !r.IndexMissing? ==>
              var lines := NonBlankLines(PyStr.SplitLines(text.value));
              var last := parse(lines[|lines| - 1]);
              (r.IndexOk? <==> last.Some? && last.value.Object?) && (r.IndexOk? ==> r.record == last.value)
  {
    if text.None? then IndexMissing("index missing: " + path)
    else
      var lines := NonBlankLines(PyStr.SplitLines(text.value));
      NonEmptyLast(StripAll(PyStr.SplitLines(text.value)));
      if lines == [] then IndexMissing("index empty: " + path)
      else match parse(lines[|lines| - 1])
        case None => IndexInvalid("index parse error")
        case Some(v) => if v.Object? then IndexOk(v) else IndexInvalid("index record is not an object")
  }

  // ---------------------------------------------------------------- one target

  datatype SchemaFile = SchemaMissing(path: string) | SchemaUnparsable(error: string) | SchemaLoaded(schema: Value)

  /** The artifact as `load_artifact` hands it over. */
  datatype Artifact = ArtifactOk(payload: Value) | ArtifactMissing(error: string) | ArtifactInvalid(error: string)

  /** The `jsonschema` library: present with the errors it reports, or absent. */
  datatype Engine = Library(errors: seq<string>) | NoLibrary

  datatype StatusRecord = StatusRecord(status: string, errors: seq<string>, mode: Option<string>)

  function Prefixed(prefix: string, xs: seq<string>): (r: seq<string>)
    ensures |r| == |xs| && forall i :: 0 <= i < |xs| ==> r[i] == prefix + xs[i]
    decreases |xs|
  {
    if |xs| == 0 then [] else [prefix + xs[0]] + Prefixed(prefix, xs[1..])
  }

  /** `validate_target` after the artifact is loaded. */
  function ValidateTarget(schema: SchemaFile, artifact: Artifact, engine: Engine, strict: bool, useFallback: bool): (r: Result<StatusRecord>)
    ensures !schema.SchemaLoaded? || !artifact.ArtifactOk? ==> r.Ok? && r.value.status == "fail" && |r.value.errors| == 1
    ensures r.Ok? ==> r.value.status in {"pass", "warn", "fail"} && (r.value.status == "pass" <==> r.value.errors == [])
    ensures schema.SchemaLoaded? && artifact.ArtifactOk? && engine.Library? ==>
              r.Ok? && (r.value.status == "fail" <==> engine.errors != [])
    ensures schema.SchemaLoaded? && artifact.ArtifactOk? && engine.NoLibrary? && strict ==>
              r == Ok(StatusRecord("fail", ["jsonschema module missing in strict mode"], None))
    ensures schema.SchemaLoaded? && artifact.ArtifactOk? && engine.NoLibrary? && !strict && !useFallback ==>
              r == Ok(StatusRecord("warn", ["jsonschema module missing; skipped validation"], None))
    ensures schema.SchemaLoaded? && artifact.ArtifactOk? && engine.NoLibrary? && !strict && useFallback ==>
              var f := FallbackChecks(artifact.payload, schema.schema);
              (r.Ok? <==> f.Ok?) && (r.Ok? ==> (r.value.status == "fail" <==> f.value != []) && r.value.status != "warn")
  {
    match schema
    case SchemaMissing(p) => Ok(StatusRecord("fail", ["schema missing: " + p], None))
    case SchemaUnparsable(e) => Ok(StatusRecord("fail", ["schema parse failed: " + e], None))
    case SchemaLoaded(s) =>
      match artifact
      case ArtifactMissing(e) => Ok(StatusRecord("fail", [e], None))
      case ArtifactInvalid(e) => Ok(StatusRecord("fail", [e], None))
      case ArtifactOk(payload) =>
        match engine
        case Library(errs) =>
          if |errs| > 0 then Ok(StatusRecord("fail", Prefixed("jsonschema: ", errs), None))
          else Ok(StatusRecord("pass", [], Some("jsonschema")))
        case NoLibrary =>
          if strict then Ok(StatusRecord("fail", ["jsonschema module missing in strict mode"], None))
          else if !useFallback then Ok(StatusRecord("warn", ["jsonschema module missing; skipped validation"], None))
          else match FallbackChecks(payload, s)
            case Err(e) => Err(e)
            case Ok(findings) =>
              if |findings| > 0 then Ok(StatusRecord("fail", Prefixed("fallback: ", findings), None))
              else Ok(StatusRecord("pass", [], Some("fallback-required-keys")))
  }
}
