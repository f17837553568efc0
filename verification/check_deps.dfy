/** The runtime-dependency check of the skill-governance tooling: reading the
    orchestrator configuration, with a small line-based `key: value` parser
    when neither PyYAML nor JSON can read the file, and the exit code that
    only depends on whether the `external_dependencies.ai-collaborator`
    section is a mapping. The dependency probe itself (paths, environment
    variables, a subprocess health check) is I/O; its outcome enters as a
    parameter and never changes the exit code. */
module CheckDeps {
  import opened Results
  import opened Json
  import Dicts
  import PyStr
  import FrontMatter

  /** How the file is read when it exists. Without PyYAML the text is first
      given to `json.loads` (`None` when it raises); with PyYAML the
      document `safe_load` returns is used. */
  datatype Loader = NoYaml(json: Option<Value>) | Yaml(document: Value)

  // ---------------------------------------------------------------- scalars

  /** `value.startswith("[") and value.endswith("]")`, which needs at least
      two characters since one character cannot be both brackets. */
  predicate Bracketed(v: string) {
    |v| >= 2 && v[0] == '[' && v[|v| - 1] == ']'
  }

  lemma BracketedIff(v: string)
    ensures Bracketed(v) <==> PyStr.StartsWith(v, "[") && PyStr.EndsWith(v, "]")
  {
    if PyStr.StartsWith(v, "[") && PyStr.EndsWith(v, "]") {
      assert v[..1][0] == v[0];
      assert v[|v| - 1..][0] == v[|v| - 1];
    }
    if Bracketed(v) {
      assert v[..1] == "[";
      assert v[|v| - 1..] == "]";
    }
  }

  /** The non-blank comma-separated pieces, stripped and unquoted. */
  function Items(parts: seq<string>): (r: seq<Value>)
    ensures |r| <= |parts|
    ensures forall i :: 0 <= i < |r| ==> r[i].Str?
    decreases |parts|
  {
    if |parts| == 0 then []
    else
      (if PyStr.IsBlank(parts[0]) then [] else [Str(PyStr.StripChars(PyStr.Strip(parts[0]), FrontMatter.Quotes))])
      + Items(parts[1..])
  }

  /** A value text read as a list of strings, a boolean, a non-negative
      integer or a string, in that order of preference. Digits are the ASCII
      digits. */
  function Scalar(v: string): (r: Value)
    ensures r.Str? || r.Bool? || r.Int? || r.List?
    ensures r.List? ==> forall i :: 0 <= i < |r.items| ==> r.items[i].Str?
  {
    if Bracketed(v) then List(Items(PyStr.Split(v[1..|v| - 1], ',')))
    else if PyStr.Lower(v) == "true" || PyStr.Lower(v) == "false" then Bool(PyStr.Lower(v) == "true")
    else if |v| > 0 && PyStr.AllDigits(v) then Int(PyStr.ParseDigits(v))
    else Str(v)
  }

  /** A number written in decimal reads back as that number. */
  lemma ScalarOfNumber(n: nat)
    ensures Scalar(PyStr.NatToString(n)) == Int(n)
  {
    var s := PyStr.NatToString(n);
    PyStr.ParseNatToString(n);
    assert PyStr.Lower(s)[0] == s[0];
    assert "true"[0] == 't' && "false"[0] == 'f';
  }

  /** `str(b)` for a boolean reads back as that boolean. */
  lemma ScalarOfBool(b: bool)
    ensures Scalar(BoolToString(b)) == Bool(b)
  {
    if b {
      assert PyStr.Lower("True") == "true";
    } else {
      assert PyStr.Lower("False") == "false";
    }
  }

  // ---------------------------------------------------------------- lines

  /** One line of the fallback parser: blank lines, `#` comments and lines
      without a ':' give nothing; otherwise the stripped line is split at its
      first ':' into a stripped key and a stripped, unquoted value. */
  function ConfigLine(line: string): (r: Option<(string, Value)>)
    ensures r.Some? ==> ':' in line && ':' !in r.value.0
  {
    var l := PyStr.Strip(line);
    if |l| == 0 || l[0] == '#' || ':' !in l then None
    else
      var e := FrontMatter.Entry(l);
      KeyBeforeColon(l);
      PyStr.StripSubset(line);
      Some((e.0, Scalar(e.1)))
  }

  lemma KeyBeforeColon(l: string)
    requires ':' in l
    ensures ':' !in FrontMatter.Entry(l).0
  {
    var k := PyStr.IndexOf(l, ':').value;
    PyStr.StripSubset(l[..k]);
  }

  /** A written `key: value` line reads back as the key and its value. */
  lemma ConfigLineOfEntry(k: string, v: string)
    requires FrontMatter.PlainKey(k) && |k| > 0 && k[0] != '#'
    requires FrontMatter.PlainValue(v) && |v| > 0
    ensures ConfigLine(FrontMatter.EntryLine(k, v)) == Some((k, Scalar(v)))
  {
    var line := FrontMatter.EntryLine(k, v);
    assert line[0] == k[0] && line[|line| - 1] == v[|v| - 1];
    PyStr.StripPlain(line);
    FrontMatter.EntryOfLine(k, v);
  }

  /** The key/value pairs of the lines, in order. */
  function ConfigPairs(lines: seq<string>): (r: seq<(string, Value)>)
    ensures |r| <= |lines|
    ensures forall i :: 0 <= i < |r| ==> r[i].1.Str? || r[i].1.Bool? || r[i].1.Int? || r[i].1.List?
    decreases |lines|
  {
    if |lines| == 0 then []
    else
      (match ConfigLine(lines[0]) case Some(kv) => [kv] case None => []) + ConfigPairs(lines[1..])
  }

  /** Lines the parser skips leave the result alone wherever they stand. */
  lemma {:induction false} SkippedLine(before: seq<string>, line: string, after: seq<string>)
    requires ConfigLine(line).None?
    ensures ConfigPairs(before + [line] + after) == ConfigPairs(before + after)
    decreases |before|
  {
    if |before| == 0 {
      assert (before + [line] + after)[1..] == after;
      assert before + after == after;
    } else {
      assert (before + [line] + after)[1..] == before[1..] + [line] + after;
      assert (before + after)[1..] == before[1..] + after;
      SkippedLine(before[1..], line, after);
    }
  }

  // ---------------------------------------------------------------- documents

  /** A dict as the object value it is. */
  function DictValue(d: Dicts.Dict<string, Value>): (r: Value)
    ensures r.Object?
    ensures forall k :: Get(r, k) == Dicts.Get(d, k)
  {
    var fields := seq(|d.keys|, i requires 0 <= i < |d.keys| => (d.keys[i], d.entries[d.keys[i]]));
    forall k ensures Lookup(fields, k) == Dicts.Get(d, k) {
      if k in d.keys {
        var i :| 0 <= i < |d.keys| && d.keys[i] == k;
        Json.LookupFirst(fields, i, k);
      } else {
        assert !HasField(fields, k);
      }
    }
    Object(fields)
  }

  /** The fallback parser over the text's lines: later keys overwrite
      earlier ones and keep their first position. */
  function FallbackParse(raw: string): (r: Value)
    ensures r.Object?
  {
    DictValue(Dicts.FromPairs(ConfigPairs(PyStr.SplitLines(raw))))
  }

  /** A key keeps the value of its last line. */
  lemma LastLineWins(raw: string, i: nat)
    requires i < |ConfigPairs(PyStr.SplitLines(raw))|
    requires forall j :: i < j < |ConfigPairs(PyStr.SplitLines(raw))| ==>
               ConfigPairs(PyStr.SplitLines(raw))[j].0 != ConfigPairs(PyStr.SplitLines(raw))[i].0
    ensures Get(FallbackParse(raw), ConfigPairs(PyStr.SplitLines(raw))[i].0)
            == Some(ConfigPairs(PyStr.SplitLines(raw))[i].1)
  {
    Dicts.FromPairsLastWins(ConfigPairs(PyStr.SplitLines(raw)), i);
  }

  /** The fallback parser never yields a mapping as a value. */
  lemma FallbackIsFlat(raw: string, k: string)
    requires Has(FallbackParse(raw), k)
    ensures !Get(FallbackParse(raw), k).value.Object?
  {
    var pairs := ConfigPairs(PyStr.SplitLines(raw));
    Dicts.FromPairsValueFrom(pairs, k);
  }

  /** `parse_config`: a missing file or blank text gives an empty mapping, a
      document that is not a mapping gives an empty mapping, and without
      PyYAML text `json.loads` rejects goes to the fallback parser. */
  function ParseConfig(present: bool, raw: string, loader: Loader): (r: Value)
    ensures r.Object?
    ensures !present ==> r == Object([])
    ensures present && loader.NoYaml? && PyStr.IsBlank(raw) ==> r == Object([])
    ensures present && loader.NoYaml? && !PyStr.IsBlank(raw) && loader.json.None? ==> r == FallbackParse(raw)
  {
    if !present then Object([])
    else
      match loader
      case NoYaml(json) =>
        if |PyStr.Strip(raw)| == 0 then Object([])
        else (
          match json
          case Some(data) => if data.Object? then data else Object([])
          case None => FallbackParse(raw))
      case Yaml(doc) =>
        var cfg := if Truthy(doc) then doc else Object([]);
        if cfg.Object? then cfg else Object([])
  }

  // ---------------------------------------------------------------- exit code

  /** What the dependency probe found; informational only. */
  datatype DependencyStatus = Healthy | Warning(reason: string)

  /** `main`'s exit code: 2 when `external_dependencies` or its
      `ai-collaborator` entry is not a mapping, else 0 whatever the probe
      found. */
  function MainExit(cfg: Value, probe: DependencyStatus): (code: int)
    ensures code == 0 || code == 2
  {
    var deps := GetOrNull(cfg, "external_dependencies");
    if !deps.Object? then 2
    else if !GetOrNull(deps, "ai-collaborator").Object? then 2
    else 0
  }

  /** The dependency is optional: the probe's outcome never changes the code,
      and a config with the nested section always passes. */
  lemma OptionalDependency(cfg: Value, probe: DependencyStatus)
    ensures MainExit(cfg, probe) == MainExit(cfg, Healthy)
    ensures MainExit(cfg, probe) == 0 <==>
      Has(cfg, "external_dependencies") && Get(cfg, "external_dependencies").value.Object?
      && Has(Get(cfg, "external_dependencies").value, "ai-collaborator")
      && Get(Get(cfg, "external_dependencies").value, "ai-collaborator").value.Object?
  {
  }

  /** Read by the fallback parser, a configuration can never describe the
      nested dependency section, so the check always exits with 2. */
  lemma FallbackConfigExitsTwo(raw: string, probe: DependencyStatus)
    ensures MainExit(FallbackParse(raw), probe) == 2
  {
    if Has(FallbackParse(raw), "external_dependencies") {
      FallbackIsFlat(raw, "external_dependencies");
    }
  }
}
