/** The CC contract validator: the contract table read from the orchestrator
    configuration must define CC-01..CC-05 with the expected producer and
    consumer skills; ticket front matter and JSON artifacts must carry their
    required fields. Files and the configuration arrive already read; the
    runtime-wiring pass over the file system is not part of this model and
    enters only as its findings. */
module CcContracts {
  import opened Results
  import opened Json
  import PyStr
  import StrSort
  import FrontMatter
  import CcDefaults

  // ---------------------------------------------------------------- required contracts

  datatype RequiredContract = RequiredContract(
    id: string, producer: string, consumer: string, outputKeys: seq<string>, inputKeys: seq<string>)

  /** `REQUIRED_CONTRACTS`, listed in sorted id order. */
  const Required: seq<RequiredContract> := [
    RequiredContract("CC-01", CcDefaults.TopologyDesign, CcDefaults.ExecutionDesign,
                     ["run_id", "nodes", "edges", "topology_type", "rsv_total"],
                     ["run_id", "nodes", "topology_type"]),
    RequiredContract("CC-02", CcDefaults.MentalModelDesign, CcDefaults.ExecutionDesign,
                     ["node_chart_map", "local_charts", "output_contract", "bundle_ref", "run_id"],
                     ["nodes", "assigned_dqs"]),
    RequiredContract("CC-03", CcDefaults.TaskContext, CcDefaults.AgentCollaboration,
                     ["task_context_id", "id", "status", "owner", "due_by", "dependencies"],
                     ["id", "status", "owner"]),
    RequiredContract("CC-04", CcDefaults.AgentCollaboration, CcDefaults.AuditLog,
                     ["dispatch_mode", "handoff_payload", "run_id", "status", "requires_manual_confirmation",
                      "fallback_reason"],
                     ["id", "status", "owner", "due_by", "dependencies", "tags"]),
    RequiredContract("CC-05", CcDefaults.AuditLog, CcDefaults.Observability,
                     ["run_id", "artifact_uri", "status", "errors", "warnings", "next_actions", "metadata"],
                     ["run_id", "artifact_uri", "event_type", "correlation"])
  ]

  /** The keys every configured contract must carry. */
  const RequiredKeys: seq<string> := [
    "id", "producer", "consumer", "required_input_keys", "required_output_keys", "compatibility_policy"
  ]

  // ---------------------------------------------------------------- field lists

  /** `[f for f in xs if f not in present]` */
  function Without(xs: seq<string>, present: set<string>): (r: seq<string>)
    ensures |r| <= |xs|
    ensures forall x :: x in r <==> x in xs && x !in present
    decreases |xs|
  {
    if |xs| == 0 then []
    else
      var rest := Without(xs[1..], present);
      assert forall x :: x in xs <==> x == xs[0] || x in xs[1..] by {
        assert xs == [xs[0]] + xs[1..];
      }
      if xs[0] in present then rest else [xs[0]] + rest
  }

  /** Filtering keeps every absent string as often as it occurs. */
  lemma {:induction false} WithoutCount(xs: seq<string>, present: set<string>, x: string)
    ensures multiset(Without(xs, present))[x] == if x in present then 0 else multiset(xs)[x]
    decreases |xs|
  {
    if |xs| > 0 {
      WithoutCount(xs[1..], present, x);
      assert xs == [xs[0]] + xs[1..];
    }
  }

  /** Rearranged inputs leave rearranged outputs. */
  lemma WithoutPermutation(a: seq<string>, b: seq<string>, present: set<string>)
    requires multiset(a) == multiset(b)
    ensures multiset(Without(a, present)) == multiset(Without(b, present))
  {
    forall x ensures multiset(Without(a, present))[x] == multiset(Without(b, present))[x] {
      WithoutCount(a, present, x);
      WithoutCount(b, present, x);
    }
  }

  /** The keys of a dict (none for any other value). */
  function KeySet(v: Value): (keys: set<string>)
    ensures forall k :: k in keys <==> Has(v, k)
  {
    if v.Object? then set i | 0 <= i < |v.fields| :: v.fields[i].0 else {}
  }

  // ---------------------------------------------------------------- field checks

  datatype Check = Check(ok: bool, problems: seq<string>)

  /** The required fields absent from `present`: one problem naming them
      after `prefix`, in sorted order when `sorted` holds and in the
      required order otherwise. */
  function FieldsCheck(required: seq<string>, present: set<string>, prefix: string, sorted: bool): (r: Check)
    ensures r.ok <==> forall f :: f in required ==> f in present
    ensures r.ok ==> r.problems == []
    ensures !r.ok ==> exists ms: seq<string> :: (
              |ms| > 0 && (sorted ==> StrSort.Sorted(ms)) && r.problems == [prefix + PyStr.Join(ms, ", ")]
              && forall x :: x in ms <==> x in required && x !in present)
  {
    var missing := Without(required, present);
    if |missing| > 0 then
      var listed := if sorted then StrSort.Sort(missing) else missing;
      StrSort.SameMembers(listed, missing);
      assert missing[0] in required && missing[0] !in present;
      assert |listed| > 0 && (sorted ==> StrSort.Sorted(listed))
             && forall x :: x in listed <==> x in required && x !in present;
      Check(false, [prefix + PyStr.Join(listed, ", ")])
    else
      assert forall f :: f in required ==> f in present || f in missing;
      Check(true, [])
  }

  /** Listing the required fields in another order changes nothing. */
  lemma FieldsCheckOrderFree(a: seq<string>, b: seq<string>, present: set<string>, prefix: string)
    requires multiset(a) == multiset(b)
    ensures FieldsCheck(a, present, prefix, true) == FieldsCheck(b, present, prefix, true)
  {
    WithoutPermutation(a, b, present);
    StrSort.SortPermutationInvariant(Without(a, present), Without(b, present));
  }

  // ---------------------------------------------------------------- ticket front matter

  const FrontmatterPrefix := "missing frontmatter fields: "

  /** `check_frontmatter_fields` on a ticket whose front matter parsed to `fm`:
      one problem naming the absent fields, sorted. */
  function CheckFrontmatterFields(fm: map<string, string>, required: seq<string>): (r: Check)
    ensures r.ok <==> forall f :: f in required ==> f in fm
    ensures !r.ok ==> |r.problems| == 1 && PyStr.StartsWith(r.problems[0], FrontmatterPrefix)
  {
    FieldsCheck(required, fm.Keys, FrontmatterPrefix, true)
  }

  /** The verdict does not depend on the order the required fields are listed in. */
  lemma FrontmatterCheckOrderFree(fm: map<string, string>, a: seq<string>, b: seq<string>)
    requires multiset(a) == multiset(b)
    ensures CheckFrontmatterFields(fm, a) == CheckFrontmatterFields(fm, b)
  {
    FieldsCheckOrderFree(a, b, fm.Keys, FrontmatterPrefix);
  }

  /** A ticket written with every required field as a plain `key: value` line passes. */
  lemma RenderedTicketPasses(pairs: seq<(string, string)>, body: seq<string>, required: seq<string>)
    requires forall i :: 0 <= i < |pairs| ==> FrontMatter.PlainKey(pairs[i].0) && FrontMatter.PlainValue(pairs[i].1)
    requires forall f :: f in required ==> exists i :: 0 <= i < |pairs| && pairs[i].0 == f
    ensures CheckFrontmatterFields(FrontMatter.Parse(FrontMatter.Render(pairs, body)), required) == Check(true, [])
  {
    FrontMatter.ParseOfRendered(pairs, body);
  }

  // ---------------------------------------------------------------- contract list

  /** The dict entries of a list, in order. */
  function Objects(items: seq<Value>): (r: seq<Value>)
    ensures |r| <= |items|
    ensures forall v :: v in r <==> v in items && v.Object?
    decreases |items|
  {
    if |items| == 0 then []
    else
      var rest := Objects(items[1..]);
      assert forall v :: v in items <==> v == items[0] || v in items[1..] by {
        assert items == [items[0]] + items[1..];
      }
      if items[0].Object? then [items[0]] + rest else rest
  }

  /** A list of dicts is kept whole. */
  lemma {:induction false} ObjectsOfObjects(items: seq<Value>)
    requires forall i :: 0 <= i < |items| ==> items[i].Object?
    ensures Objects(items) == items
    decreases |items|
  {
    if |items| > 0 {
      ObjectsOfObjects(items[1..]);
      assert items == [items[0]] + items[1..];
    }
  }

  /** `parse_contracts`: `cc_contracts` as `{contracts: [...]}` or as a bare list. */
  function ParseContracts(cfg: Value): (r: seq<Value>)
    ensures forall v :: v in r ==> v.Object?
    ensures GetOrNull(cfg, "cc_contracts").Object? && GetOrNull(GetOrNull(cfg, "cc_contracts"), "contracts").List? ==>
              forall v :: v in r <==> v in GetOrNull(GetOrNull(cfg, "cc_contracts"), "contracts").items && v.Object?
    ensures GetOrNull(cfg, "cc_contracts").List? ==>
              forall v :: v in r <==> v in GetOrNull(cfg, "cc_contracts").items && v.Object?
    ensures !GetOrNull(cfg, "cc_contracts").List?
            && !(GetOrNull(cfg, "cc_contracts").Object? && GetOrNull(GetOrNull(cfg, "cc_contracts"), "contracts").List?)
            ==> r == []
  {
    var cc := GetOrNull(cfg, "cc_contracts");
    if cc.Object? && GetOrNull(cc, "contracts").List? then Objects(GetOrNull(cc, "contracts").items)
    else if cc.List? then Objects(cc.items)
    else []
  }

  /** Both configuration shapes name the same contracts. */
  lemma ParseContractsShapesAgree(items: seq<Value>)
    ensures ParseContracts(Object([("cc_contracts", List(items))]))
         == ParseContracts(Object([("cc_contracts", Object([("contracts", List(items))]))]))
  {
  }

  // ---------------------------------------------------------------- JSON artifacts

  /** A producer artifact as the check finds it on disk. */
  datatype JsonFile = NoFile | BlankFile | Parsed(data: Value) | Unparsable

  const JsonFieldsPrefix := "missing fields: "

  /** `check_file_json_fields`; `Err` stands for the exception `json.loads`
      raises on malformed text. A blank file counts as an empty dict. */
  function CheckFileJsonFields(path: string, file: JsonFile, required: seq<string>): (r: Result<Check>)
    ensures r.Err? <==> file.Unparsable?
    ensures file.NoFile? ==> r == Ok(Check(false, ["missing file: " + path]))
    ensures file.Parsed? && !file.data.Object? ==> r == Ok(Check(false, ["not a json object"]))
    ensures file.Parsed? && file.data.Object? ==> (r.value.ok <==> forall f :: f in required ==> Has(file.data, f))
    ensures file.BlankFile? ==> (r.value.ok <==> |required| == 0)
    ensures r.Ok? && !r.value.ok && !file.NoFile? && !(file.Parsed? && !file.data.Object?) ==>
              |r.value.problems| == 1 && PyStr.StartsWith(r.value.problems[0], JsonFieldsPrefix)
  {
    match file
    case NoFile => Ok(Check(false, ["missing file: " + path]))
    case Unparsable => Err("json.loads failed")
    case BlankFile =>
      var r := FieldsCheck(required, {}, JsonFieldsPrefix, false);
      assert r.ok <==> |required| == 0 by {
        if |required| > 0 {
          assert required[0] in required;
        }
      }
      Ok(r)
    case Parsed(data) =>
      if !data.Object? then Ok(Check(false, ["not a json object"]))
      else Ok(FieldsCheck(required, KeySet(data), JsonFieldsPrefix, false))
  }

  // ---------------------------------------------------------------- contract definitions

  datatype Level = Warn | Fail

  /** What a finding reports; `Text` renders it as the report's `finding` and
      `evidence` strings. */
  datatype Problem =
    | MissingId(producer: string, consumer: string)
    | MissingFields(fields: seq<string>, item: Value)
    | NotAString(field: string, value: Value)
    | OtherPair(expected: (string, string), configured: (Value, Value))
    | Wiring(finding: string, evidence: string)

  datatype Finding = Finding(contract: string, level: Level, problem: Problem)

  /** The `finding` and `evidence` texts of a problem about contract `cid`. */
  function Text(cid: string, p: Problem): (string, string) {
    match p
    case MissingId(_, _) => ("missing required contract ID", "config.yaml cc_contracts")
    case MissingFields(fields, item) => ("missing contract fields: " + PyStr.Join(fields, ", "), cid + ": " + ToStr(item))
    case NotAString(field, value) => (field + " must be a string", cid + ": " + Repr(value))
    case OtherPair(e, c) =>
      ("producer/consumer pair differs from expected",
       "expected " + e.0 + "->" + e.1 + ", configured " + ToStr(c.0) + "->" + ToStr(c.1))
    case Wiring(finding, evidence) => (finding, evidence)
  }

  /** The contract is a dict whose `id` is the string `cid`. */
  predicate IdIs(c: Value, cid: string) {
    c.Object? && GetOrNull(c, "id") == Str(cid)
  }

  /** `index.get(cid)` for `index = {c.get("id"): c for c in contracts}`,
      looking only at the first `n` contracts: the last one with that id wins. */
  function LastWithId(contracts: seq<Value>, cid: string, n: nat): (r: Option<Value>)
    requires n <= |contracts|
    ensures r.None? <==> forall i :: 0 <= i < n ==> !IdIs(contracts[i], cid)
    ensures r.Some? ==> exists i :: 0 <= i < n && contracts[i] == r.value && IdIs(contracts[i], cid)
                                    && forall j :: i < j < n ==> !IdIs(contracts[j], cid)
    decreases n
  {
    if n == 0 then None
    else if IdIs(contracts[n - 1], cid) then Some(contracts[n - 1])
    else LastWithId(contracts, cid, n - 1)
  }

  /** The contract the index holds for `cid`. */
  function Indexed(contracts: seq<Value>, cid: string): Option<Value> {
    LastWithId(contracts, cid, |contracts|)
  }

  /** A configured contract has every required key. */
  predicate Complete(item: Value) {
    forall k :: k in RequiredKeys ==> Has(item, k)
  }

  /** The configured contract of one required id is usable: present, complete,
      with string producer and consumer. */
  predicate Usable(item: Option<Value>) {
    item.Some? && Truthy(item.value) && Complete(item.value)
    && GetOrNull(item.value, "producer").Str? && GetOrNull(item.value, "consumer").Str?
  }

  /** The configured pair differs from the expected one (Python `!=`). */
  predicate PairDiffers(item: Value, row: RequiredContract) {
    GetOrNull(item, "producer") != Str(row.producer) || GetOrNull(item, "consumer") != Str(row.consumer)
  }

  /** The fails for a non-string producer and consumer, in that order. */
  function TypeFails(cid: string, item: Value): (r: seq<Finding>)
    ensures r == [] <==> GetOrNull(item, "producer").Str? && GetOrNull(item, "consumer").Str?
    ensures forall f :: f in r ==> f.contract == cid && f.level == Fail && f.problem.NotAString?
  {
    (if GetOrNull(item, "producer").Str? then [] else [Finding(cid, Fail, NotAString("producer", GetOrNull(item, "producer")))])
    + (if GetOrNull(item, "consumer").Str? then [] else [Finding(cid, Fail, NotAString("consumer", GetOrNull(item, "consumer")))])
  }

  /** A required contract draws a warning when it is present and complete but
      names another producer or consumer than expected. */
  predicate Warns(item: Option<Value>, row: RequiredContract) {
    item.Some? && Truthy(item.value) && Complete(item.value) && PairDiffers(item.value, row)
  }

  /** The warnings and fails one required contract contributes: a missing or
      incomplete contract stops its checks at the first fail. */
  function CheckOne(row: RequiredContract, item: Option<Value>): (r: (seq<Finding>, seq<Finding>))
    ensures r.1 == [] <==> Usable(item)
    ensures r.0 != [] <==> Warns(item, row)
  {
    if item.None? || !Truthy(item.value) then
      ([], [Finding(row.id, Fail, MissingId(row.producer, row.consumer))])
    else
      var c := item.value;
      var missing := Without(RequiredKeys, KeySet(c));
      if |missing| > 0 then
        assert !Complete(c) by {
          assert missing[0] in RequiredKeys && !Has(c, missing[0]);
        }
        ([], [Finding(row.id, Fail, MissingFields(missing, c))])
      else
        assert missing == [];
        (if PairDiffers(c, row) then [PairWarning(row, c)] else [], TypeFails(row.id, c))
  }

  function PairWarning(row: RequiredContract, c: Value): Finding {
    Finding(row.id, Warn, OtherPair((row.producer, row.consumer), (GetOrNull(c, "producer"), GetOrNull(c, "consumer"))))
  }

  /** Every finding of a row is about that row, at the level of its list, and
      an absent contract gets exactly the missing-id fail. */
  lemma CheckOneLabels(row: RequiredContract, item: Option<Value>)
    ensures forall f :: f in CheckOne(row, item).0 ==> f.contract == row.id && f.level == Warn && f.problem.OtherPair?
    ensures forall f :: f in CheckOne(row, item).1 ==> f.contract == row.id && f.level == Fail
    ensures item.None? || !Truthy(item.value) ==>
              CheckOne(row, item).1 == [Finding(row.id, Fail, MissingId(row.producer, row.consumer))]
  {
  }

  /** The warnings and the fails of the given rows, one row after the other. */
  function CheckRows(rows: seq<RequiredContract>, contracts: seq<Value>): (r: (seq<Finding>, seq<Finding>))
    ensures r.1 == [] <==> forall k :: 0 <= k < |rows| ==> Usable(Indexed(contracts, rows[k].id))
    decreases |rows|
  {
    if |rows| == 0 then ([], [])
    else
      var head := CheckOne(rows[0], Indexed(contracts, rows[0].id));
      var rest := CheckRows(rows[1..], contracts);
      assert forall k :: 1 <= k < |rows| ==> rows[k] == rows[1..][k - 1];
      (head.0 + rest.0, head.1 + rest.1)
  }

  /** Every dict contract has an id that can be a dict key. */
  predicate Indexable(contracts: seq<Value>) {
    forall i :: 0 <= i < |contracts| && contracts[i].Object? ==> Hashable(GetOrNull(contracts[i], "id"))
  }

  /** `check_contract_definitions`: CC-01..CC-05 in sorted order. Building the
      index raises TypeError when a contract's id is a list or a dict. */
  function CheckContractDefinitions(contracts: seq<Value>): (r: Result<(seq<Finding>, seq<Finding>)>)
    ensures r.Err? <==> !Indexable(contracts)
    ensures r.Ok? ==> (r.value.1 == [] <==> forall k :: 0 <= k < |Required| ==> Usable(Indexed(contracts, Required[k].id)))
    ensures r.Ok? ==> r.value == CheckRows(Required, contracts)
  {
    if !Indexable(contracts) then Err("unhashable type")
    else Ok(CheckRows(Required, contracts))
  }

  /** Exactly the rows whose configured pair differs from the expected one are
      warned about, and every warning and fail carries its level. */
  lemma {:induction false} RowWarnings(rows: seq<RequiredContract>, contracts: seq<Value>, id: string)
    ensures (exists f :: f in CheckRows(rows, contracts).0 && f.contract == id)
        <==> exists k :: 0 <= k < |rows| && rows[k].id == id && Warns(Indexed(contracts, rows[k].id), rows[k])
    ensures forall f :: f in CheckRows(rows, contracts).0 ==> f.level == Warn
    ensures forall f :: f in CheckRows(rows, contracts).1 ==> f.level == Fail
    decreases |rows|
  {
    if |rows| > 0 {
      RowWarnings(rows[1..], contracts, id);
      CheckOneLabels(rows[0], Indexed(contracts, rows[0].id));
      var head := CheckOne(rows[0], Indexed(contracts, rows[0].id));
      var rest := CheckRows(rows[1..], contracts);
      assert CheckRows(rows, contracts) == (head.0 + rest.0, head.1 + rest.1);
      if exists k :: 0 <= k < |rows| && rows[k].id == id && Warns(Indexed(contracts, rows[k].id), rows[k]) {
        var k :| 0 <= k < |rows| && rows[k].id == id && Warns(Indexed(contracts, rows[k].id), rows[k]);
        if k == 0 {
          assert head.0[0] in head.0 + rest.0;
        } else {
          assert rows[1..][k - 1] == rows[k];
          var f :| f in rest.0 && f.contract == id;
          assert f in head.0 + rest.0;
        }
      }
      if exists f :: f in head.0 + rest.0 && f.contract == id {
        var f :| f in head.0 + rest.0 && f.contract == id;
        if f in rest.0 {
          var k :| 0 <= k < |rows[1..]| && rows[1..][k].id == id && Warns(Indexed(contracts, rows[1..][k].id), rows[1..][k]);
          assert rows[k + 1] == rows[1..][k];
        }
      }
    }
  }

  // ---------------------------------------------------------------- the report

  /** The report status: any fail wins, then any warning, else ok. */
  function Status(warnings: seq<Finding>, fails: seq<Finding>): (s: string)
    ensures s == "fail" <==> |fails| > 0
    ensures s == "warn" <==> |fails| == 0 && |warnings| > 0
    ensures s == "ok" <==> |fails| == 0 && |warnings| == 0
  {
    if |fails| > 0 then "fail" else if |warnings| > 0 then "warn" else "ok"
  }

  /** The script's exit code. */
  function ExitCode(fails: seq<Finding>): (code: int)
    ensures code == 1 <==> |fails| > 0
    ensures code == 0 <==> |fails| == 0
  {
    if |fails| > 0 then 1 else 0
  }

  datatype Report = Report(status: string, requiredSkillIds: seq<string>, findings: seq<Finding>, exitCode: int)

  /** The validation of the configured contracts, with the runtime-wiring
      findings given: warnings are listed before fails. */
  function Validate(cfg: Value, wiringWarnings: seq<Finding>, wiringFails: seq<Finding>): (r: Result<Report>)
    ensures r.Err? <==> !Indexable(ParseContracts(cfg))
    ensures r.Ok? ==> (r.value.exitCode == 1 <==> r.value.status == "fail")
    ensures r.Ok? ==> (r.value.exitCode == 0 <==> r.value.status != "fail")
    ensures r.Ok? ==> (r.value.status == "fail" <==>
              |wiringFails| > 0 || exists k :: 0 <= k < |Required| && !Usable(Indexed(ParseContracts(cfg), Required[k].id)))
    ensures r.Ok? ==> StrSort.StrictlySorted(r.value.requiredSkillIds)
  {
    match CheckContractDefinitions(ParseContracts(cfg))
    case Err(e) => Err(e)
    case Ok(defs) =>
      var warnings := defs.0 + wiringWarnings;
      var fails := defs.1 + wiringFails;
      Ok(Report(Status(warnings, fails), SkillIds(Required), warnings + fails, ExitCode(fails)))
  }

  /** The producer and consumer of every row, in row order. */
  function Endpoints(rows: seq<RequiredContract>): (r: seq<string>)
    ensures forall x :: x in r <==> exists k :: 0 <= k < |rows| && (rows[k].producer == x || rows[k].consumer == x)
    decreases |rows|
  {
    if |rows| == 0 then []
    else
      var rest := Endpoints(rows[1..]);
      forall x | exists k :: 0 <= k < |rows| && (rows[k].producer == x || rows[k].consumer == x)
        ensures x in [rows[0].producer, rows[0].consumer] + rest
      {
        var k :| 0 <= k < |rows| && (rows[k].producer == x || rows[k].consumer == x);
        if k > 0 {
          assert rows[1..][k - 1] == rows[k];
        }
      }
      forall x | x in rest
        ensures exists k :: 0 <= k < |rows| && (rows[k].producer == x || rows[k].consumer == x)
      {
        var k :| 0 <= k < |rows[1..]| && (rows[1..][k].producer == x || rows[1..][k].consumer == x);
        assert rows[k + 1] == rows[1..][k];
      }
      [rows[0].producer, rows[0].consumer] + rest
  }

  /** `required_skill_ids` over the given rows: every expected producer and
      consumer once, sorted. */
  function SkillIds(rows: seq<RequiredContract>): (r: seq<string>)
    ensures StrSort.StrictlySorted(r)
    ensures forall x :: x in r <==> exists k :: 0 <= k < |rows| && (rows[k].producer == x || rows[k].consumer == x)
  {
    StrSort.SortedSet(Endpoints(rows))
  }
}
