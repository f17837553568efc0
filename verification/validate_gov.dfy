/** The governance validator: every required skill folder must hold its core
    files, the embedded CC contracts must carry their required fields, and the
    run's exit code and report status summarise the findings. The skills
    directory arrives as a listing; the manifest phase updates and the report
    file are not part of this model. */
module GovValidate {
  import opened Results
  import opened Json
  import PyStr
  import StrSort
  import CcDefaults
  import CcContracts

  const Governance := "mso-skill-governance"

  const RequiredSkills: seq<string> := [
    CcDefaults.TopologyDesign, CcDefaults.MentalModelDesign, CcDefaults.ExecutionDesign,
    CcDefaults.TaskContext, CcDefaults.AgentCollaboration, CcDefaults.AuditLog,
    CcDefaults.Observability, Governance
  ]

  const RequiredContractFields: seq<string> := [
    "id", "producer", "consumer", "required_input_keys", "required_output_keys", "compatibility_policy", "status"
  ]

  const DefaultMaxSkills := 8

  /** The contract ids that must be present, in sorted order. */
  const RequiredIds: seq<string> := ["CC-01", "CC-02", "CC-03", "CC-04", "CC-05"]

  datatype Severity = Warn | Fail

  datatype Finding = Finding(id: string, severity: Severity, finding: string, evidence: string)

  predicate HasFail(fs: seq<Finding>) {
    exists i :: 0 <= i < |fs| && fs[i].severity == Fail
  }

  /** A joined list holds a fail iff one of its parts does. */
  lemma HasFailConcat(a: seq<Finding>, b: seq<Finding>)
    ensures HasFail(a + b) <==> HasFail(a) || HasFail(b)
  {
    if HasFail(a + b) {
      var i :| 0 <= i < |a + b| && (a + b)[i].severity == Fail;
      if i >= |a| {
        assert b[i - |a|] == (a + b)[i];
      }
    }
    if HasFail(b) {
      var i :| 0 <= i < |b| && b[i].severity == Fail;
      assert (a + b)[|a| + i] == b[i];
    }
    if HasFail(a) {
      var i :| 0 <= i < |a| && a[i].severity == Fail;
      assert (a + b)[i] == a[i];
    }
  }

  // ---------------------------------------------------------------- contracts

  /** `str(type(v))` */
  function TypeText(v: Value): string {
    match v
    case Null => "<class 'NoneType'>"
    case Bool(_) => "<class 'bool'>"
    case Int(_) => "<class 'int'>"
    case Str(_) => "<class 'str'>"
    case List(_) => "<class 'list'>"
    case Object(_) => "<class 'dict'>"
  }

  /** A status the contract table may carry. */
  predicate KnownStatus(v: Value) {
    v == Str("ok") || v == Str("warn") || v == Str("fail")
  }

  /** `str(contract.get("id", "")).strip()` */
  function EntryId(item: Value): string {
    PyStr.Strip(ToStr(GetOr(item, "id", Str(""))))
  }

  /** The required fields a dict entry lacks, in the required order. */
  function MissingFields(item: Value): (r: seq<string>)
    ensures forall f :: f in r <==> f in RequiredContractFields && !Has(item, f)
  {
    CcContracts.Without(RequiredContractFields, CcContracts.KeySet(item))
  }

  /** One finding per absent field, in the order of the fields. */
  function FieldFindings(cid: string, fields: seq<string>, evidence: string): (r: seq<Finding>)
    ensures |r| == |fields|
    ensures forall i :: 0 <= i < |r| ==> r[i].severity == Fail && r[i].finding == "missing required contract field: " + fields[i]
    decreases |fields|
  {
    if |fields| == 0 then []
    else [Finding(if cid == "" then "(unknown)" else cid, Fail, "missing required contract field: " + fields[0], evidence)]
         + FieldFindings(cid, fields[1..], evidence)
  }

  /** The warnings and errors of one contract entry. */
  function EntryFindings(item: Value): (r: (seq<Finding>, seq<Finding>))
    ensures !item.Object? ==> r == ([], [Finding("cc-contracts", Fail, "contract entry not object", ToStr(item))])
    ensures item.Object? ==> |r.1| == |MissingFields(item)| && !HasFail(r.0)
    ensures item.Object? ==> (r.0 == [] <==> KnownStatus(GetOrNull(item, "status"))) && |r.0| <= 1
  {
    if !item.Object? then ([], [Finding("cc-contracts", Fail, "contract entry not object", ToStr(item))])
    else
      var cid := EntryId(item);
      var status := GetOrNull(item, "status");
      var warn := if KnownStatus(status) then [] else [Finding(cid, Warn, "unexpected contract status", ToStr(status))];
      (warn, FieldFindings(cid, MissingFields(item), ToStr(item)))
  }

  datatype Scan = Scan(warnings: seq<Finding>, errors: seq<Finding>)

  /** The loop over the entries: their findings, in entry order. */
  function ScanEntries(items: seq<Value>): (r: Scan)
    decreases |items|
  {
    if |items| == 0 then Scan([], [])
    else
      var head := EntryFindings(items[0]);
      var rest := ScanEntries(items[1..]);
      Scan(head.0 + rest.warnings, head.1 + rest.errors)
  }

  /** The ids the loop adds to `seen`: those of the dict entries. */
  function Seen(items: seq<Value>): set<string> {
    set i | 0 <= i < |items| && items[i].Object? :: EntryId(items[i])
  }

  /** How many errors the entries deserve: one per non-dict entry, one per
      missing field of each dict entry. */
  function ExpectedErrors(items: seq<Value>): nat
    decreases |items|
  {
    if |items| == 0 then 0
    else (if items[0].Object? then |MissingFields(items[0])| else 1) + ExpectedErrors(items[1..])
  }

  /** How many dict entries carry an unknown status. */
  function UnknownStatuses(items: seq<Value>): nat
    decreases |items|
  {
    if |items| == 0 then 0
    else (if items[0].Object? && !KnownStatus(GetOrNull(items[0], "status")) then 1 else 0) + UnknownStatuses(items[1..])
  }

  /** The entry loop emits exactly the expected number of errors and warnings,
      and no warning is a fail. */
  lemma {:induction false} ScanCounts(items: seq<Value>)
    ensures |ScanEntries(items).errors| == ExpectedErrors(items)
    ensures |ScanEntries(items).warnings| == UnknownStatuses(items)
    ensures !HasFail(ScanEntries(items).warnings)
    decreases |items|
  {
    if |items| > 0 {
      ScanCounts(items[1..]);
      var head := EntryFindings(items[0]);
      var rest := ScanEntries(items[1..]);
      HasFailConcat(head.0, rest.warnings);
    }
  }

  /** Entries that are complete dicts with a known status draw nothing. */
  lemma {:induction false} ScanClean(items: seq<Value>)
    requires forall i :: 0 <= i < |items| ==> CleanEntry(items[i])
    ensures ScanEntries(items) == Scan([], [])
    decreases |items|
  {
    if |items| > 0 {
      assert forall i :: 1 <= i < |items| ==> items[1..][i - 1] == items[i];
      ScanClean(items[1..]);
    }
  }

  /** `sorted(required_ids - seen)` */
  function MissingIds(seen: set<string>): (r: seq<string>)
    ensures StrSort.StrictlySorted(r)
    ensures forall x :: x in r <==> x in RequiredIds && x !in seen
  {
    StrSort.SortedSet(CcContracts.Without(RequiredIds, seen))
  }

  function MissingIdFindings(ids: seq<string>): (r: seq<Finding>)
    ensures |r| == |ids|
    ensures forall i :: 0 <= i < |ids| ==> r[i].id == ids[i] && r[i].severity == Fail
    decreases |ids|
  {
    if |ids| == 0 then []
    else [Finding(ids[0], Fail, "required CC contract missing", "expected in scripts/_cc_defaults.py")]
         + MissingIdFindings(ids[1..])
  }

  /** `validate_contracts`: an empty or malformed table gives one fail;
      otherwise the entry findings, then one fail per absent required id. */
  function ValidateContracts(contracts: Value): (r: (seq<Finding>, seq<Finding>))
    ensures !Truthy(contracts) ==> r == ([], [Finding("cc-contracts", Fail, "embedded cc defaults not found", "scripts/_cc_defaults.py")])
    ensures Truthy(contracts) && !contracts.List? ==> r == ([], [Finding("cc-contracts", Fail, "cc contracts malformed", TypeText(contracts))])
  {
    if !Truthy(contracts) then
      ([], [Finding("cc-contracts", Fail, "embedded cc defaults not found", "scripts/_cc_defaults.py")])
    else if !contracts.List? then
      ([], [Finding("cc-contracts", Fail, "cc contracts malformed", TypeText(contracts))])
    else ListFindings(contracts.items)
  }

  /** The findings for a non-empty list of entries: the entry findings, then
      one fail per absent required id. */
  function ListFindings(items: seq<Value>): (r: (seq<Finding>, seq<Finding>)) {
    var scan := ScanEntries(items);
    (scan.warnings, scan.errors + MissingIdFindings(MissingIds(Seen(items))))
  }

  /** A non-empty list is checked entry by entry. */
  lemma ValidateList(vs: seq<Value>)
    requires |vs| > 0
    ensures ValidateContracts(List(vs)) == ListFindings(vs)
  {
    var c := List(vs);
    assert Truthy(c);
    assert c.List? && c.items == vs;
  }

  /** The list branch (see `ValidateList`): one warning per unknown status
      and none of them a fail; one error per non-dict entry and per missing
      field, followed by one fail per absent required id in sorted order. */
  lemma ListFindingsCounts(items: seq<Value>)
    ensures var r := ListFindings(items);
            |r.0| == UnknownStatuses(items) && !HasFail(r.0)
            && |r.1| == ExpectedErrors(items) + |MissingIds(Seen(items))|
    ensures var r := ListFindings(items);
            forall i :: 0 <= i < |MissingIds(Seen(items))| ==>
              r.1[ExpectedErrors(items) + i].id == MissingIds(Seen(items))[i]
              && r.1[ExpectedErrors(items) + i].severity == Fail
  {
    ScanCounts(items);
    var scan := ScanEntries(items);
    var tail := MissingIdFindings(MissingIds(Seen(items)));
    TailAt(scan.errors, tail);
  }

  lemma TailAt(a: seq<Finding>, b: seq<Finding>)
    ensures forall i :: 0 <= i < |b| ==> (a + b)[|a| + i] == b[i]
  {
  }

  /** A default contract, as a dict, passes its entry checks under its own id. */
  lemma DefaultEntryClean(c: CcDefaults.Contract)
    requires c.status == "ok"
    ensures MissingFields(CcDefaults.ContractJson(c)) == []
    ensures KnownStatus(GetOrNull(CcDefaults.ContractJson(c), "status"))
    ensures EntryId(CcDefaults.ContractJson(c)) == PyStr.Strip(c.id)
  {
    var v := CcDefaults.ContractJson(c);
    CcDefaults.ContractJsonFields(c);
    var k := CcDefaults.ContractFieldKeys;
    assert RequiredContractFields == [k[0], k[1], k[2], k[4], k[3], k[5], k[6]];
  }

  /** An id without padding. */
  predicate PlainId(id: string) {
    |id| > 0 && !PyStr.IsSpace(id[0]) && !PyStr.IsSpace(id[|id| - 1])
  }

  /** A dict entry with every required field and a known status. */
  predicate CleanEntry(v: Value) {
    v.Object? && MissingFields(v) == [] && KnownStatus(GetOrNull(v, "status"))
  }

  /** A table of clean entries whose ids cover the required ones draws no
      finding at all. */
  lemma CleanTablePasses(vs: seq<Value>)
    requires |vs| > 0
    requires forall j :: 0 <= j < |vs| ==> CleanEntry(vs[j])
    requires forall k :: 0 <= k < |RequiredIds| ==> RequiredIds[k] in Seen(vs)
    ensures ValidateContracts(List(vs)) == ([], [])
  {
    ScanClean(vs);
    var m := MissingIds(Seen(vs));
    NoMemberEmpty(m);
    assert MissingIdFindings(m) == [];
    ValidateList(vs);
    assert ListFindings(vs) == ([], [] + []);
  }

  lemma NoMemberEmpty(xs: seq<string>)
    ensures (forall x :: x !in xs) ==> xs == []
  {
    if |xs| > 0 {
      assert xs[0] in xs;
    }
  }

  /** Contract records marked ok under unpadded ids become clean entries
      that keep their ids. */
  lemma RecordsClean(cs: seq<CcDefaults.Contract>, vs: seq<Value>)
    requires |vs| == |cs|
    requires forall i :: 0 <= i < |cs| ==> vs[i] == CcDefaults.ContractJson(cs[i])
    requires forall i :: 0 <= i < |cs| ==> cs[i].status == "ok" && PlainId(cs[i].id)
    ensures forall i :: 0 <= i < |vs| ==> CleanEntry(vs[i]) && EntryId(vs[i]) == cs[i].id
  {
    forall i | 0 <= i < |vs| ensures CleanEntry(vs[i]) && EntryId(vs[i]) == cs[i].id {
      DefaultEntryClean(cs[i]);
      PyStr.StripPlain(cs[i].id);
    }
  }

  /** The ids of the defaults are unpadded and cover CC-01..CC-05. */
  lemma DefaultIdsFit()
    ensures forall i :: 0 <= i < |CcDefaults.Defaults| ==> PlainId(CcDefaults.Defaults[i].id)
    ensures forall k :: 0 <= k < |RequiredIds| ==> k < |CcDefaults.Defaults| && CcDefaults.Defaults[k].id == RequiredIds[k]
  {
    CcDefaults.DefaultIdsAre();
    var ids := CcDefaults.DefaultIds();
    forall i | 0 <= i < |ids| ensures PlainId(ids[i]) {
      assert ids[i][0] == 'C' && ids[i][|ids[i]| - 1] in {'1', '2', '3', '4', '5', '6'};
    }
  }

  /** The embedded defaults draw no finding at all. */
  lemma DefaultsPass()
    ensures ValidateContracts(List(CcDefaults.DefaultContracts())) == ([], [])
  {
    var vs := CcDefaults.DefaultContracts();
    CcDefaults.DefaultsOk();
    DefaultIdsFit();
    RecordsClean(CcDefaults.Defaults, vs);
    forall k | 0 <= k < |RequiredIds| ensures RequiredIds[k] in Seen(vs) {
      assert EntryId(vs[k]) in Seen(vs);
    }
    CleanTablePasses(vs);
  }

  // ---------------------------------------------------------------- skill folders

  /** A path as the file system shows it. */
  datatype Node = Absent | Dir | File(text: string)

  predicate Exists(n: Node) { !n.Absent? }

  /** The entries of one skill folder the validator looks at. */
  datatype SkillDir = SkillDir(core: Node, skillMd: Node, modulesIndex: Node, references: Node, scripts: Node)

  const LegacyNeedles: seq<string> := ["04_Agentic_AI_OS", "cortex-agora", "AAOS_ROOT", "SKILL.meta.yaml"]

  /** `has_aaos_string` for a path that exists and is a file. */
  predicate Legacy(n: Node) {
    n.File? && exists k :: 0 <= k < |LegacyNeedles| && PyStr.Contains(n.text, LegacyNeedles[k])
  }

  /** `collect_skills` over a listing of the skills directory (`None` for an
      entry that is not a directory): dot- and underscore-names are skipped. */
  function CollectSkills(listing: map<string, Option<SkillDir>>): (skills: map<string, SkillDir>)
    ensures forall n :: n in skills <==> n in listing && listing[n].Some? && !PyStr.StartsWith(n, ".") && !PyStr.StartsWith(n, "_")
    ensures forall n :: n in skills ==> skills[n] == listing[n].value
  {
    map n | n in listing && listing[n].Some? && !PyStr.StartsWith(n, ".") && !PyStr.StartsWith(n, "_") :: listing[n].value
  }

  /** The fails for a missing core.md and modules index, in that order. */
  function CoreFails(sid: string, path: string, s: SkillDir): (r: seq<Finding>)
    ensures HasFail(r) <==> !Exists(s.core) || !Exists(s.modulesIndex)
    ensures r == [] <==> Exists(s.core) && Exists(s.modulesIndex)
  {
    var a := if Exists(s.core) then [] else [Finding(sid, Fail, "missing core.md", path + "/core.md")];
    var b := if Exists(s.modulesIndex) then []
             else [Finding(sid, Fail, "missing modules/modules_index.md", path + "/modules/modules_index.md")];
    HasFailConcat(a, b);
    assert !Exists(s.core) ==> a[0].severity == Fail;
    assert !Exists(s.modulesIndex) ==> b[0].severity == Fail;
    a + b
  }

  /** The warnings for a missing references and scripts directory. */
  function DirWarnings(sid: string, path: string, s: SkillDir): (r: seq<Finding>)
    ensures !HasFail(r)
    ensures r == [] <==> Exists(s.references) && Exists(s.scripts)
  {
    var a := if Exists(s.references) then [] else [Finding(sid, Warn, "missing directory: references", path + "/references")];
    var b := if Exists(s.scripts) then [] else [Finding(sid, Warn, "missing directory: scripts", path + "/scripts")];
    HasFailConcat(a, b);
    a + b
  }

  /** A legacy warning for each listed file that holds a legacy string, in order. */
  function LegacyFindings(sid: string, files: seq<(Node, string)>): (r: seq<Finding>)
    ensures !HasFail(r)
    ensures r == [] <==> forall i :: 0 <= i < |files| ==> !Legacy(files[i].0)
    decreases |files|
  {
    if |files| == 0 then []
    else
      var rest := LegacyFindings(sid, files[1..]);
      assert forall i :: 1 <= i < |files| ==> files[i] == files[1..][i - 1];
      var head := if Legacy(files[0].0) then [Finding(sid, Warn, "legacy reference detected", files[0].1)] else [];
      HasFailConcat(head, rest);
      head + rest
  }

  /** A skill folder that draws no finding: all four entries present and no
      legacy reference in its files. */
  predicate Clean(s: SkillDir) {
    Exists(s.core) && Exists(s.modulesIndex) && Exists(s.references) && Exists(s.scripts)
    && !Legacy(s.core) && !Legacy(s.skillMd) && !Legacy(s.modulesIndex) && !Legacy(s.references)
  }

  /** The findings of one required skill, all pushed to the errors list:
      fails for a missing folder, core.md or modules index, warns for missing
      directories and legacy references. */
  function SkillFindings(sid: string, root: string, d: Option<SkillDir>): (r: seq<Finding>)
    ensures d.None? ==> r == [Finding(sid, Fail, "missing required skill folder: " + sid, root)]
    ensures HasFail(r) <==> d.None? || !Exists(d.value.core) || !Exists(d.value.modulesIndex)
    ensures r == [] <==> d.Some? && Clean(d.value)
  {
    if d.None? then
      var r := [Finding(sid, Fail, "missing required skill folder: " + sid, root)];
      assert r[0].severity == Fail;
      r
    else
      var s := d.value;
      var path := root + "/" + sid;
      var fails := CoreFails(sid, path, s);
      var dirs := DirWarnings(sid, path, s);
      var files := [(s.core, path + "/core.md"), (s.skillMd, path + "/SKILL.md"),
                    (s.modulesIndex, path + "/modules/modules_index.md"), (s.references, path + "/references")];
      var legacy := LegacyFindings(sid, files);
      HasFailConcat(dirs, legacy);
      HasFailConcat(fails, dirs + legacy);
      assert (forall i :: 0 <= i < |files| ==> !Legacy(files[i].0))
             <==> !Legacy(s.core) && !Legacy(s.skillMd) && !Legacy(s.modulesIndex) && !Legacy(s.references) by {
        assert files[0].0 == s.core && files[1].0 == s.skillMd && files[2].0 == s.modulesIndex && files[3].0 == s.references;
      }
      fails + (dirs + legacy)
  }

  /** A required skill whose folder, core.md or modules index is missing. */
  predicate Broken(sid: string, skills: map<string, SkillDir>) {
    sid !in skills || !Exists(skills[sid].core) || !Exists(skills[sid].modulesIndex)
  }

  /** The folder of a required skill, if collected. */
  function Folder(sid: string, skills: map<string, SkillDir>): Option<SkillDir> {
    if sid in skills then Some(skills[sid]) else None
  }

  /** Some skill of the list is broken. */
  predicate AnyBroken(sids: seq<string>, skills: map<string, SkillDir>)
    decreases |sids|
  {
    |sids| > 0 && (Broken(sids[0], skills) || AnyBroken(sids[1..], skills))
  }

  /** Every skill of the list is collected and clean. */
  predicate AllClean(sids: seq<string>, skills: map<string, SkillDir>)
    decreases |sids|
  {
    |sids| == 0 || (sids[0] in skills && Clean(skills[sids[0]]) && AllClean(sids[1..], skills))
  }

  /** The errors of the given required skills, one skill after the other. */
  function StructureErrors(sids: seq<string>, skills: map<string, SkillDir>, root: string): (r: seq<Finding>)
    ensures HasFail(r) <==> AnyBroken(sids, skills)
    ensures r == [] <==> AllClean(sids, skills)
    decreases |sids|
  {
    if |sids| == 0 then []
    else
      var head := SkillFindings(sids[0], root, Folder(sids[0], skills));
      var rest := StructureErrors(sids[1..], skills, root);
      HasFailConcat(head, rest);
      head + rest
  }

  /** `AnyBroken` and `AllClean` read as quantifiers over the positions. */
  lemma {:induction false} BrokenClean(sids: seq<string>, skills: map<string, SkillDir>)
    ensures AnyBroken(sids, skills) <==> exists k :: 0 <= k < |sids| && Broken(sids[k], skills)
    ensures AllClean(sids, skills) <==> forall k :: 0 <= k < |sids| ==> sids[k] in skills && Clean(skills[sids[k]])
    decreases |sids|
  {
    if |sids| > 0 {
      BrokenClean(sids[1..], skills);
      assert forall k :: 1 <= k < |sids| ==> sids[k] == sids[1..][k - 1];
      if Broken(sids[0], skills) {
        assert exists k :: 0 <= k < |sids| && Broken(sids[k], skills);
      } else if exists k :: 0 <= k < |sids| && Broken(sids[k], skills) {
        var k :| 0 <= k < |sids| && Broken(sids[k], skills);
        assert Broken(sids[1..][k - 1], skills);
      }
    }
  }

  function OverloadWarnings(skills: map<string, SkillDir>, root: string): (r: seq<Finding>)
    ensures |r| == (if |skills| > DefaultMaxSkills then 1 else 0)
    ensures !HasFail(r)
  {
    if |skills| > DefaultMaxSkills then
      [Finding("skill-overload", Warn,
               "skill count=" + PyStr.IntToString(|skills|) + " exceeds threshold=" + PyStr.IntToString(DefaultMaxSkills), root)]
    else []
  }

  /** `validate_skill_structure`: every finding about a required skill lands in
      the errors list whatever its severity; only the skill count warns. */
  function ValidateSkillStructure(skills: map<string, SkillDir>, root: string): (r: (seq<Finding>, seq<Finding>))
    ensures |r.0| == (if |skills| > DefaultMaxSkills then 1 else 0) && !HasFail(r.0)
    ensures HasFail(r.1) <==> exists k :: 0 <= k < |RequiredSkills| && Broken(RequiredSkills[k], skills)
    ensures r.1 == [] <==> forall k :: 0 <= k < |RequiredSkills| ==> RequiredSkills[k] in skills && Clean(skills[RequiredSkills[k]])
  {
    BrokenClean(RequiredSkills, skills);
    (OverloadWarnings(skills, root), StructureErrors(RequiredSkills, skills, root))
  }

  // ---------------------------------------------------------------- report and exit

  /** `write_report`'s status: fail iff any finding, warning or error, is a fail. */
  function ReportStatus(warnings: seq<Finding>, errors: seq<Finding>): (s: string)
    ensures s == "fail" <==> HasFail(warnings) || HasFail(errors)
    ensures s == "ok" <==> !HasFail(warnings) && !HasFail(errors)
  {
    if HasFail(warnings) || HasFail(errors) then "fail" else "ok"
  }

  /** The status of the JSON summary: only the errors list can make it fail. */
  function SummaryStatus(warnings: seq<Finding>, errors: seq<Finding>): (s: string)
    ensures s == "fail" <==> HasFail(errors)
    ensures s == "warn" <==> !HasFail(errors) && |warnings| > 0
    ensures s == "ok" <==> !HasFail(errors) && |warnings| == 0
  {
    if HasFail(errors) then "fail" else if |warnings| > 0 then "warn" else "ok"
  }

  datatype Outcome =
    | NoSkillsDir
    | Checked(reportStatus: string, summaryStatus: string, findings: seq<Finding>, exitCode: int)

  /** The exit code of a run. */
  function Exit(o: Outcome): int {
    if o.NoSkillsDir? then 2 else o.exitCode
  }

  /** The findings `main` gathers: the structure checks, then the contract
      table (`get_default_contracts()` in the script). */
  function Gather(listing: map<string, Option<SkillDir>>, root: string, contracts: Value): (seq<Finding>, seq<Finding>) {
    Combine(ValidateSkillStructure(CollectSkills(listing), root), ValidateContracts(contracts))
  }

  /** Two (warnings, errors) pairs, the first's findings ahead. */
  function Combine(a: (seq<Finding>, seq<Finding>), b: (seq<Finding>, seq<Finding>)): (r: (seq<Finding>, seq<Finding>)) {
    (a.0 + b.0, a.1 + b.1)
  }

  /** A contract table that draws nothing leaves the structure findings alone. */
  lemma GatherClean(listing: map<string, Option<SkillDir>>, root: string, contracts: Value)
    requires ValidateContracts(contracts) == ([], [])
    ensures Gather(listing, root, contracts) == ValidateSkillStructure(CollectSkills(listing), root)
  {
    CombineNothing(ValidateSkillStructure(CollectSkills(listing), root));
  }

  lemma CombineNothing(a: (seq<Finding>, seq<Finding>))
    ensures Combine(a, ([], [])) == a
  {
    assert a.0 + [] == a.0 && a.1 + [] == a.1;
  }

  /** `main` as written: exit 2 without a skills directory, else exit 1
      whenever the errors list is non-empty, whatever the severities in it. */
  function MainAsWritten(listing: Option<map<string, Option<SkillDir>>>, root: string, contracts: Value): (o: Outcome)
    ensures listing.None? <==> Exit(o) == 2
    ensures listing.Some? ==> (Exit(o) == 1 <==> Gather(listing.value, root, contracts).1 != [])
  {
    if listing.None? then NoSkillsDir
    else
      var g := Gather(listing.value, root, contracts);
      Checked(ReportStatus(g.0, g.1), SummaryStatus(g.0, g.1), g.0 + g.1, if g.1 != [] then 1 else 0)
  }

  /** `main` with the exit code its report calls for: 1 iff some finding is a
      fail. */
  function Main(listing: Option<map<string, Option<SkillDir>>>, root: string, contracts: Value): (o: Outcome)
    ensures listing.None? <==> Exit(o) == 2
    ensures o.Checked? ==> (o.exitCode == 1 <==> o.reportStatus == "fail") && (o.exitCode == 0 <==> o.reportStatus == "ok")
  {
    if listing.None? then NoSkillsDir
    else
      var g := Gather(listing.value, root, contracts);
      var status := ReportStatus(g.0, g.1);
      Checked(status, SummaryStatus(g.0, g.1), g.0 + g.1, if status == "fail" then 1 else 0)
  }

  /** With a contract table that passes (the embedded defaults do, by
      `DefaultsPass`), the run fails exactly when a required skill is missing
      its folder, core.md or modules index. */
  lemma MainFailsOnBrokenSkill(listing: map<string, Option<SkillDir>>, root: string, contracts: Value)
    requires ValidateContracts(contracts) == ([], [])
    ensures Exit(Main(Some(listing), root, contracts)) == 1
        <==> exists k :: 0 <= k < |RequiredSkills| && Broken(RequiredSkills[k], CollectSkills(listing))
  {
    GatherClean(listing, root, contracts);
    var g := Gather(listing, root, contracts);
    assert !HasFail(g.0);
  }

  /** Every required skill name starts with `m`, so `collect_skills` keeps it. */
  lemma RequiredSkillsKept(listing: map<string, Option<SkillDir>>)
    ensures forall k :: 0 <= k < |RequiredSkills| && RequiredSkills[k] in listing && listing[RequiredSkills[k]].Some? ==>
              RequiredSkills[k] in CollectSkills(listing)
  {
    forall k | 0 <= k < |RequiredSkills| ensures |RequiredSkills[k]| > 0 && RequiredSkills[k][0] == 'm' {
    }
  }

  /** Collecting never adds names. */
  lemma CollectedFewer(listing: map<string, Option<SkillDir>>)
    ensures |CollectSkills(listing)| <= |listing|
  {
    var skills := CollectSkills(listing);
    assert skills.Keys <= listing.Keys;
    SubsetCard(skills.Keys, listing.Keys);
  }

  /** Required skills that all lack only their references and scripts
      directories give a non-empty errors list without a fail. */
  lemma WarnOnlyStructure(skills: map<string, SkillDir>, root: string)
    requires |skills| <= DefaultMaxSkills
    requires forall k :: 0 <= k < |RequiredSkills| ==>
               RequiredSkills[k] in skills && skills[RequiredSkills[k]] == SkillDir(Dir, Absent, Dir, Absent, Dir)
    ensures ValidateSkillStructure(skills, root).0 == []
    ensures ValidateSkillStructure(skills, root).1 != [] && !HasFail(ValidateSkillStructure(skills, root).1)
  {
    assert !Clean(skills[RequiredSkills[0]]);
  }

  /** A pack whose required skills all lack only their references and scripts
      directories: the errors list holds warnings only, so the report and the
      summary say ok while the run as written still exits 1. */
  lemma WarnOnlyRunExitsOne(listing: map<string, Option<SkillDir>>, root: string, contracts: Value)
    requires ValidateContracts(contracts) == ([], [])
    requires |listing| <= DefaultMaxSkills
    requires forall k :: 0 <= k < |RequiredSkills| ==>
               RequiredSkills[k] in listing && listing[RequiredSkills[k]] == Some(SkillDir(Dir, Absent, Dir, Absent, Dir))
    ensures MainAsWritten(Some(listing), root, contracts).reportStatus == "ok"
    ensures MainAsWritten(Some(listing), root, contracts).summaryStatus == "ok"
    ensures Exit(MainAsWritten(Some(listing), root, contracts)) == 1
    ensures Exit(Main(Some(listing), root, contracts)) == 0
  {
    var skills := CollectSkills(listing);
    RequiredSkillsKept(listing);
    CollectedFewer(listing);
    WarnOnlyStructure(skills, root);
    GatherClean(listing, root, contracts);
    var g := Gather(listing, root, contracts);
    assert !HasFail(g.0) && !HasFail(g.1) && g.0 == [] && g.1 != [];
  }

  lemma SubsetCard(a: set<string>, b: set<string>)
    requires a <= b
    ensures |a| <= |b|
  {
    assert b == a + (b - a);
  }
}
