/** The mental-model bundle builder: one validation chart per topology node,
    and a map from each node id to the list holding its chart. The execution
    planner reads the bundle back through `node_chart_map`. */
module Bundle {
  import opened Results
  import opened Json
  import Dicts
  import PyStr
  import ExecutionPlan

  datatype Chart = Chart(id: string, name: string, kind: string, owner: string)

  /** The bundle `build` returns. The map is the Python dict, keyed by the
      node ids themselves; the clock-derived `bundle_ref` and `created_at`
      are parameters. */
  datatype MentalModelBundle = MentalModelBundle(
    runId: Value,
    domain: string,
    bundleRef: string,
    localCharts: seq<Chart>,
    nodeChartMap: Dicts.Dict<Value, seq<string>>,
    coreAxioms: seq<string>,
    moduleIndex: seq<string>,
    checkpointStage: string,
    criteria: seq<string>,
    loadingPolicy: string,
    outputFormat: string,
    minFields: seq<string>,
    createdAt: string,
    sourceTopology: Value)

  const MinFields: seq<string> := ["bundle_ref", "node_chart_map", "local_charts"]
  const CoreAxioms: seq<string> := ["traceable output first", "small state transitions"]
  const ModuleIndex: seq<string> := ["module.bundle-contract", "module.loading-policy", "module.routing-kpi"]
  const Criteria: seq<string> := ["node coverage", "chart coverage", "checkpoint readiness"]

  const EmptyNodes := "ValueError: topology.nodes must be a non-empty list"
  const Unhashable := "TypeError: unhashable type"

  // ---------------------------------------------------------------- nodes

  /** `node.get("id", f"T{idx}")` for the node at 1-based position `idx`. */
  function NodeIdOf(node: Value, idx: nat): Value {
    GetOr(node, "id", Str("T" + PyStr.NatToString(idx)))
  }

  function ChartOf(id: Value): (c: Chart)
    ensures c.kind == "validation" && c.owner == "mental-model-design"
    ensures |c.id| >= 6 && c.id[..6] == "chart_" && c.id[6..] == ToStr(id)
  {
    Chart("chart_" + ToStr(id), "Chart for " + ToStr(id), "validation", "mental-model-design")
  }

  /** The id of every node, the missing ones numbered from 1. */
  function Ids(nodes: seq<Value>): (r: seq<Value>)
    ensures |r| == |nodes|
    ensures forall i :: 0 <= i < |nodes| ==> r[i] == NodeIdOf(nodes[i], i + 1)
  {
    seq(|nodes|, i requires 0 <= i < |nodes| => NodeIdOf(nodes[i], i + 1))
  }

  /** The error the loop stops at: the first node that is not a dict, or
      whose id cannot be a key. `first` is the position of `nodes[0]`. */
  function Failure(nodes: seq<Value>, first: nat): (r: Option<string>)
    decreases |nodes|
  {
    if |nodes| == 0 then None
    else if !nodes[0].Object? then Some(ExecutionPlan.NoGet)
    else if !Hashable(NodeIdOf(nodes[0], first)) then Some(Unhashable)
    else Failure(nodes[1..], first + 1)
  }

  predicate Wellformed(nodes: seq<Value>) {
    forall i :: 0 <= i < |nodes| ==> nodes[i].Object? && Hashable(NodeIdOf(nodes[i], i + 1))
  }

  /** The loop runs through exactly when every node is a dict with a usable id. */
  lemma {:induction false} FailureIff(nodes: seq<Value>, first: nat)
    ensures Failure(nodes, first).None? <==>
            forall i :: 0 <= i < |nodes| ==> nodes[i].Object? && Hashable(NodeIdOf(nodes[i], first + i))
    decreases |nodes|
  {
    if |nodes| > 0 {
      FailureIff(nodes[1..], first + 1);
      assert forall i :: 1 <= i < |nodes| ==> nodes[1..][i - 1] == nodes[i];
    }
  }

  /** Which error the loop stops at is decided by the first offending node. */
  lemma {:induction false} FailureFirst(nodes: seq<Value>, k: nat)
    requires k < |nodes|
    requires forall i :: 0 <= i < k ==> nodes[i].Object? && Hashable(NodeIdOf(nodes[i], i + 1))
    ensures !nodes[k].Object? ==> Failure(nodes, 1) == Some(ExecutionPlan.NoGet)
    ensures nodes[k].Object? && !Hashable(NodeIdOf(nodes[k], k + 1)) ==> Failure(nodes, 1) == Some(Unhashable)
  {
    FailureSkip(nodes, 1, k);
  }

  lemma {:induction false} FailureSkip(nodes: seq<Value>, first: nat, k: nat)
    requires k < |nodes|
    requires forall i :: 0 <= i < k ==> nodes[i].Object? && Hashable(NodeIdOf(nodes[i], first + i))
    ensures Failure(nodes, first) == Failure(nodes[k..], first + k)
    decreases k
  {
    if k > 0 {
      assert nodes[1..][k - 1..] == nodes[k..];
      assert forall i :: 0 <= i < k - 1 ==> nodes[1..][i] == nodes[i + 1];
      FailureSkip(nodes[1..], first + 1, k - 1);
    }
  }

  // ---------------------------------------------------------------- build

  function Charts(ids: seq<Value>): (r: seq<Chart>)
    ensures |r| == |ids|
    ensures forall i :: 0 <= i < |ids| ==> r[i] == ChartOf(ids[i])
  {
    seq(|ids|, i requires 0 <= i < |ids| => ChartOf(ids[i]))
  }

  /** `node_chart_map[node_id] = [chart_id]`, one assignment per node. */
  function MapPairs(ids: seq<Value>): (r: seq<(Value, seq<string>)>)
    ensures |r| == |ids|
    ensures forall i :: 0 <= i < |ids| ==> r[i] == (ids[i], [ChartOf(ids[i]).id])
  {
    seq(|ids|, i requires 0 <= i < |ids| => (ids[i], [ChartOf(ids[i]).id]))
  }

  /** The charts and the map of a bundle are the ones the loop makes from these ids. */
  predicate MadeFrom(b: MentalModelBundle, ids: seq<Value>) {
    b.localCharts == Charts(ids) && b.nodeChartMap == Dicts.FromPairs(MapPairs(ids))
  }

  /** The loop over a non-empty node list and the returned dict; `sourceTopology`
      is the topology's `topology_type`, or `"-"`. */
  function Assemble(nodes: seq<Value>, sourceTopology: Value, domain: string, runId: Value, bundleRef: string, createdAt: string)
    : (r: Result<MentalModelBundle>)
    ensures r.Ok? <==> Failure(nodes, 1).None?
    ensures r.Err? ==> r == Err(Failure(nodes, 1).value)
    ensures r.Ok? ==> |r.value.localCharts| == |nodes|
    ensures r.Ok? ==> r.value.runId == runId && r.value.domain == domain && r.value.bundleRef == bundleRef
    ensures r.Ok? ==> r.value.minFields == MinFields && r.value.sourceTopology == sourceTopology
    ensures r.Ok? ==> r.value.checkpointStage == "preflight" && r.value.loadingPolicy == "on_demand"
    ensures r.Ok? ==> MadeFrom(r.value, Ids(nodes))
  {
    match Failure(nodes, 1)
    case Some(msg) => Err(msg)
    case None =>
      var ids := Ids(nodes);
      Ok(MentalModelBundle(runId, domain, bundleRef, Charts(ids), Dicts.FromPairs(MapPairs(ids)),
                           CoreAxioms, ModuleIndex, "preflight", Criteria, "on_demand", "execution_plan_ready",
                           MinFields, createdAt, sourceTopology))
  }

  /** `build`. Both editions share it; they differ only in where `run_id` comes from. */
  function Build(topology: Value, domain: string, runId: Value, bundleRef: string, createdAt: string): (r: Result<MentalModelBundle>)
    ensures ExecutionPlan.NodesOf(topology).None? ==> r == Err(EmptyNodes)
    ensures ExecutionPlan.NodesOf(topology).Some? ==>
              r == Assemble(ExecutionPlan.NodesOf(topology).value, GetOr(topology, "topology_type", Str("-")),
                            domain, runId, bundleRef, createdAt)
  {
    match ExecutionPlan.NodesOf(topology)
    case None => Err(EmptyNodes)
    case Some(nodes) => Assemble(nodes, GetOr(topology, "topology_type", Str("-")), domain, runId, bundleRef, createdAt)
  }

  /** The loop runs through exactly when every node is a dict with a usable id. */
  lemma AssembleOk(nodes: seq<Value>, sourceTopology: Value, domain: string, runId: Value, bundleRef: string, createdAt: string)
    ensures Assemble(nodes, sourceTopology, domain, runId, bundleRef, createdAt).Ok? <==> Wellformed(nodes)
  {
    FailureIff(nodes, 1);
  }

  /** `build` succeeds exactly when the topology has a non-empty node list
      whose every node is a dict with a usable id. */
  lemma BuildOk(topology: Value, domain: string, runId: Value, bundleRef: string, createdAt: string)
    ensures Build(topology, domain, runId, bundleRef, createdAt).Ok? <==>
            ExecutionPlan.NodesOf(topology).Some? && Wellformed(ExecutionPlan.NodesOf(topology).value)
  {
    if ExecutionPlan.NodesOf(topology).Some? {
      AssembleOk(ExecutionPlan.NodesOf(topology).value, GetOr(topology, "topology_type", Str("-")),
                 domain, runId, bundleRef, createdAt);
    }
  }

  /** A dict filled from pairs whose value is a function of the key holds
      that function's value under every key, whichever pair came last. */
  lemma {:induction false} FromPairsFunctional(pairs: seq<(Value, seq<string>)>, k: Value)
    requires forall i :: 0 <= i < |pairs| ==> pairs[i].1 == [ChartOf(pairs[i].0).id]
    requires k in Dicts.FromPairs(pairs).keys
    ensures Dicts.Get(Dicts.FromPairs(pairs), k) == Some([ChartOf(k).id])
    decreases |pairs|
  {
    var last := pairs[|pairs| - 1];
    if k != last.0 {
      FromPairsFunctional(pairs[..|pairs| - 1], k);
    }
  }

  /** The map built from the ids lists each id's chart under it, and has a
      key for each id and for nothing else. */
  lemma MapOfIds(ids: seq<Value>)
    ensures forall i :: 0 <= i < |ids| ==> Dicts.Get(Dicts.FromPairs(MapPairs(ids)), ids[i]) == Some([ChartOf(ids[i]).id])
    ensures forall k :: k in Dicts.FromPairs(MapPairs(ids)).keys <==> k in ids
  {
    var pairs := MapPairs(ids);
    forall i | 0 <= i < |ids|
      ensures Dicts.Get(Dicts.FromPairs(pairs), ids[i]) == Some([ChartOf(ids[i]).id])
    {
      assert pairs[i].0 == ids[i];
      FromPairsFunctional(pairs, ids[i]);
    }
    forall k ensures k in Dicts.FromPairs(pairs).keys <==> k in ids {
      if k in Dicts.FromPairs(pairs).keys {
        var i :| 0 <= i < |pairs| && pairs[i].0 == k;
        assert ids[i] == k;
      }
      if k in ids {
        var i :| 0 <= i < |ids| && ids[i] == k;
        assert pairs[i].0 == k;
      }
    }
  }

  /** Every node's chart is `chart_<id>`, its map entry lists exactly that
      chart, and the map has a key for each node id and for nothing else. */
  lemma MapMatchesCharts(b: MentalModelBundle, ids: seq<Value>)
    requires MadeFrom(b, ids)
    ensures |b.localCharts| == |ids|
    ensures forall i :: 0 <= i < |ids| ==>
              b.localCharts[i].id == "chart_" + ToStr(ids[i])
              && Dicts.Get(b.nodeChartMap, ids[i]) == Some([b.localCharts[i].id])
    ensures forall k :: k in b.nodeChartMap.keys <==> k in ids
  {
    MapOfIds(ids);
  }

  // ---------------------------------------------------------------- run id

  /** The legacy edition: `topology.get("run_id", <clock>)`, which keeps a
      present but empty or non-string run id. */
  function LegacyRunId(topology: Value, clockRunId: string): (r: Value)
    ensures Has(topology, "run_id") ==> Get(topology, "run_id") == Some(r)
    ensures !Has(topology, "run_id") ==> r == Str(clockRunId)
  {
    GetOr(topology, "run_id", Str(clockRunId))
  }

  /** The product edition: `str(topology.get("run_id") or <workspace run id>)`. */
  function ProductRunId(topology: Value, workspaceRunId: string): (r: string)
    ensures Truthy(GetOrNull(topology, "run_id")) ==> r == ToStr(GetOrNull(topology, "run_id"))
    ensures !Truthy(GetOrNull(topology, "run_id")) ==> r == workspaceRunId
  {
    var t := GetOrNull(topology, "run_id");
    if Truthy(t) then ToStr(t) else workspaceRunId
  }

  /** A non-empty string run id in the topology is used by both editions;
      an empty one is kept by the legacy edition and replaced by the product one. */
  lemma RunIdsAgree(topology: Value, clockRunId: string, workspaceRunId: string)
    ensures Get(topology, "run_id").Some? && Get(topology, "run_id").value.Str? && Get(topology, "run_id").value.s != ""
            ==> LegacyRunId(topology, clockRunId) == Str(ProductRunId(topology, workspaceRunId))
    ensures Get(topology, "run_id") == Some(Str(""))
            ==> LegacyRunId(topology, clockRunId) == Str("") && ProductRunId(topology, workspaceRunId) == workspaceRunId
  {
  }

  /** `main` of the product edition: phase "20" ends completed or failed. */
  function Main(topology: Value, domain: string, workspaceRunId: string, bundleRef: string, createdAt: string)
    : (r: ExecutionPlan.Outcome<MentalModelBundle>)
    ensures r.phaseStatus == (if r.result.Ok? then "completed" else "failed")
    ensures r.result.Ok? ==> r.result.value.runId == Str(ProductRunId(topology, workspaceRunId))
  {
    var built := Build(topology, domain, Str(ProductRunId(topology, workspaceRunId)), bundleRef, createdAt);
    ExecutionPlan.Outcome(built, if built.Ok? then "completed" else "failed")
  }

  /** `build` of the legacy edition, whose run id falls back to the clock. */
  function LegacyBuild(topology: Value, domain: string, clockRunId: string, bundleRef: string, createdAt: string)
    : (r: Result<MentalModelBundle>)
    ensures r.Ok? ==> r.value.runId == LegacyRunId(topology, clockRunId)
  {
    Build(topology, domain, LegacyRunId(topology, clockRunId), bundleRef, createdAt)
  }

  /** Given a topology naming its run with a non-empty string, both editions
      write the same bundle and fail in the same way. */
  lemma EditionsAgree(topology: Value, domain: string, clockRunId: string, workspaceRunId: string,
                      bundleRef: string, createdAt: string)
    requires Get(topology, "run_id").Some? && Get(topology, "run_id").value.Str?
    requires Get(topology, "run_id").value.s != ""
    ensures LegacyBuild(topology, domain, clockRunId, bundleRef, createdAt)
            == Main(topology, domain, workspaceRunId, bundleRef, createdAt).result
  {
    RunIdsAgree(topology, clockRunId, workspaceRunId);
  }

  // ---------------------------------------------------------------- the written file

  /** How `json.dumps` writes a dict key: `None`, booleans and integers
      become their JSON spelling. */
  function KeyText(id: Value): string {
    match id
    case Null => "null"
    case Bool(b) => if b then "true" else "false"
    case Int(i) => PyStr.IntToString(i)
    case Str(s) => s
    case _ => ToStr(id)
  }

  function ChartValue(c: Chart): Value {
    Object([("id", Str(c.id)), ("name", Str(c.name)), ("type", Str(c.kind)), ("owner", Str(c.owner))])
  }

  function ChartValues(charts: seq<Chart>): (r: seq<Value>)
    ensures |r| == |charts|
    ensures forall i :: 0 <= i < |charts| ==> r[i] == ChartValue(charts[i])
  {
    seq(|charts|, i requires 0 <= i < |charts| => ChartValue(charts[i]))
  }

  /** The fields of the written `node_chart_map`, in insertion order. */
  function MapFields(m: Dicts.Dict<Value, seq<string>>): (r: seq<(string, Value)>)
    ensures |r| == |m.keys|
    ensures forall i :: 0 <= i < |m.keys| ==> r[i] == (KeyText(m.keys[i]), StrList(m.entries[m.keys[i]]))
  {
    seq(|m.keys|, i requires 0 <= i < |m.keys| => (KeyText(m.keys[i]), StrList(m.entries[m.keys[i]])))
  }

  /** The bundle as the JSON document the next phase loads, its keys in
      the order `build` lists them. */
  function ToValue(b: MentalModelBundle): (v: Value)
    ensures v.Object?
  {
    Object([
      ("run_id", b.runId),
      ("domain", Str(b.domain)),
      ("bundle_ref", Str(b.bundleRef)),
      ("core_axioms", StrList(b.coreAxioms)),
      ("local_charts", List(ChartValues(b.localCharts))),
      ("module_index", StrList(b.moduleIndex)),
      ("node_chart_map", Object(MapFields(b.nodeChartMap))),
      ("execution_checkpoints", Object([("stage", Str(b.checkpointStage)), ("criteria", StrList(b.criteria))])),
      ("loading_policy", Str(b.loadingPolicy)),
      ("output_contract", Object([("format", Str(b.outputFormat)), ("min_fields", StrList(b.minFields))])),
      ("metadata", Object([("created_at", Str(b.createdAt)), ("source_topology", b.sourceTopology)]))
    ])
  }

  /** Where the written document keeps the fields the planner reads. */
  lemma ToValueFields(b: MentalModelBundle)
    ensures ToValue(b).fields[2] == ("bundle_ref", Str(b.bundleRef))
    ensures ToValue(b).fields[4].0 == "local_charts"
    ensures ToValue(b).fields[6] == ("node_chart_map", Object(MapFields(b.nodeChartMap)))
    ensures forall i :: 0 <= i < 6 ==> ToValue(b).fields[i].0 != "node_chart_map"
  {
    var f := ToValue(b).fields;
    forall i | 0 <= i < 6 ensures f[i].0 != "node_chart_map" {
      assert |f[i].0| < 14;
    }
  }

  /** The written bundle holds every field its contract names, so the
      planner's input check accepts it. */
  lemma MinFieldsPresent(b: MentalModelBundle)
    requires b.minFields == MinFields
    ensures forall f :: f in b.minFields ==> Has(ToValue(b), f)
    ensures Has(ToValue(b), "bundle_ref") && Has(ToValue(b), "local_charts")
  {
    ToValueFields(b);
    var fields := ToValue(b).fields;
    assert fields[2].0 == "bundle_ref" && fields[4].0 == "local_charts" && fields[6].0 == "node_chart_map";
  }

  /** The planner reads the map back as written. */
  lemma ChartMapOf(b: MentalModelBundle)
    ensures ExecutionPlan.ChartMap(ToValue(b)) == Object(MapFields(b.nodeChartMap))
  {
    ToValueFields(b);
    LookupFirst(ToValue(b).fields, 6, "node_chart_map");
  }

  /** A map entry holding one chart is read back as that chart alone. */
  lemma ChartIdsOfEntry(chartMap: Value, s: string)
    requires GetOrNull(chartMap, s) == StrList(["chart_" + s])
    ensures ExecutionPlan.ChartIds(chartMap, s) == ["chart_" + s]
  {
    assert StrList(["chart_" + s]).items == [Str("chart_" + s)];
    assert ExecutionPlan.TruthyStrs([Str("chart_" + s)]) == [ToStr(Str("chart_" + s))] + ExecutionPlan.TruthyStrs([]);
  }

  /** With only string keys, a key's text finds the list the dict holds for it. */
  lemma MapFieldsLookup(m: Dicts.Dict<Value, seq<string>>, s: string)
    requires forall k :: k in m.keys ==> k.Str?
    requires Dicts.Get(m, Str(s)).Some?
    ensures Lookup(MapFields(m), s) == Some(StrList(Dicts.Get(m, Str(s)).value))
  {
    var fields := MapFields(m);
    var j :| 0 <= j < |m.keys| && m.keys[j] == Str(s);
    forall i | 0 <= i < j ensures fields[i].0 != s {
      assert m.keys[i] in m.keys;
      assert m.keys[i] != m.keys[j];
    }
    LookupFirst(fields, j, s);
  }

  /** With only string keys, the planner finds under a key's text the list
      the dict holds for it. */
  lemma PlannerReadsKey(b: MentalModelBundle, s: string)
    requires forall k :: k in b.nodeChartMap.keys ==> k.Str?
    requires Dicts.Get(b.nodeChartMap, Str(s)) == Some(["chart_" + s])
    ensures ExecutionPlan.ChartIds(ExecutionPlan.ChartMap(ToValue(b)), s) == ["chart_" + s]
  {
    MapFieldsLookup(b.nodeChartMap, s);
    ChartMapOf(b);
    ChartIdsOfEntry(Object(MapFields(b.nodeChartMap)), s);
  }

  /** A text no key is written as makes the planner fall back to `chart_<text>`. */
  lemma PlannerMissesKey(b: MentalModelBundle, s: string)
    requires forall i :: 0 <= i < |b.nodeChartMap.keys| ==> KeyText(b.nodeChartMap.keys[i]) != s
    ensures ExecutionPlan.ChartIds(ExecutionPlan.ChartMap(ToValue(b)), s) == ["chart_" + s]
  {
    var fields := MapFields(b.nodeChartMap);
    assert !HasField(fields, s);
    ChartMapOf(b);
  }

  /** The planner's view of the written map: for a node whose id is a
      string, with every node id a string or absent, the plan lists exactly
      the chart the bundle made for that node. */
  lemma PlannerSeesNodeChart(b: MentalModelBundle, nodes: seq<Value>, k: nat)
    requires MadeFrom(b, Ids(nodes))
    requires k < |nodes|
    requires forall i :: 0 <= i < |nodes| ==> NodeIdOf(nodes[i], i + 1).Str?
    requires Has(nodes[k], "id")
    ensures ExecutionPlan.ChartIds(ExecutionPlan.ChartMap(ToValue(b)), ExecutionPlan.NodeId(nodes[k])) == [b.localCharts[k].id]
  {
    var ids := Ids(nodes);
    var s := ids[k].s;
    MapOfIds(ids);
    assert GetOrNull(nodes[k], "id") == ids[k];
    assert forall key :: key in b.nodeChartMap.keys ==> key.Str?;
    PlannerReadsKey(b, s);
  }

  /** A node without an id is charted as `chart_T<position>` by the bundle,
      while the planner, reading the same missing id as `None`, falls back to
      `chart_None`, which is not that chart. */
  lemma IdlessNodeGetsUnknownChart(b: MentalModelBundle, nodes: seq<Value>, k: nat)
    requires MadeFrom(b, Ids(nodes))
    requires k < |nodes| && !Has(nodes[k], "id")
    requires forall i :: 0 <= i < |nodes| ==> KeyText(NodeIdOf(nodes[i], i + 1)) != "None"
    ensures b.localCharts[k] == ChartOf(Str("T" + PyStr.NatToString(k + 1)))
    ensures ExecutionPlan.ChartIds(ExecutionPlan.ChartMap(ToValue(b)), ExecutionPlan.NodeId(nodes[k])) == ["chart_None"]
    ensures b.localCharts[k].id != "chart_None"
  {
    IdlessChart(b, nodes, k);
    KeysAvoidText(b, nodes, "None");
    PlannerMissesKey(b, "None");
    ChartNone();
  }

  /** The chart the bundle makes for a node without an id. */
  lemma IdlessChart(b: MentalModelBundle, nodes: seq<Value>, k: nat)
    requires MadeFrom(b, Ids(nodes))
    requires k < |nodes| && !Has(nodes[k], "id")
    ensures b.localCharts[k] == ChartOf(Str("T" + PyStr.NatToString(k + 1)))
    ensures b.localCharts[k].id != "chart_None"
    ensures ExecutionPlan.NodeId(nodes[k]) == "None"
  {
    var id := Str("T" + PyStr.NatToString(k + 1));
    assert NodeIdOf(nodes[k], k + 1) == id;
    assert Ids(nodes)[k] == id;
    var c := b.localCharts[k];
    assert c == ChartOf(id);
    assert c.id[6..] == "T" + PyStr.NatToString(k + 1);
    assert c.id[6] == 'T';
    assert "chart_None"[6] == 'N';
    assert GetOrNull(nodes[k], "id") == Null;
  }

  /** A text no node id is written as is no key's text either. */
  lemma KeysAvoidText(b: MentalModelBundle, nodes: seq<Value>, s: string)
    requires MadeFrom(b, Ids(nodes))
    requires forall i :: 0 <= i < |nodes| ==> KeyText(NodeIdOf(nodes[i], i + 1)) != s
    ensures forall j :: 0 <= j < |b.nodeChartMap.keys| ==> KeyText(b.nodeChartMap.keys[j]) != s
  {
    var ids := Ids(nodes);
    MapOfIds(ids);
    forall j | 0 <= j < |b.nodeChartMap.keys| ensures KeyText(b.nodeChartMap.keys[j]) != s {
      assert b.nodeChartMap.keys[j] in b.nodeChartMap.keys;
      var i :| 0 <= i < |ids| && ids[i] == b.nodeChartMap.keys[j];
      assert KeyText(NodeIdOf(nodes[i], i + 1)) != s;
    }
  }

  lemma ChartNone()
    ensures "chart_" + "None" == "chart_None"
  {
  }
}
