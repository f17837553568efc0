/** The execution planner: from a workflow topology and a mental-model
    bundle it derives, node by node, the charts to use, the permission mode
    and the model, and (in the graph edition) the node's place in the
    state-transition graph: a merge where two or more edges come in, a branch
    where two or more go out, a commit otherwise. The flat edition instead
    emits four maps keyed by node id. */
module ExecutionPlan {
  import opened Results
  import opened Json
  import Dicts

  // ---------------------------------------------------------------- per-node policy

  /** `infer_mode`: the permission mode for a theta band. */
  function InferMode(theta: string): (mode: string)
    ensures mode == "dontAsk" || mode == "default" || mode == "plan"
  {
    if theta == "wide" then "dontAsk"
    else if theta == "moderate" then "default"
    else "plan"
  }

  const WideModel := "claude-3.5-sonnet"
  const DefaultModel := "gpt-4o-mini"

  /** The model a node of the band runs on. */
  function ModelFor(theta: string): (model: string)
    ensures model == WideModel || model == DefaultModel
  {
    if theta != "wide" then DefaultModel else WideModel
  }

  /** Only the wide band runs without asking, only the moderate band in the
      default mode, and the wide model goes exactly to the nodes that run
      without asking. */
  lemma ModeAndModel(theta: string)
    ensures InferMode(theta) == "dontAsk" <==> theta == "wide"
    ensures InferMode(theta) == "default" <==> theta == "moderate"
    ensures ModelFor(theta) == WideModel <==> InferMode(theta) == "dontAsk"
  {
  }

  /** `str(node.get("id"))`: a node without an id is called `None`. */
  function NodeId(node: Value): string {
    ToStr(GetOrNull(node, "id"))
  }

  /** `str(node.get("theta_gt_band", "moderate"))` */
  function ThetaOf(node: Value): string {
    ToStr(GetOr(node, "theta_gt_band", Str("moderate")))
  }

  // ---------------------------------------------------------------- edges

  /** `topology.get("edges") or []`, anything but a list read as no edges. */
  function EdgesOf(topology: Value): seq<Value> {
    var e := GetOrNull(topology, "edges");
    if e.List? then e.items else []
  }

  /** `str(e.get(key, ""))` */
  function End(e: Value, key: string): string {
    ToStr(GetOr(e, key, Str("")))
  }

  predicate AllDicts(vs: seq<Value>) {
    forall i :: 0 <= i < |vs| ==> vs[i].Object?
  }

  /** The edges whose `key` end is the node, in order. */
  function EdgesAt(edges: seq<Value>, key: string, id: string): (r: seq<Value>)
    ensures |r| <= |edges|
  {
    if |edges| == 0 then []
    else (if End(edges[0], key) == id then [edges[0]] else []) + EdgesAt(edges[1..], key, id)
  }

  /** The `key` end of every edge, in order. */
  function Ends(edges: seq<Value>, key: string): (r: seq<string>)
    ensures |r| == |edges|
    ensures forall i :: 0 <= i < |edges| ==> r[i] == End(edges[i], key)
  {
    seq(|edges|, i requires 0 <= i < |edges| => End(edges[i], key))
  }

  /** The filtered list is as long as the node occurs among the ends. */
  lemma {:induction false} EdgesAtCount(edges: seq<Value>, key: string, id: string)
    ensures |EdgesAt(edges, key, id)| == multiset(Ends(edges, key))[id]
    decreases |edges|
  {
    if |edges| > 0 {
      EdgesAtCount(edges[1..], key, id);
      assert Ends(edges, key) == [End(edges[0], key)] + Ends(edges[1..], key);
    }
  }

  /** `determine_node_type` */
  function NodeType(edges: seq<Value>, id: string): string {
    if |EdgesAt(edges, "to", id)| >= 2 then "merge"
    else if |EdgesAt(edges, "from", id)| >= 2 then "branch"
    else "commit"
  }

  /** A node is a merge exactly when two or more edges end at it (whatever
      leaves it), a branch exactly when fewer come in and two or more leave,
      and a commit otherwise. */
  lemma NodeTypeByDegree(edges: seq<Value>, id: string)
    ensures var ins := multiset(Ends(edges, "to"))[id];
            var outs := multiset(Ends(edges, "from"))[id];
            (NodeType(edges, id) == "merge" <==> ins >= 2)
            && (NodeType(edges, id) == "branch" <==> ins < 2 && outs >= 2)
            && (NodeType(edges, id) == "commit" <==> ins < 2 && outs < 2)
  {
    EdgesAtCount(edges, "to", id);
    EdgesAtCount(edges, "from", id);
  }

  /** `compute_parent_refs`: the source of every edge into the node, in edge
      order, empty sources dropped. */
  function ParentRefs(edges: seq<Value>, id: string): (r: seq<string>)
    ensures |r| <= |EdgesAt(edges, "to", id)|
  {
    if |edges| == 0 then []
    else
      var src := End(edges[0], "from");
      (if End(edges[0], "to") == id && src != "" then [src] else []) + ParentRefs(edges[1..], id)
  }

  /** The parents are exactly the non-empty sources of the edges into the node. */
  lemma {:induction false} ParentRefsMembers(edges: seq<Value>, id: string, p: string)
    ensures p in ParentRefs(edges, id) <==>
              p != "" && exists i :: 0 <= i < |edges| && End(edges[i], "to") == id && End(edges[i], "from") == p
    decreases |edges|
  {
    if |edges| > 0 {
      ParentRefsMembers(edges[1..], id, p);
      if exists i :: 0 <= i < |edges| && End(edges[i], "to") == id && End(edges[i], "from") == p {
        var i :| 0 <= i < |edges| && End(edges[i], "to") == id && End(edges[i], "from") == p;
        if i > 0 {
          assert edges[1..][i - 1] == edges[i];
        }
      }
      if exists i :: 0 <= i < |edges[1..]| && End(edges[1..][i], "to") == id && End(edges[1..][i], "from") == p {
        var i :| 0 <= i < |edges[1..]| && End(edges[1..][i], "to") == id && End(edges[1..][i], "from") == p;
        assert edges[i + 1] == edges[1..][i];
      }
    }
  }

  // ---------------------------------------------------------------- charts

  /** `bundle.get("node_chart_map") or {}`, anything but a dict read as empty. */
  function ChartMap(bundle: Value): (m: Value)
    ensures m.Object?
  {
    var m := GetOrNull(bundle, "node_chart_map");
    if m.Object? then m else Object([])
  }

  /** `[str(c) for c in charts if c]` */
  function TruthyStrs(vs: seq<Value>): (r: seq<string>)
    ensures |r| <= |vs|
    ensures forall i :: 0 <= i < |r| ==> r[i] != ""
  {
    if |vs| == 0 then []
    else
      (if Truthy(vs[0]) then TruthyStrNonEmpty(vs[0]); [ToStr(vs[0])] else [])
        + TruthyStrs(vs[1..])
  }

  /** A truthy value never prints as the empty string. */
  lemma TruthyStrNonEmpty(v: Value)
    requires Truthy(v)
    ensures ToStr(v) != ""
  {
    match v
    case Int(i) =>
    case Str(s) =>
    case Bool(b) =>
    case List(items) => assert ToStr(v)[0] == '[';
    case Object(fields) => assert ToStr(v)[0] == '{';
  }

  /** The chart ids of a node: those the bundle maps the node to, or the
      node's own fallback chart when the bundle has none for it; a single
      value stands for a one-element list, and empty entries are dropped. */
  function ChartIds(chartMap: Value, id: string): (r: seq<string>)
    ensures !Truthy(GetOrNull(chartMap, id)) ==> r == ["chart_" + id]
    ensures forall i :: 0 <= i < |r| ==> r[i] != ""
  {
    var charts := GetOrNull(chartMap, id);
    var listed :=
      if !Truthy(charts) then [Str("chart_" + id)]
      else if charts.List? then charts.items
      else [Str(ToStr(charts))];
    if !Truthy(charts) then
      assert TruthyStrs(listed) == [ToStr(Str("chart_" + id))] + TruthyStrs([]) by {
        assert listed[1..] == [];
      }
      TruthyStrs(listed)
    else TruthyStrs(listed)
  }

  // ---------------------------------------------------------------- graph edition

  /** The weights of a merge, in hundredths. */
  const ScoringWeights: seq<(string, nat)> := [("confidence", 40), ("completeness", 30), ("format_compliance", 30)]

  datatype MergePolicy = MergePolicy(strategy: string, weights: seq<(string, nat)>, quorum: nat, manualReviewRequired: bool)

  /** One entry of `execution_graph`. The fixed parts (a `sha256` tree hash
      with no reference yet, and the handoff contract asking for output,
      status and evidence as JSON for the next node) are the same for
      every node and are not repeated here. */
  datatype GraphNode = GraphNode(
    nodeType: string,
    bundleRef: Value,
    parentRefs: seq<string>,
    modelSelection: string,
    chartIds: seq<string>,
    mode: string,
    mergePolicy: Option<MergePolicy>)

  function Max(a: int, b: int): int {
    if a >= b then a else b
  }

  /** `bundle.get("bundle_ref", "bundle-unknown")` */
  function BundleRef(bundle: Value): Value {
    GetOr(bundle, "bundle_ref", Str("bundle-unknown"))
  }

  /** The graph entry of one node. */
  function GraphNodeFor(node: Value, topology: Value, bundle: Value): (g: GraphNode)
    ensures g.mergePolicy.Some? <==> g.nodeType == "merge"
    ensures g.mergePolicy.Some? ==> g.mergePolicy.value.quorum >= 2 && g.mergePolicy.value.quorum >= |g.parentRefs|
  {
    var id := NodeId(node);
    var theta := ThetaOf(node);
    var edges := EdgesOf(topology);
    var kind := NodeType(edges, id);
    var parents := ParentRefs(edges, id);
    GraphNode(kind, BundleRef(bundle), parents, ModelFor(theta), ChartIds(ChartMap(bundle), id), InferMode(theta),
              if kind == "merge" then Some(MergePolicy("score_weighted", ScoringWeights, Max(2, |parents|), false)) else None)
  }

  datatype FallbackRule = FallbackRule(
    errorType: string,
    severity: string,
    action: string,
    maxRetry: nat,
    requiresHuman: bool,
    retryProfile: Option<RetryProfile>)

  /** A retry's model, temperature (in tenths) and prompt override. */
  datatype RetryProfile = RetryProfile(model: string, temperatureTenths: nat, promptOverride: string)

  /** The four fallback rules every graph plan carries; none names a target
      commit yet. */
  const FallbackRules: seq<FallbackRule> := [
    FallbackRule("schema_validation_error", "high", "checkout", 2, false,
                 Some(RetryProfile(DefaultModel, 2, "strict_output_format"))),
    FallbackRule("hallucination", "medium", "retry", 1, false, None),
    FallbackRule("timeout", "low", "retry", 3, false, None),
    FallbackRule("hitl_block", "critical", "escalate", 0, true, None)
  ]

  /** Branches live a week, artifacts a month, merged branches are archived
      and clean-up runs daily. */
  datatype Lifecycle = Lifecycle(branchTtlDays: nat, artifactRetentionDays: nat, archiveOnMerge: bool, cleanupIntervalDays: nat)
  const DefaultLifecycle := Lifecycle(7, 30, true, 1)

  datatype Plan = Plan(
    runId: string,
    bundleRef: Value,
    graph: Dicts.Dict<string, GraphNode>,
    fallbackRules: seq<FallbackRule>,
    lifecycle: Lifecycle,
    nodesProcessed: seq<string>)

  /** `topology.get("nodes") or []`, which must be a non-empty list. */
  function NodesOf(topology: Value): (r: Option<seq<Value>>)
    ensures r.Some? ==> |r.value| > 0
  {
    var n := GetOrNull(topology, "nodes");
    if n.List? && |n.items| > 0 then Some(n.items) else None
  }

  /** The ids of the nodes whose id is truthy, in order. */
  function NodesProcessed(nodes: seq<Value>): (r: seq<string>)
    ensures |r| <= |nodes|
    ensures forall i :: 0 <= i < |r| ==> r[i] != ""
  {
    if |nodes| == 0 then []
    else
      var id := GetOrNull(nodes[0], "id");
      (if Truthy(id) then TruthyStrNonEmpty(id); [ToStr(id)] else []) + NodesProcessed(nodes[1..])
  }

  /** Each node's id paired with its graph entry, in node order. */
  function GraphPairs(nodes: seq<Value>, topology: Value, bundle: Value): (r: seq<(string, GraphNode)>)
    ensures |r| == |nodes|
    ensures forall i :: 0 <= i < |nodes| ==> r[i].0 == NodeId(nodes[i])
  {
    seq(|nodes|, i requires 0 <= i < |nodes| => (NodeId(nodes[i]), GraphNodeFor(nodes[i], topology, bundle)))
  }

  const EmptyNodes := "ValueError: topology.nodes is empty"
  const NoGet := "AttributeError: object has no attribute 'get'"

  /** `build` of the graph edition. */
  function Build(topology: Value, bundle: Value, runId: string): (r: Result<Plan>)
    requires topology.Object? && bundle.Object?
    ensures NodesOf(topology).None? ==> r == Err(EmptyNodes)
    ensures r.Ok? <==> NodesOf(topology).Some? && AllDicts(NodesOf(topology).value) && AllDicts(EdgesOf(topology))
    ensures r.Ok? ==> r.value.runId == runId && r.value.fallbackRules == FallbackRules
  {
    match NodesOf(topology)
    case None => Err(EmptyNodes)
    case Some(nodes) =>
      if !AllDicts(nodes) || !AllDicts(EdgesOf(topology)) then Err(NoGet)
      else
        Ok(Plan(runId, BundleRef(bundle), Dicts.FromPairs(GraphPairs(nodes, topology, bundle)),
                FallbackRules, DefaultLifecycle, NodesProcessed(nodes)))
  }

  /** The id of every node, in order. */
  function Ids(nodes: seq<Value>): (r: seq<string>)
    ensures |r| == |nodes|
    ensures forall i :: 0 <= i < |nodes| ==> r[i] == NodeId(nodes[i])
  {
    seq(|nodes|, i requires 0 <= i < |nodes| => NodeId(nodes[i]))
  }

  /** The position of the last occurrence of `k`. */
  function LastAt(ids: seq<string>, k: string): (i: nat)
    requires k in ids
    ensures i < |ids| && ids[i] == k
    ensures forall j :: i < j < |ids| ==> ids[j] != k
    decreases |ids|
  {
    if ids[|ids| - 1] == k then |ids| - 1
    else
      assert k in ids[..|ids| - 1] by {
        var j :| 0 <= j < |ids| && ids[j] == k;
        assert ids[..|ids| - 1][j] == k;
      }
      LastAt(ids[..|ids| - 1], k)
  }

  /** A dict filled from pairs keyed by `ids` holds exactly those ids. */
  lemma FromPairsKeys<V>(pairs: seq<(string, V)>, ids: seq<string>, k: string)
    requires |pairs| == |ids| && forall i :: 0 <= i < |ids| ==> pairs[i].0 == ids[i]
    ensures k in Dicts.FromPairs(pairs).keys <==> k in ids
  {
    if k in ids {
      var i :| 0 <= i < |ids| && ids[i] == k;
      assert pairs[i].0 == k;
    }
    if exists i :: 0 <= i < |pairs| && pairs[i].0 == k {
      var i :| 0 <= i < |pairs| && pairs[i].0 == k;
      assert ids[i] == k;
    }
  }

  /** Filling a dict from pairs keyed by `ids` leaves each key with the value
      of its last pair. */
  lemma FromPairsAtLast<V>(pairs: seq<(string, V)>, ids: seq<string>, k: string)
    requires |pairs| == |ids| && forall i :: 0 <= i < |ids| ==> pairs[i].0 == ids[i]
    requires k in ids
    ensures Dicts.Get(Dicts.FromPairs(pairs), k) == Some(pairs[LastAt(ids, k)].1)
  {
    Dicts.FromPairsLastWins(pairs, LastAt(ids, k));
  }

  /** The graph filled from the nodes has one entry per distinct node id,
      and each id's entry is the one built from the last node carrying it. */
  lemma GraphAt(nodes: seq<Value>, topology: Value, bundle: Value, k: string)
    ensures var graph := Dicts.FromPairs(GraphPairs(nodes, topology, bundle));
            (k in graph.keys <==> k in Ids(nodes))
            && (k in Ids(nodes) ==>
                  Dicts.Get(graph, k) == Some(GraphNodeFor(nodes[LastAt(Ids(nodes), k)], topology, bundle)))
  {
    var pairs := GraphPairs(nodes, topology, bundle);
    var ids := Ids(nodes);
    FromPairsKeys(pairs, ids, k);
    if k in ids {
      FromPairsAtLast(pairs, ids, k);
    }
  }

  /** The plan's graph has one entry per distinct node id, and each id's
      entry is the one built from the last node carrying it. */
  lemma BuildGraph(topology: Value, bundle: Value, runId: string, k: string)
    requires topology.Object? && bundle.Object? && Build(topology, bundle, runId).Ok?
    ensures var nodes := NodesOf(topology).value;
            var graph := Build(topology, bundle, runId).value.graph;
            (k in graph.keys <==> k in Ids(nodes))
            && (k in Ids(nodes) ==>
                  Dicts.Get(graph, k) == Some(GraphNodeFor(nodes[LastAt(Ids(nodes), k)], topology, bundle)))
  {
    var nodes := NodesOf(topology).value;
    assert Build(topology, bundle, runId).value.graph == Dicts.FromPairs(GraphPairs(nodes, topology, bundle));
    GraphAt(nodes, topology, bundle, k);
  }

  /** Every processed id has an entry in the graph. */
  lemma {:induction false} ProcessedAreNodes(nodes: seq<Value>, x: string)
    requires x in NodesProcessed(nodes)
    ensures x in Ids(nodes)
    decreases |nodes|
  {
    var id := GetOrNull(nodes[0], "id");
    if Truthy(id) && x == ToStr(id) {
      assert Ids(nodes)[0] == x;
    } else {
      assert x in NodesProcessed(nodes[1..]);
      ProcessedAreNodes(nodes[1..], x);
      var j :| 0 <= j < |nodes| - 1 && Ids(nodes[1..])[j] == x;
      assert Ids(nodes)[j + 1] == x;
    }
  }

  /** What a node's entry says: its parents are the non-empty sources of the
      edges into it; it carries a merge policy, with a quorum of at least two
      and at least its number of parents, exactly when two or more edges come
      in; it runs on the wide model exactly when it runs without asking; its
      charts are the fallback chart when the bundle names none for it. */
  lemma GraphNodeMeans(node: Value, topology: Value, bundle: Value, p: string)
    ensures var g := GraphNodeFor(node, topology, bundle);
            var id := NodeId(node);
            var edges := EdgesOf(topology);
            (p in g.parentRefs <==>
               p != "" && exists i :: 0 <= i < |edges| && End(edges[i], "to") == id && End(edges[i], "from") == p)
            && (g.mergePolicy.Some? <==> multiset(Ends(edges, "to"))[id] >= 2)
            && (g.mergePolicy.Some? ==> g.mergePolicy.value.quorum == Max(2, |g.parentRefs|))
            && (g.modelSelection == WideModel <==> g.mode == "dontAsk")
            && (!Truthy(GetOrNull(ChartMap(bundle), id)) ==> g.chartIds == ["chart_" + id])
  {
    var id := NodeId(node);
    ParentRefsMembers(EdgesOf(topology), id, p);
    NodeTypeByDegree(EdgesOf(topology), id);
    ModeAndModel(ThetaOf(node));
  }

  /** The four fallback rules cover distinct error types, and only a HITL
      block needs a human. */
  lemma FallbackRulesMeans()
    ensures |FallbackRules| == 4
    ensures forall i, j :: 0 <= i < j < |FallbackRules| ==> FallbackRules[i].errorType != FallbackRules[j].errorType
    ensures forall i :: 0 <= i < |FallbackRules| ==>
              (FallbackRules[i].requiresHuman <==> FallbackRules[i].errorType == "hitl_block")
  {
  }

  /** The merge weights add up to one. */
  lemma WeightsSumToOne()
    ensures ScoringWeights[0].1 + ScoringWeights[1].1 + ScoringWeights[2].1 == 100
  {
  }

  // ---------------------------------------------------------------- flat edition

  /** A node's charts and the checkpoint it waits at. */
  datatype NodeCharts = NodeCharts(chartIds: seq<string>, checkpointId: string)

  /** The flat edition's plan. Its fixed parts (the handoff contract, two
      retries ten seconds apart and a HITL request on failure) are not
      repeated here. */
  datatype FlatPlan = FlatPlan(
    runId: string,
    bundleRef: Value,
    nodeChartMap: Dicts.Dict<string, NodeCharts>,
    taskToChartMap: Dicts.Dict<string, seq<string>>,
    nodeModePolicy: Dicts.Dict<string, string>,
    modelSelectionPolicy: Dicts.Dict<string, string>,
    nodesProcessed: seq<string>)

  /** `topology.get("strategy_gate") and "pre_h2" or "preflight"` */
  function CheckpointId(topology: Value): string {
    if Truthy(GetOrNull(topology, "strategy_gate")) then "pre_h2" else "preflight"
  }

  /** The band of every node, in order. */
  function Thetas(nodes: seq<Value>): (r: seq<string>)
    ensures |r| == |nodes|
    ensures forall i :: 0 <= i < |nodes| ==> r[i] == ThetaOf(nodes[i])
  {
    seq(|nodes|, i requires 0 <= i < |nodes| => ThetaOf(nodes[i]))
  }

  function ChartPairs(ids: seq<string>, chartMap: Value, checkpoint: string): (r: seq<(string, NodeCharts)>)
    ensures |r| == |ids|
    ensures forall i :: 0 <= i < |ids| ==> r[i] == (ids[i], NodeCharts(ChartIds(chartMap, ids[i]), checkpoint))
  {
    seq(|ids|, i requires 0 <= i < |ids| => (ids[i], NodeCharts(ChartIds(chartMap, ids[i]), checkpoint)))
  }

  function TaskPairs(ids: seq<string>, chartMap: Value): (r: seq<(string, seq<string>)>)
    ensures |r| == |ids|
    ensures forall i :: 0 <= i < |ids| ==> r[i] == (ids[i], ChartIds(chartMap, ids[i]))
  {
    seq(|ids|, i requires 0 <= i < |ids| => (ids[i], ChartIds(chartMap, ids[i])))
  }

  function ModePairs(ids: seq<string>, thetas: seq<string>): (r: seq<(string, string)>)
    requires |thetas| == |ids|
    ensures |r| == |ids|
    ensures forall i :: 0 <= i < |ids| ==> r[i] == (ids[i], InferMode(thetas[i]))
  {
    seq(|ids|, i requires 0 <= i < |ids| => (ids[i], InferMode(thetas[i])))
  }

  function ModelPairs(ids: seq<string>, thetas: seq<string>): (r: seq<(string, string)>)
    requires |thetas| == |ids|
    ensures |r| == |ids|
    ensures forall i :: 0 <= i < |ids| ==> r[i] == (ids[i], ModelFor(thetas[i]))
  {
    seq(|ids|, i requires 0 <= i < |ids| => (ids[i], ModelFor(thetas[i])))
  }

  /** `build` of the flat edition. */
  function BuildFlat(topology: Value, bundle: Value, runId: string): (r: Result<FlatPlan>)
    requires topology.Object? && bundle.Object?
    ensures NodesOf(topology).None? ==> r == Err(EmptyNodes)
    ensures r.Ok? <==> NodesOf(topology).Some? && AllDicts(NodesOf(topology).value)
    ensures r.Ok? ==> r.value.runId == runId
  {
    match NodesOf(topology)
    case None => Err(EmptyNodes)
    case Some(nodes) =>
      if !AllDicts(nodes) then Err(NoGet)
      else
        Ok(FlatPlan(runId, BundleRef(bundle),
                    Dicts.FromPairs(ChartPairs(Ids(nodes), ChartMap(bundle), CheckpointId(topology))),
                    Dicts.FromPairs(TaskPairs(Ids(nodes), ChartMap(bundle))),
                    Dicts.FromPairs(ModePairs(Ids(nodes), Thetas(nodes))),
                    Dicts.FromPairs(ModelPairs(Ids(nodes), Thetas(nodes))),
                    NodesProcessed(nodes)))
  }

  /** The flat plan's maps, each filled from its own pair list. */
  lemma FlatFields(topology: Value, bundle: Value, runId: string)
    requires topology.Object? && bundle.Object? && BuildFlat(topology, bundle, runId).Ok?
    ensures var nodes := NodesOf(topology).value;
            var plan := BuildFlat(topology, bundle, runId).value;
            plan.nodeChartMap == Dicts.FromPairs(ChartPairs(Ids(nodes), ChartMap(bundle), CheckpointId(topology)))
            && plan.taskToChartMap == Dicts.FromPairs(TaskPairs(Ids(nodes), ChartMap(bundle)))
            && plan.nodeModePolicy == Dicts.FromPairs(ModePairs(Ids(nodes), Thetas(nodes)))
            && plan.modelSelectionPolicy == Dicts.FromPairs(ModelPairs(Ids(nodes), Thetas(nodes)))
  {
  }

  /** The four pair lists agree on the entry each id ends with. */
  lemma PairsAgreeAt(ids: seq<string>, thetas: seq<string>, chartMap: Value, checkpoint: string, k: string)
    requires |thetas| == |ids| && k in ids
    ensures var charts := Dicts.Get(Dicts.FromPairs(ChartPairs(ids, chartMap, checkpoint)), k);
            var tasks := Dicts.Get(Dicts.FromPairs(TaskPairs(ids, chartMap)), k);
            var mode := Dicts.Get(Dicts.FromPairs(ModePairs(ids, thetas)), k);
            var model := Dicts.Get(Dicts.FromPairs(ModelPairs(ids, thetas)), k);
            charts.Some? && tasks.Some? && mode.Some? && model.Some?
            && charts.value.chartIds == tasks.value
            && charts.value.checkpointId == checkpoint
            && (model.value == WideModel <==> mode.value == "dontAsk")
  {
    var i := LastAt(ids, k);
    FromPairsAtLast(ChartPairs(ids, chartMap, checkpoint), ids, k);
    FromPairsAtLast(TaskPairs(ids, chartMap), ids, k);
    FromPairsAtLast(ModePairs(ids, thetas), ids, k);
    FromPairsAtLast(ModelPairs(ids, thetas), ids, k);
    ModeAndModel(thetas[i]);
  }

  /** The four maps of a flat plan hold the same node ids; for each of them
      the node's chart list and its task-to-chart list agree, its checkpoint
      is `pre_h2` exactly when the topology has a truthy strategy gate, and
      the wide model goes with the mode that does not ask. */
  lemma FlatMapsAgree(topology: Value, bundle: Value, runId: string, k: string)
    requires topology.Object? && bundle.Object? && BuildFlat(topology, bundle, runId).Ok?
    requires k in Ids(NodesOf(topology).value)
    ensures var plan := BuildFlat(topology, bundle, runId).value;
            var charts := Dicts.Get(plan.nodeChartMap, k);
            var tasks := Dicts.Get(plan.taskToChartMap, k);
            var mode := Dicts.Get(plan.nodeModePolicy, k);
            var model := Dicts.Get(plan.modelSelectionPolicy, k);
            charts.Some? && tasks.Some? && mode.Some? && model.Some?
            && charts.value.chartIds == tasks.value
            && (charts.value.checkpointId == "pre_h2" <==> Truthy(GetOrNull(topology, "strategy_gate")))
            && (model.value == WideModel <==> mode.value == "dontAsk")
  {
    var nodes := NodesOf(topology).value;
    FlatFields(topology, bundle, runId);
    PairsAgreeAt(Ids(nodes), Thetas(nodes), ChartMap(bundle), CheckpointId(topology), k);
  }

  /** The maps hold no id beyond the nodes'. */
  lemma FlatMapKeys(topology: Value, bundle: Value, runId: string, k: string)
    requires topology.Object? && bundle.Object? && BuildFlat(topology, bundle, runId).Ok?
    ensures k in BuildFlat(topology, bundle, runId).value.nodeChartMap.keys <==> k in Ids(NodesOf(topology).value)
  {
    var nodes := NodesOf(topology).value;
    FlatFields(topology, bundle, runId);
    ChartKeys(Ids(nodes), ChartMap(bundle), CheckpointId(topology), k);
  }

  lemma ChartKeys(ids: seq<string>, chartMap: Value, checkpoint: string, k: string)
    ensures k in Dicts.FromPairs(ChartPairs(ids, chartMap, checkpoint)).keys <==> k in ids
  {
    FromPairsKeys(ChartPairs(ids, chartMap, checkpoint), ids, k);
  }

  // ---------------------------------------------------------------- main

  /** The first key the inputs lack, as the exit message names it. */
  function MissingInput(topology: Value, bundle: Value): (r: Option<string>)
    ensures r.None? <==> Has(topology, "nodes") && Has(topology, "topology_type")
                         && Has(bundle, "bundle_ref") && Has(bundle, "local_charts")
  {
    if !Has(topology, "nodes") then Some("invalid topology: missing nodes")
    else if !Has(topology, "topology_type") then Some("invalid topology: missing topology_type")
    else if !Has(bundle, "bundle_ref") then Some("invalid bundle: missing bundle_ref")
    else if !Has(bundle, "local_charts") then Some("invalid bundle: missing local_charts")
    else None
  }

  /** `str(topology.get("run_id") or bundle.get("run_id") or fallback)` */
  function RunIdFor(topology: Value, bundle: Value, fallback: string): (r: string)
    ensures Truthy(GetOrNull(topology, "run_id")) ==> r == ToStr(GetOrNull(topology, "run_id"))
    ensures !Truthy(GetOrNull(topology, "run_id")) && !Truthy(GetOrNull(bundle, "run_id")) ==> r == fallback
  {
    var t := GetOrNull(topology, "run_id");
    var b := GetOrNull(bundle, "run_id");
    if Truthy(t) then ToStr(t) else if Truthy(b) then ToStr(b) else fallback
  }

  /** What a run leaves behind: the plan or the error, and the status the
      run's manifest records for the execution phase. */
  datatype Outcome<T> = Outcome(result: Result<T>, phaseStatus: string)

  /** `main` as written: the missing-key exit is a `SystemExit`, which the
      `except Exception` around the run does not catch, so the phase keeps the
      `active` status it was given on entry. */
  function MainAsWritten(topology: Value, bundle: Value, fallbackRunId: string): (r: Outcome<Plan>)
    requires topology.Object? && bundle.Object?
  {
    match MissingInput(topology, bundle)
    case Some(msg) => Outcome(Err(msg), "active")
    case None =>
      var built := Build(topology, bundle, RunIdFor(topology, bundle, fallbackRunId));
      Outcome(built, if built.Ok? then "completed" else "failed")
  }

  /** `main` with every failure marking the phase failed. */
  function Main(topology: Value, bundle: Value, fallbackRunId: string): (r: Outcome<Plan>)
    requires topology.Object? && bundle.Object?
    ensures r.phaseStatus == (if r.result.Ok? then "completed" else "failed")
    ensures r.result.Ok? <==> MissingInput(topology, bundle).None? && Build(topology, bundle, RunIdFor(topology, bundle, fallbackRunId)).Ok?
  {
    match MissingInput(topology, bundle)
    case Some(msg) => Outcome(Err(msg), "failed")
    case None =>
      var built := Build(topology, bundle, RunIdFor(topology, bundle, fallbackRunId));
      Outcome(built, if built.Ok? then "completed" else "failed")
  }

  /** `main` of the flat edition, with every failure marking the phase failed. */
  function MainFlat(topology: Value, bundle: Value, fallbackRunId: string): (r: Outcome<FlatPlan>)
    requires topology.Object? && bundle.Object?
    ensures r.phaseStatus == (if r.result.Ok? then "completed" else "failed")
    ensures r.result.Ok? <==> MissingInput(topology, bundle).None? && BuildFlat(topology, bundle, RunIdFor(topology, bundle, fallbackRunId)).Ok?
  {
    match MissingInput(topology, bundle)
    case Some(msg) => Outcome(Err(msg), "failed")
    case None =>
      var built := BuildFlat(topology, bundle, RunIdFor(topology, bundle, fallbackRunId));
      Outcome(built, if built.Ok? then "completed" else "failed")
  }

  /** As written, a run stops with its phase still active exactly when an
      input lacks a required key; otherwise it agrees with the corrected run. */
  lemma MainAsWrittenActive(topology: Value, bundle: Value, fallbackRunId: string)
    requires topology.Object? && bundle.Object?
    ensures MainAsWritten(topology, bundle, fallbackRunId).phaseStatus == "active" <==> MissingInput(topology, bundle).Some?
    ensures MainAsWritten(topology, bundle, fallbackRunId).result == Main(topology, bundle, fallbackRunId).result
    ensures MissingInput(topology, bundle).None? ==> MainAsWritten(topology, bundle, fallbackRunId) == Main(topology, bundle, fallbackRunId)
  {
  }

  /** A topology without `topology_type` stops the run with the phase left
      active, where the corrected run marks it failed. */
  lemma UntypedTopologyLeavesPhaseActive(topology: Value, bundle: Value)
    requires topology == Object([("nodes", List([Object([("id", Str("T1"))])]))])
    requires bundle == Object([("bundle_ref", Str("b")), ("local_charts", List([]))])
    ensures MainAsWritten(topology, bundle, "run").phaseStatus == "active"
    ensures Main(topology, bundle, "run").phaseStatus == "failed"
    ensures MainAsWritten(topology, bundle, "run").result == Err("invalid topology: missing topology_type")
  {
    assert Has(topology, "nodes") by {
      assert topology.fields[0].0 == "nodes";
    }
    assert !Has(topology, "topology_type");
  }
}
