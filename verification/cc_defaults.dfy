/** The embedded CC (cross-component) contract defaults of the governance
    scripts: six contracts CC-01..CC-06, each naming the skill that produces
    an artifact and the skill that consumes it. Values are immutable here, so
    handing out the defaults can never let a caller change them. */
module CcDefaults {
  import opened Json
  import StrSort

  // The skill names the contracts mention, shared with the contract validator.
  const TopologyDesign := "mso-workflow-topology-design"
  const MentalModelDesign := "mso-mental-model-design"
  const ExecutionDesign := "mso-execution-design"
  const TaskContext := "mso-task-context-management"
  const AgentCollaboration := "mso-agent-collaboration"
  const AuditLog := "mso-agent-audit-log"
  const Observability := "mso-observability"

  datatype Contract = Contract(
    id: string,
    producer: string,
    consumer: string,
    outputKeys: seq<string>,
    inputKeys: seq<string>,
    policy: string,
    status: string,
    rule: string,
    outputPath: string)

  const Defaults: seq<Contract> := [
    Contract("CC-01", TopologyDesign, ExecutionDesign,
             ["run_id", "nodes", "edges", "topology_type", "rsv_total"],
             ["run_id", "nodes", "topology_type"], "strict", "ok",
             "execution_graph 노드 ID가 topology node id에 존재해야 함",
             "workspace/.mso-context/active/{run_id}/10_topology/workflow_topology_spec.json"),
    Contract("CC-02", MentalModelDesign, ExecutionDesign,
             ["run_id", "node_chart_map", "local_charts", "output_contract", "bundle_ref"],
             ["run_id", "nodes", "assigned_dqs", "theta_gt_band"], "strict", "ok",
             "execution_graph 각 노드의 chart_ids가 bundle chart id에 존재해야 함",
             "workspace/.mso-context/active/{run_id}/20_mental-model/mental_model_bundle.json"),
    Contract("CC-03", TaskContext, AgentCollaboration,
             ["id", "status", "task_context_id", "owner", "due_by", "dependencies", "tags"],
             ["id", "task_context_id", "status", "owner"], "strict", "ok",
             "collab는 ticket frontmatter 키를 요구사항대로 수신해야 함",
             "workspace/.mso-context/active/{run_id}/40_collaboration/task-context/tickets"),
    Contract("CC-04", AgentCollaboration, AuditLog,
             ["dispatch_mode", "handoff_payload", "requires_manual_confirmation", "fallback_reason"],
             ["run_id", "dispatch_mode", "status"], "strict", "ok",
             "협업 결과는 audit-ready 페이로드로 직렬화 가능해야 함",
             "workspace/.mso-context/active/{run_id}/40_collaboration/task-context/tickets"),
    Contract("CC-05", AuditLog, Observability,
             ["run_id", "artifact_uri", "status", "errors", "warnings", "next_actions", "metadata"],
             ["run_id", "artifact_uri", "event_type", "correlation"], "strict", "ok",
             "observability는 audit 스키마를 입력으로 읽고 이벤트를 재생성 가능해야 함",
             "workspace/.mso-context/active/{run_id}/50_audit/agent_log.db"),
    Contract("CC-06", ExecutionDesign, AuditLog,
             ["run_id", "execution_graph", "fallback_rules"],
             ["run_id", "node_id", "node_type", "parent_refs", "tree_hash_ref"], "strict", "ok",
             "execution_graph 노드가 node_snapshots 테이블에 스냅샷으로 기록 가능해야 함",
             "workspace/.mso-context/active/{run_id}/30_execution/execution_plan.json")
  ]

  const ContractFieldKeys: seq<string> := [
    "id", "producer", "consumer", "required_output_keys", "required_input_keys",
    "compatibility_policy", "status", "validation_rule", "producer_output_path"
  ]

  /** A contract as the dict the scripts pass around, keys in declaration order. */
  function ContractJson(c: Contract): (v: Value)
    ensures v.Object? && |v.fields| == |ContractFieldKeys|
    ensures forall i :: 0 <= i < |ContractFieldKeys| ==> v.fields[i].0 == ContractFieldKeys[i]
  {
    Object([("id", Str(c.id)), ("producer", Str(c.producer)), ("consumer", Str(c.consumer)),
            ("required_output_keys", StrList(c.outputKeys)), ("required_input_keys", StrList(c.inputKeys)),
            ("compatibility_policy", Str(c.policy)), ("status", Str(c.status)),
            ("validation_rule", Str(c.rule)), ("producer_output_path", Str(c.outputPath))])
  }

  /** Every key of the dict form is present, and `id` and `status` read back
      as the record's. */
  lemma ContractJsonFields(c: Contract)
    ensures forall i :: 0 <= i < |ContractFieldKeys| ==> Has(ContractJson(c), ContractFieldKeys[i])
    ensures GetOrNull(ContractJson(c), "id") == Str(c.id)
    ensures GetOrNull(ContractJson(c), "status") == Str(c.status)
  {
    var v := ContractJson(c);
    forall i | 0 <= i < |ContractFieldKeys| ensures Has(v, ContractFieldKeys[i]) {
      assert v.fields[i].0 == ContractFieldKeys[i];
    }
    LookupFirst(v.fields, 0, "id");
    LookupFirst(v.fields, 6, "status");
  }

  /** `get_default_contracts()`: the defaults as dicts, in declaration order. */
  function DefaultContracts(): (r: seq<Value>)
    ensures |r| == |Defaults|
    ensures forall i :: 0 <= i < |r| ==> r[i] == ContractJson(Defaults[i])
  {
    seq(|Defaults|, i requires 0 <= i < |Defaults| => ContractJson(Defaults[i]))
  }

  function DefaultIds(): (ids: seq<string>)
    ensures |ids| == |Defaults| && forall i :: 0 <= i < |Defaults| ==> ids[i] == Defaults[i].id
  {
    seq(|Defaults|, i requires 0 <= i < |Defaults| => Defaults[i].id)
  }

  /** `get_contract_index()`: each default keyed by its id (as a record; its
      dict form is `ContractJson`). */
  function ContractIndex(): (index: map<string, Contract>)
    ensures forall k :: k in index <==> k in DefaultIds()
    ensures forall i :: 0 <= i < |Defaults| ==> Defaults[i].id in index
  {
    map i | 0 <= i < |Defaults| :: Defaults[i].id := Defaults[i]
  }

  /** Every default is marked ok. */
  lemma DefaultsOk()
    ensures forall i :: 0 <= i < |Defaults| ==> Defaults[i].status == "ok"
  {
  }

  /** The ids of the defaults are CC-01..CC-06, in order. */
  lemma DefaultIdsAre()
    ensures DefaultIds() == ["CC-01", "CC-02", "CC-03", "CC-04", "CC-05", "CC-06"]
  {
  }

  /** Each id maps to its own default: no two defaults share an id. */
  lemma ContractIndexEntries()
    ensures forall i :: 0 <= i < |Defaults| ==> ContractIndex()[Defaults[i].id] == Defaults[i]
  {
    var index := ContractIndex();
    forall i | 0 <= i < |Defaults| ensures index[Defaults[i].id] == Defaults[i] {
      var j :| 0 <= j < |Defaults| && Defaults[j].id == Defaults[i].id && index[Defaults[i].id] == Defaults[j];
      DefaultIdsDistinct(i, j);
    }
  }

  /** No two defaults share an id. */
  lemma DefaultIdsDistinct(i: nat, j: nat)
    requires i < |Defaults| && j < |Defaults| && Defaults[i].id == Defaults[j].id
    ensures i == j
  {
    DefaultIdsAre();
    var ids := DefaultIds();
    assert ids[i][4] == ids[j][4];
  }

  /** Every producer and every consumer of the defaults, in declaration order. */
  function Skills(cs: seq<Contract>): (r: seq<string>)
    ensures forall x :: x in r <==> exists i :: 0 <= i < |cs| && (cs[i].producer == x || cs[i].consumer == x)
  {
    var producers := seq(|cs|, i requires 0 <= i < |cs| => cs[i].producer);
    var consumers := seq(|cs|, i requires 0 <= i < |cs| => cs[i].consumer);
    forall x | exists i :: 0 <= i < |cs| && (cs[i].producer == x || cs[i].consumer == x)
      ensures x in producers + consumers
    {
      var i :| 0 <= i < |cs| && (cs[i].producer == x || cs[i].consumer == x);
      if cs[i].producer == x {
        assert producers[i] == x;
      } else {
        assert consumers[i] == x;
        assert (producers + consumers)[|cs| + i] == x;
      }
    }
    producers + consumers
  }

  /** `get_required_skill_ids()`: the sorted, duplicate-free union of producers
      and consumers. */
  function RequiredSkillIds(): (r: seq<string>)
    ensures StrSort.StrictlySorted(r)
    ensures forall x :: x in r <==> exists i :: 0 <= i < |Defaults| && (Defaults[i].producer == x || Defaults[i].consumer == x)
  {
    StrSort.SortedSet(Skills(Defaults))
  }
}
