/**
 * The id of every edge, read off its ends: source, relation and target, and after them the workflow
 * whose definition calls for it, or the link it belongs to.
 */
module GraphEdgeIds {
  import opened GraphPayload
  import opened GraphDelta

  const DEFINITIONS := {"DEFINES_TOOL", "DEFINES_AGENT", "DEFINES_TASK"}

  predicate IsNamed(e: Edge, qualifier: string) {
    if qualifier == "" || e.relation in DEFINITIONS then e.id == e.source + ":" + e.relation + ":" + e.target
    else e.id == e.source + ":" + e.relation + ":" + e.target + ":" + qualifier
  }

  ghost predicate Named(d: Delta, qualifier: string) {
    forall e :: e in d.edges ==> IsNamed(e, qualifier)
  }

  lemma EdgeIsNamed(d: Delta, source: string, target: string, relation: string, qualifier: string)
    requires Named(d, qualifier)
    ensures relation in DEFINITIONS ==> Named(d.WithEdge(source, target, relation), qualifier)
    ensures relation !in DEFINITIONS ==> Named(d.WithEdge(source, target, relation, qualifier), qualifier)
  {
  }

  lemma SameEdges(d: Delta, other: Delta, qualifier: string)
    requires Named(d, qualifier) && other.edges == d.edges
    ensures Named(other, qualifier)
  {
  }

  lemma {:induction false} TargetsAreNamed(d: Delta, source: string, ids: seq<string>, kind: string, relation: string,
                                           qualifier: string)
    requires Named(d, qualifier) && relation !in DEFINITIONS
    ensures Named(Targets(d, source, ids, kind, relation, qualifier), qualifier)
  {
    hide Named;
    if ids != [] {
      var n := |ids| - 1;
      TargetsAreNamed(d, source, ids[..n], kind, relation, qualifier);
      var named := Targets(d, source, ids[..n], kind, relation, qualifier).WithNode(ids[n], kind, ids[n]);
      SameEdges(Targets(d, source, ids[..n], kind, relation, qualifier), named, qualifier);
      EdgeIsNamed(named, source, ids[n], relation, qualifier);
    }
  }

  /** A node changes no edge, and an edge to or from it is named as it should be. */
  lemma NodeAndEdgeAreNamed(d: Delta, id: string, kind: string, caption: string,
                            source: string, target: string, relation: string)
    requires Named(d, "")
    ensures Named(d.WithNode(id, kind, caption), "")
    ensures Named(d.WithNode(id, kind, caption).WithEdge(source, target, relation), "")
  {
    PlainEdges();
    hide IsNamed, RelationshipId;
  }

  /** Edges without a qualifier, for the lemmas that do not look into ids. */
  lemma PlainEdges()
    ensures forall source, target, relation ::
      IsNamed(Edge(RelationshipId(source, target, relation, ""), source, target, relation), "")
  {
  }

  // ---------------------------------------------------------------- workflow definitions

  lemma DefinitionIsNamed(d: Delta, workflow: string, id: string, kind: string, caption: string, relation: string)
    requires Named(d, workflow) && relation in DEFINITIONS
    ensures Named(Definition(d, workflow, id, kind, caption, relation), workflow)
  {
  }

  lemma {:induction false} ToolsAreNamed(d: Delta, workflow: string, tools: seq<Fields>)
    requires Named(d, workflow)
    ensures Named(DefinedTools(d, workflow, tools), workflow)
  {
    hide Named, Definition;
    if tools != [] {
      var n := |tools| - 1;
      ToolsAreNamed(d, workflow, tools[..n]);
      var id := Read(tools[n], "id");
      DefinitionIsNamed(DefinedTools(d, workflow, tools[..n]), workflow, id, "Tool", DisplayName(tools[n], id),
                        "DEFINES_TOOL");
    }
  }

  lemma AgentIsNamed(d: Delta, workflow: string, agent: Fields)
    requires Named(d, workflow)
    ensures Named(DefinedAgent(d, workflow, agent), workflow)
  {
    hide Named, Definition, Targets;
    var id, model := Read(agent, "id"), Read(agent, "model_profile_id");
    if id != "" {
      var toolIds, agentIds := StringList(agent, "tool_ids"), StringList(agent, "handoff_agent_ids");
      var defined := Definition(d, workflow, id, "Agent", DisplayName(agent, id), "DEFINES_AGENT");
      DefinitionIsNamed(d, workflow, id, "Agent", DisplayName(agent, id), "DEFINES_AGENT");
      TargetsAreNamed(defined, id, toolIds, "Tool", "CAN_USE", workflow);
      var tools := Targets(defined, id, toolIds, "Tool", "CAN_USE", workflow);
      TargetsAreNamed(tools, id, agentIds, "Agent", "CAN_HANDOFF_TO", workflow);
      var handoffs := Targets(tools, id, agentIds, "Agent", "CAN_HANDOFF_TO", workflow);
      var named := handoffs.WithNode(model, "Model", model);
      SameEdges(handoffs, named, workflow);
      EdgeIsNamed(named, id, model, "USED_MODEL", workflow);
      EdgeIsNamed(named.WithEdge(id, model, "USED_MODEL", workflow), id, model, "USES_MODEL_PROFILE", workflow);
    }
  }

  lemma {:induction false} AgentsAreNamed(d: Delta, workflow: string, agents: seq<Fields>)
    requires Named(d, workflow)
    ensures Named(DefinedAgents(d, workflow, agents), workflow)
  {
    hide Named, DefinedAgent;
    if agents != [] {
      var n := |agents| - 1;
      AgentsAreNamed(d, workflow, agents[..n]);
      AgentIsNamed(DefinedAgents(d, workflow, agents[..n]), workflow, agents[n]);
    }
  }

  lemma TaskIsNamed(d: Delta, workflow: string, task: Fields)
    requires Named(d, workflow)
    ensures Named(DefinedTask(d, workflow, task), workflow)
  {
    hide Named, Definition, Targets;
    var id, agent := Read(task, "id"), Read(task, "agent_id");
    if id != "" {
      var toolIds, taskIds := StringList(task, "tool_ids"), StringList(task, "depends_on_task_ids");
      var defined := Definition(d, workflow, id, "Task", NameOr(task, id), "DEFINES_TASK");
      DefinitionIsNamed(d, workflow, id, "Task", NameOr(task, id), "DEFINES_TASK");
      var withAgent := defined.WithNode(agent, "Agent", agent);
      SameEdges(defined, withAgent, workflow);
      EdgeIsNamed(withAgent, id, agent, "ASSIGNED_TO", workflow);
      var given := if agent == "" then defined else withAgent.WithEdge(id, agent, "ASSIGNED_TO", workflow);
      TargetsAreNamed(given, id, toolIds, "Tool", "USES_TOOL", workflow);
      var tools := Targets(given, id, toolIds, "Tool", "USES_TOOL", workflow);
      TargetsAreNamed(tools, id, taskIds, "Task", "DEPENDS_ON", workflow);
    }
  }

  lemma {:induction false} TasksAreNamed(d: Delta, workflow: string, tasks: seq<Fields>)
    requires Named(d, workflow)
    ensures Named(DefinedTasks(d, workflow, tasks), workflow)
  {
    hide Named, DefinedTask;
    if tasks != [] {
      var n := |tasks| - 1;
      TasksAreNamed(d, workflow, tasks[..n]);
      TaskIsNamed(DefinedTasks(d, workflow, tasks[..n]), workflow, tasks[n]);
    }
  }

  function WorkflowId(event: Event): string { Str(Or(Get(event.payload, "workflow_id"), Text(event.aggregateId))) }

  lemma WorkflowIsNamed(event: Event)
    ensures Named(WorkflowDelta(event), WorkflowId(event))
  {
    hide DefinedTools, DefinedAgents, DefinedTasks;
    var own, payload := WorkflowId(event), event.payload;
    var d := EMPTY.WithNode(own, "Workflow", NameOr(payload, own));
    var tools := DefinedTools(d, own, ObjectList(payload, "tools"));
    var agents := DefinedAgents(tools, own, ObjectList(payload, "agents"));
    ToolsAreNamed(d, own, ObjectList(payload, "tools"));
    AgentsAreNamed(tools, own, ObjectList(payload, "agents"));
    TasksAreNamed(agents, own, ObjectList(payload, "tasks"));
  }

  // ---------------------------------------------------------------- runs and their details

  lemma ContextIsNamed(d: Delta, execution: string, id: string, payload: Fields)
    requires Named(d, "")
    ensures Named(DetailContext(d, execution, id, payload), "")
  {
    hide Named;
    var parent, agent, task := Read(payload, "parent_event_id"), Read(payload, "agent_id"), Read(payload, "task_id");
    NodeAndEdgeAreNamed(d, parent, "ExecutionEvent", parent, parent, id, "PARENT_OF");
    var withParent := d.WithNode(parent, "ExecutionEvent", parent);
    var caused := if parent == "" then d else withParent.WithEdge(parent, id, "PARENT_OF");
    NodeAndEdgeAreNamed(caused, agent, "Agent", agent, agent, execution, "PARTICIPATED_IN");
    var joining := caused.WithNode(agent, "Agent", agent).WithEdge(agent, execution, "PARTICIPATED_IN");
    EdgeIsNamed(joining, agent, id, "EMITTED_EVENT", "");
    var joined := if agent == "" || execution == "" then caused else joining.WithEdge(agent, id, "EMITTED_EVENT");
    NodeAndEdgeAreNamed(joined, task, "Task", task, task, execution, "OCCURRED_IN");
  }

  lemma CallIsNamed(d: Delta, execution: string, payload: Fields)
    requires Named(d, "")
    ensures Named(DetailToolCall(d, execution, payload), "")
  {
    PlainEdges();
    hide IsNamed, RelationshipId;
  }

  lemma RequestIsNamed(d: Delta, execution: string, payload: Fields)
    requires Named(d, "")
    ensures Named(DetailModel(d, execution, payload), "")
  {
    hide Named, Anywhere;
    var request := Anywhere(payload, "model_request_id", "modelRequestId");
    var provider := OrText(Inner(payload, "provider"), Inner(payload, "model_provider"));
    var name := OrText(Inner(payload, "model"), Inner(payload, "model_name"));
    var model := ModelId(provider, name);
    NodeAndEdgeAreNamed(d, request, "ModelRequest", request, request, execution, "OCCURRED_IN");
    var asked := d.WithNode(request, "ModelRequest", request).WithEdge(request, execution, "OCCURRED_IN");
    NodeAndEdgeAreNamed(asked, model, "Model", OrText(name, model), execution, model, "USED_MODEL");
    var byRun := asked.WithNode(model, "Model", OrText(name, model)).WithEdge(execution, model, "USED_MODEL");
    EdgeIsNamed(byRun, request, model, "USED_MODEL", "");
    var used := if model == "" then asked else byRun.WithEdge(request, model, "USED_MODEL");
    NodeAndEdgeAreNamed(used, provider, "ModelProvider", provider, model, provider, "USED_PROVIDER");
  }

  lemma SignalIsNamed(d: Delta, execution: string, id: string, signal: string, kind: string, caption: string,
                      ofRun: string, ofEvent: string)
    requires Named(d, "")
    ensures Named(Signal(d, execution, id, signal, kind, caption, ofRun, ofEvent), "")
  {
    PlainEdges();
    hide IsNamed, RelationshipId;
  }

  lemma CompactionIsNamed(d: Delta, execution: string, id: string, event: Event)
    requires Named(d, "")
    ensures Named(Compaction(d, execution, id, event), "")
  {
    hide Named, Signal;
    var nested, node := Nested(event.payload, "payload"), "context_compaction:" + id;
    var caption := Str(Or(Get(nested, "reason"), Text(AfterLastDot(event.eventType))));
    SignalIsNamed(d, execution, id, node, "ContextCompaction", caption, "HAS_COMPACTION", "HAS_COMPACTION");
    var seen := Signal(d, execution, id, node, "ContextCompaction", caption, "HAS_COMPACTION", "HAS_COMPACTION");
    var memory := Read(Nested(nested, "record"), "memory_id");
    SameEdges(seen, seen.WithNode(memory, "Memory", memory), "");
    EdgeIsNamed(seen.WithNode(memory, "Memory", memory), node, memory, "CREATED_MEMORY", "");
  }

  lemma ObservationIsNamed(d: Delta, execution: string, id: string, event: Event)
    requires Named(d, "")
    ensures Named(Observability(d, execution, id, event), "")
  {
    hide Named, Signal, Compaction;
    var nested, metrics := Nested(event.payload, "payload"), Nested(event.payload, "metrics");
    var t := event.eventType;
    if t == "context.health.recorded" {
      var node := "context_health:" + id;
      SignalIsNamed(d, execution, id, node, "ContextHealth",
                    Str(Or(Or(Get(nested, "status"), Get(metrics, "context_status")), Text(node))),
                    "HAS_CONTEXT_HEALTH", "RECORDED_CONTEXT_HEALTH");
    } else if t == "token.usage.recorded" {
      var node, total := "token_usage:" + id, Get(Nested(nested, "usage"), "total_tokens");
      SignalIsNamed(d, execution, id, node, "TokenUsage",
                    Str(Or(Or(total, Get(metrics, "total_tokens")), Text(node))), "RECORDED_USAGE", "RECORDED_USAGE");
    } else if StartsWith(t, "token.budget.") {
      SignalIsNamed(d, execution, id, "token_budget:" + id, "TokenBudget",
                    Str(Or(Get(Nested(nested, "budget"), "status"), Text(AfterLastDot(t)))),
                    "HAS_BUDGET_SIGNAL", "HAS_BUDGET_SIGNAL");
    } else if StartsWith(t, "context.compaction.") {
      CompactionIsNamed(d, execution, id, event);
    } else if t == "monitor.finding.created" {
      var node := "monitor_finding:" + id;
      SignalIsNamed(d, execution, id, node, "MonitorFinding",
                    Str(Or(Or(Or(Get(nested, "summary"), Get(nested, "message")), Get(nested, "title")), Text(node))),
                    "RAISED_FINDING", "RAISED_FINDING");
    }
  }

  lemma DetailIsNamed(event: Event)
    ensures Named(DetailDelta(event), "")
  {
    hide DetailContext, DetailToolCall, DetailModel, Observability;
    var execution, id, payload := ExecutionId(event), DetailId(event), event.payload;
    var context := DetailContext(DetailEvent(event), execution, id, payload);
    var calls := DetailToolCall(context, execution, payload);
    ContextIsNamed(DetailEvent(event), execution, id, payload);
    CallIsNamed(context, execution, payload);
    RequestIsNamed(calls, execution, payload);
    ObservationIsNamed(DetailModel(calls, execution, payload), execution, id, event);
  }

  // ---------------------------------------------------------------- memories, documents and links

  lemma {:induction false} VisitedAreNamed(d: Delta, memory: string, visited: seq<Fields>, project: Projection)
    requires Named(d, "")
    ensures Named(VisitedNodes(d, memory, visited, project), "")
  {
    if visited != [] {
      VisitedAreNamed(d, memory, visited[..|visited| - 1], project);
    }
  }

  lemma {:induction false} AnchorsAreNamed(d: Delta, memory: string, anchors: seq<Fields>, project: Projection)
    requires Named(d, "")
    ensures Named(Anchors(d, memory, anchors, project), "")
  {
    if anchors != [] {
      AnchorsAreNamed(d, memory, anchors[..|anchors| - 1], project);
    }
  }

  lemma MemoryIsNamed(event: Event, project: Projection)
    ensures Named(MemoryDelta(event, project), "")
  {
    hide VisitedNodes, Anchors;
    var payload, provenance := event.payload, Nested(event.payload, "graph_provenance");
    var memory := Str(Or(Get(payload, "memory_id"), Text(event.aggregateId)));
    var d := EMPTY.WithNode(memory, "Memory", Str(Or(Get(payload, "summary"), Text(memory))));
    var workingSet := Str(Or(Get(provenance, "working_set_id"), Get(payload, "graph_working_set_id")));
    var named := d.WithNode(workingSet, "GraphWorkingSet", workingSet);
    var derived := if workingSet == "" then d else named.WithEdge(memory, workingSet, "DERIVED_FROM_WORKING_SET");
    var visited := ObjectList(provenance, "visited_nodes") + ObjectList(provenance, "selected_nodes");
    VisitedAreNamed(derived, memory, visited, project);
    AnchorsAreNamed(VisitedNodes(derived, memory, visited, project), memory, ObjectList(provenance, "anchors"),
                    project);
  }

  lemma {:induction false} ChunksAreNamed(d: Delta, document: string, memories: seq<string>,
                                          there: string, back: string)
    requires Named(d, "")
    ensures Named(Chunks(d, document, memories, there, back), "")
  {
    if memories != [] {
      ChunksAreNamed(d, document, memories[..|memories| - 1], there, back);
    }
  }

  lemma DocumentIsNamed(event: Event)
    ensures Named(DocumentDelta(event), "")
  {
    var document := Str(Or(Get(event.payload, "document_id"), Text(event.aggregateId)));
    var d := EMPTY.WithNode(document, "Document", Str(Or(Get(event.payload, "filename"), Text(document))));
    ChunksAreNamed(d, document, StringList(event.payload, "memory_ids"), "HAS_CHUNK", "PART_OF_DOCUMENT");
  }

  lemma {:induction false} LinkedAreNamed(d: Delta, workflow: string, memories: seq<string>, link: string,
                                          deleted: bool)
    requires Named(d, link)
    ensures Named(Linked(d, workflow, memories, link, deleted), link)
  {
    if memories != [] {
      LinkedAreNamed(d, workflow, memories[..|memories| - 1], link, deleted);
    }
  }

  lemma LinkIsNamed(event: Event)
    ensures Named(LinkDelta(event), LinkId(event))
  {
    var workflow := Read(event.payload, "workflow_id");
    var d := if workflow == "" then EMPTY else EMPTY.WithNode(workflow, "Workflow", workflow);
    LinkedAreNamed(d, workflow, LinkedMemories(event), LinkId(event), Deleted(event));
  }

  // ---------------------------------------------------------------- personas

  lemma TargetIsNamed(d: Delta, persona: string, id: string, kind: string, relation: string)
    requires Named(d, "")
    ensures Named(PersonaTarget(d, persona, id, kind, relation), "")
  {
    PlainEdges();
    hide IsNamed, RelationshipId;
  }

  lemma {:induction false} PartsAreNamed(d: Delta, persona: string, items: seq<Fields>, idKey: string, kind: string,
                                         relation: string)
    requires Named(d, "")
    ensures Named(PersonaParts(d, persona, items, idKey, kind, relation), "")
  {
    if items != [] {
      PartsAreNamed(d, persona, items[..|items| - 1], idKey, kind, relation);
    }
  }

  lemma {:induction false} SourcesAreNamed(d: Delta, run: string, memories: seq<string>)
    requires Named(d, "")
    ensures Named(RunSources(d, run, memories), "")
  {
    if memories != [] {
      SourcesAreNamed(d, run, memories[..|memories| - 1]);
    }
  }

  lemma VersionIsNamed(d: Delta, persona: string, run: string, payload: Fields)
    requires Named(d, "")
    ensures Named(PersonaVersion(d, persona, run, payload), "")
  {
    PlainEdges();
    hide IsNamed, RelationshipId;
  }

  lemma ItemIsNamed(d: Delta, run: string, payload: Fields)
    requires Named(d, "")
    ensures Named(PersonaItem(d, run, payload), "")
  {
    PlainEdges();
    hide IsNamed, RelationshipId;
  }

  lemma LineageIsNamed(d: Delta, persona: string, payload: Fields)
    requires Named(d, "")
    ensures Named(PersonaLineage(d, persona, payload), "")
  {
    hide Named, PersonaTarget, PersonaVersion, PersonaItem, RunSources;
    var run := Read(payload, "run_id");
    var distilled := PersonaTarget(d, persona, run, "DistillationRun", "PERSONA_HAS_DISTILLATION_RUN");
    var version := PersonaVersion(distilled, persona, run, payload);
    TargetIsNamed(d, persona, run, "DistillationRun", "PERSONA_HAS_DISTILLATION_RUN");
    VersionIsNamed(distilled, persona, run, payload);
    ItemIsNamed(version, run, payload);
    SourcesAreNamed(PersonaItem(version, run, payload), run, StringList(payload, "source_memory_ids"));
  }

  lemma ContentsAreNamed(d: Delta, persona: string, payload: Fields)
    requires Named(d, "")
    ensures Named(PersonaContents(d, persona, payload), "")
  {
    hide Named, Targets, PersonaParts, PersonaTarget;
    var memories, tools := StringList(payload, "memory_ids"), ObjectList(payload, "tools");
    var workflows, artifacts := ObjectList(payload, "workflows"), ObjectList(payload, "artifacts");
    var d1 := Targets(d, persona, memories, "Memory", "PERSONA_PUBLISHED_MEMORY", "");
    var d2 := PersonaParts(d1, persona, tools, "tool_id", "Tool", "PERSONA_USES_TOOL");
    var d3 := PersonaParts(d2, persona, workflows, "workflow_id", "Workflow", "PERSONA_FOLLOWS_WORKFLOW");
    var d4 := PersonaParts(d3, persona, artifacts, "artifact_id", "Artifact", "PERSONA_PRODUCES_ARTIFACT");
    var agent := Read(payload, "agent_id");
    var d5 := PersonaTarget(d4, persona, agent, "Agent", "PERSONA_MATERIALIZED_AS_AGENT");
    TargetsAreNamed(d, persona, memories, "Memory", "PERSONA_PUBLISHED_MEMORY", "");
    PartsAreNamed(d1, persona, tools, "tool_id", "Tool", "PERSONA_USES_TOOL");
    PartsAreNamed(d2, persona, workflows, "workflow_id", "Workflow", "PERSONA_FOLLOWS_WORKFLOW");
    PartsAreNamed(d3, persona, artifacts, "artifact_id", "Artifact", "PERSONA_PRODUCES_ARTIFACT");
    TargetIsNamed(d4, persona, agent, "Agent", "PERSONA_MATERIALIZED_AS_AGENT");
    TargetIsNamed(d5, persona, Read(payload, "conversation_id"), "Conversation", "PERSONA_INVOKED_IN_CONVERSATION");
  }

  lemma PersonaIsNamed(event: Event)
    ensures Named(PersonaDelta(event), "")
  {
    hide PersonaLineage, PersonaContents;
    var payload := event.payload;
    var persona := Str(Or(Get(payload, "persona_id"), Text(event.aggregateId)));
    var caption := Str(Or(Or(Get(payload, "persona_name"), Get(payload, "persona_slug")), Text(persona)));
    var named := EMPTY.WithNode(persona, "Persona", caption);
    LineageIsNamed(named, persona, payload);
    ContentsAreNamed(PersonaLineage(named, persona, payload), persona, payload);
  }

  // ---------------------------------------------------------------- every event

  /** Edges of a definition are told apart by its workflow, edges of a link by the link. */
  function Qualifier(event: Event): string {
    if StartsWith(event.eventType, "workflow.") then WorkflowId(event)
    else if IsStep(event) then ""
    else if StartsWith(event.eventType, "workflow_memory_link.") then LinkId(event)
    else ""
  }

  lemma RunsAreNamed(event: Event)
    ensures Named(StepDelta(event), "") && Named(ExecutionDelta(event), "")
  {
    PlainEdges();
    hide IsNamed, RelationshipId, Str;
  }

  lemma RunsAreNoLinks(t: string)
    requires || StartsWith(t, "execution.") || IsExecutionDetail(t) || StartsWith(t, "memory.")
             || StartsWith(t, "document_memory_collection.")
    ensures !StartsWith(t, "workflow_memory_link.")
  {
    assert t != "" && t[0] != 'w';
    assert "workflow_memory_link."[0] == 'w';
  }

  lemma DeltaIsNamed(event: Event, project: Projection, deviceDelta: Delta)
    requires !StartsWith(event.eventType, "physical.device.")
    ensures Named(DeltaOf(event, project, deviceDelta), Qualifier(event))
  {
    hide WorkflowDelta, StepDelta, ExecutionDelta, DetailDelta, MemoryDelta, DocumentDelta, LinkDelta, PersonaDelta,
      WorkflowId, LinkId, StartsWith, IsExecutionDetail, IsNamed;
    var t := event.eventType;
    if StartsWith(t, "workflow.") {
      WorkflowIsNamed(event);
    } else if IsStep(event) {
      RunsAreNamed(event);
    } else if StartsWith(t, "execution.") {
      RunsAreNamed(event);
      RunsAreNoLinks(t);
    } else if IsExecutionDetail(t) {
      DetailIsNamed(event);
      RunsAreNoLinks(t);
    } else if StartsWith(t, "memory.") {
      MemoryIsNamed(event, project);
      RunsAreNoLinks(t);
    } else if StartsWith(t, "document_memory_collection.") {
      DocumentIsNamed(event);
      RunsAreNoLinks(t);
    } else if StartsWith(t, "workflow_memory_link.") {
      LinkIsNamed(event);
    } else if IsPersona(event) {
      PersonaIsNamed(event);
    }
  }

  /** Outside the device branch, the id of an edge is made of its ends, its relation and the qualifier of its event. */
  lemma EdgeIdsExactly(event: Event, project: Projection, deviceDelta: Delta, e: Edge)
    requires !StartsWith(event.eventType, "physical.device.") && e in DeltaOf(event, project, deviceDelta).edges
    ensures e.id == e.source + ":" + e.relation + ":" + e.target +
      if Qualifier(event) == "" || e.relation in DEFINITIONS then "" else ":" + Qualifier(event)
  {
    hide DeltaOf, Qualifier;
    DeltaIsNamed(event, project, deviceDelta);
  }
}
