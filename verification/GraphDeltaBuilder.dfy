/**
 * The builder that turns a graph projection event into a delta: two lists, and a list of edge ids
 * to remove, that each branch appends to step by step.  Every method leaves exactly the delta that
 * GraphDelta describes.
 */
module GraphDeltaBuilder {
  import opened GraphPayload
  import opened GraphDelta

  class DeltaBuilder {
    var nodes: seq<Node>
    var edges: seq<Edge>
    var removed: seq<string>

    constructor ()
      ensures Contents() == EMPTY
    {
      nodes, edges, removed := [], [], [];
    }

    function Contents(): Delta
      reads this
    {
      Delta(nodes, edges, removed)
    }

    method AddNode(id: string, kind: string, caption: string)
      modifies this
      ensures Contents() == old(Contents()).WithNode(id, kind, caption)
    {
      nodes := nodes + [Node(id, kind, OrText(caption, id))];
    }

    method AddEdge(source: string, target: string, relation: string, qualifier: string := "")
      modifies this
      ensures Contents() == old(Contents()).WithEdge(source, target, relation, qualifier)
    {
      edges := edges + [Edge(RelationshipId(source, target, relation, qualifier), source, target, relation)];
    }

    method AddTargets(source: string, ids: seq<string>, kind: string, relation: string, qualifier: string)
      modifies this
      ensures Contents() == Targets(old(Contents()), source, ids, kind, relation, qualifier)
    {
      for i := 0 to |ids|
        invariant Contents() == Targets(old(Contents()), source, ids[..i], kind, relation, qualifier)
      {
        assert ids[..i + 1][..i] == ids[..i];
        AddNode(ids[i], kind, ids[i]);
        AddEdge(source, ids[i], relation, qualifier);
      }
      assert ids[..|ids|] == ids;
    }

    method AddDefinition(workflowId: string, id: string, kind: string, caption: string, relation: string)
      modifies this
      ensures Contents() == Definition(old(Contents()), workflowId, id, kind, caption, relation)
    {
      AddNode(id, kind, caption);
      if workflowId != "" {
        AddEdge(workflowId, id, relation);
      }
    }

    method AddTools(workflowId: string, tools: seq<Fields>)
      modifies this
      ensures Contents() == DefinedTools(old(Contents()), workflowId, tools)
    {
      for i := 0 to |tools|
        invariant Contents() == DefinedTools(old(Contents()), workflowId, tools[..i])
      {
        assert tools[..i + 1][..i] == tools[..i];
        var id := Read(tools[i], "id");
        if id == "" {
          continue;
        }
        AddDefinition(workflowId, id, "Tool", DisplayName(tools[i], id), "DEFINES_TOOL");
      }
      assert tools[..|tools|] == tools;
    }

    method AddAgent(workflowId: string, agent: Fields)
      modifies this
      ensures Contents() == DefinedAgent(old(Contents()), workflowId, agent)
    {
      var id := Read(agent, "id");
      if id == "" {
        return;
      }
      AddDefinition(workflowId, id, "Agent", DisplayName(agent, id), "DEFINES_AGENT");
      AddTargets(id, StringList(agent, "tool_ids"), "Tool", "CAN_USE", workflowId);
      AddTargets(id, StringList(agent, "handoff_agent_ids"), "Agent", "CAN_HANDOFF_TO", workflowId);
      var model := Read(agent, "model_profile_id");
      if model != "" {
        AddNode(model, "Model", model);
        AddEdge(id, model, "USED_MODEL", workflowId);
        AddEdge(id, model, "USES_MODEL_PROFILE", workflowId);
      }
    }

    method AddTask(workflowId: string, task: Fields)
      modifies this
      ensures Contents() == DefinedTask(old(Contents()), workflowId, task)
    {
      var id := Read(task, "id");
      if id == "" {
        return;
      }
      AddDefinition(workflowId, id, "Task", NameOr(task, id), "DEFINES_TASK");
      var agent := Read(task, "agent_id");
      if agent != "" {
        AddNode(agent, "Agent", agent);
        AddEdge(id, agent, "ASSIGNED_TO", workflowId);
      }
      AddTargets(id, StringList(task, "tool_ids"), "Tool", "USES_TOOL", workflowId);
      AddTargets(id, StringList(task, "depends_on_task_ids"), "Task", "DEPENDS_ON", workflowId);
    }

    method AddAgents(workflowId: string, agents: seq<Fields>)
      modifies this
      ensures Contents() == DefinedAgents(old(Contents()), workflowId, agents)
    {
      for i := 0 to |agents|
        invariant Contents() == DefinedAgents(old(Contents()), workflowId, agents[..i])
      {
        assert agents[..i + 1][..i] == agents[..i];
        AddAgent(workflowId, agents[i]);
      }
      assert agents[..|agents|] == agents;
    }

    method AddTasks(workflowId: string, tasks: seq<Fields>)
      modifies this
      ensures Contents() == DefinedTasks(old(Contents()), workflowId, tasks)
    {
      for i := 0 to |tasks|
        invariant Contents() == DefinedTasks(old(Contents()), workflowId, tasks[..i])
      {
        assert tasks[..i + 1][..i] == tasks[..i];
        AddTask(workflowId, tasks[i]);
      }
      assert tasks[..|tasks|] == tasks;
    }

    method AppendWorkflowDefinition(workflowId: string, payload: Fields)
      modifies this
      ensures Contents() == WorkflowDefinition(old(Contents()), workflowId, payload)
    {
      AddTools(workflowId, ObjectList(payload, "tools"));
      AddAgents(workflowId, ObjectList(payload, "agents"));
      AddTasks(workflowId, ObjectList(payload, "tasks"));
    }

    method AppendSteps(event: Event)
      requires Contents() == EMPTY
      modifies this
      ensures Contents() == StepDelta(event)
    {
      var step, execution := Strip(event.aggregateId), Read(event.payload, "execution_id");
      AddNode(step, "StepRun", Str(Or(Get(event.payload, "task_id"), Text(step))));
      if execution != "" {
        AddNode(execution, "WorkflowRun", execution);
        AddEdge(execution, step, "HAS_STEP_RUN");
      }
    }

    method AppendExecution(event: Event)
      requires Contents() == EMPTY
      modifies this
      ensures Contents() == ExecutionDelta(event)
    {
      var execution, workflow := ExecutionId(event), Read(event.payload, "workflow_id");
      AddNode(execution, "WorkflowRun", execution);
      if workflow != "" && !Deleted(event) {
        AddNode(workflow, "Workflow", workflow);
        AddEdge(workflow, execution, "HAS_RUN");
        AddEdge(workflow, execution, "STARTED");
      }
    }

    method AppendContext(execution: string, id: string, payload: Fields)
      modifies this
      ensures Contents() == DetailContext(old(Contents()), execution, id, payload)
    {
      var parent := Read(payload, "parent_event_id");
      if parent != "" {
        AddNode(parent, "ExecutionEvent", parent);
        AddEdge(parent, id, "PARENT_OF");
      }
      var agent := Read(payload, "agent_id");
      if agent != "" && execution != "" {
        AddNode(agent, "Agent", agent);
        AddEdge(agent, execution, "PARTICIPATED_IN");
        AddEdge(agent, id, "EMITTED_EVENT");
      }
      var task := Read(payload, "task_id");
      if task != "" && execution != "" {
        AddNode(task, "Task", task);
        AddEdge(task, execution, "OCCURRED_IN");
      }
    }

    method AppendToolCall(execution: string, payload: Fields)
      modifies this
      ensures Contents() == DetailToolCall(old(Contents()), execution, payload)
    {
      var call := Anywhere(payload, "tool_call_id", "toolCallId");
      if call != "" && execution != "" {
        AddNode(call, "ToolCall", OrText(Inner(payload, "tool_name"), call));
        AddEdge(call, execution, "OCCURRED_IN");
      }
    }

    method AppendModel(execution: string, payload: Fields)
      modifies this
      ensures Contents() == DetailModel(old(Contents()), execution, payload)
    {
      var request := Anywhere(payload, "model_request_id", "modelRequestId");
      if request != "" && execution != "" {
        AddNode(request, "ModelRequest", request);
        AddEdge(request, execution, "OCCURRED_IN");
        var provider := OrText(Inner(payload, "provider"), Inner(payload, "model_provider"));
        var name := OrText(Inner(payload, "model"), Inner(payload, "model_name"));
        var model := ModelId(provider, name);
        if model != "" {
          AddNode(model, "Model", OrText(name, model));
          AddEdge(execution, model, "USED_MODEL");
          AddEdge(request, model, "USED_MODEL");
        }
        if provider != "" {
          AddNode(provider, "ModelProvider", provider);
          if model != "" {
            AddEdge(model, provider, "USED_PROVIDER");
          }
        }
      }
    }

    method AddSignal(execution: string, id: string, signal: string, kind: string, caption: string,
                     ofRun: string, ofEvent: string)
      modifies this
      ensures Contents() == Signal(old(Contents()), execution, id, signal, kind, caption, ofRun, ofEvent)
    {
      AddNode(signal, kind, caption);
      if execution != "" {
        AddEdge(execution, signal, ofRun);
      }
      AddEdge(id, signal, ofEvent);
    }

    method AppendCompaction(execution: string, id: string, event: Event)
      modifies this
      ensures Contents() == Compaction(old(Contents()), execution, id, event)
    {
      var nested := Nested(event.payload, "payload");
      var compaction := "context_compaction:" + id;
      AddSignal(execution, id, compaction, "ContextCompaction",
                Str(Or(Get(nested, "reason"), Text(AfterLastDot(event.eventType)))),
                "HAS_COMPACTION", "HAS_COMPACTION");
      var memory := Read(Nested(nested, "record"), "memory_id");
      if memory != "" {
        AddNode(memory, "Memory", memory);
        AddEdge(compaction, memory, "CREATED_MEMORY");
      }
    }

    /** The five signals are told apart by the event type, so at most one of these guards holds. */
    method AppendObservability(execution: string, id: string, event: Event)
      modifies this
      ensures Contents() == Observability(old(Contents()), execution, id, event)
    {
      var nested, metrics := Nested(event.payload, "payload"), Nested(event.payload, "metrics");
      var t := event.eventType;
      if t == "context.health.recorded" {
        var health := "context_health:" + id;
        AddSignal(execution, id, health, "ContextHealth",
                  Str(Or(Or(Get(nested, "status"), Get(metrics, "context_status")), Text(health))),
                  "HAS_CONTEXT_HEALTH", "RECORDED_CONTEXT_HEALTH");
      }
      if t == "token.usage.recorded" {
        var usage := "token_usage:" + id;
        AddSignal(execution, id, usage, "TokenUsage",
                  Str(Or(Or(Get(Nested(nested, "usage"), "total_tokens"), Get(metrics, "total_tokens")), Text(usage))),
                  "RECORDED_USAGE", "RECORDED_USAGE");
      }
      if StartsWith(t, "token.budget.") {
        TellApart(t, "token.budget.");
        AddSignal(execution, id, "token_budget:" + id, "TokenBudget",
                  Str(Or(Get(Nested(nested, "budget"), "status"), Text(AfterLastDot(t)))),
                  "HAS_BUDGET_SIGNAL", "HAS_BUDGET_SIGNAL");
      }
      if StartsWith(t, "context.compaction.") {
        TellApart(t, "context.compaction.");
        AppendCompaction(execution, id, event);
      }
      if t == "monitor.finding.created" {
        var finding := "monitor_finding:" + id;
        AddSignal(execution, id, finding, "MonitorFinding",
                  Str(Or(Or(Or(Get(nested, "summary"), Get(nested, "message")), Get(nested, "title")), Text(finding))),
                  "RAISED_FINDING", "RAISED_FINDING");
      }
    }

    method AppendDetail(event: Event)
      requires Contents() == EMPTY
      modifies this
      ensures Contents() == DetailDelta(event)
    {
      var execution, id := ExecutionId(event), DetailId(event);
      var kind := if StartsWith(event.eventType, "container.") then "ContainerEvent" else "ExecutionEvent";
      if execution != "" {
        AddNode(execution, "WorkflowRun", execution);
      }
      AddNode(id, kind, DetailCaption(event));
      if execution != "" {
        AddEdge(execution, id, "EMITTED_EVENT");
      }
      assert Contents() == DetailEvent(event);
      AppendContext(execution, id, event.payload);
      AppendToolCall(execution, event.payload);
      AppendModel(execution, event.payload);
      AppendObservability(execution, id, event);
    }

    method AddVisitedNodes(memory: string, visited: seq<Fields>, project: Projection)
      modifies this
      ensures Contents() == VisitedNodes(old(Contents()), memory, visited, project)
    {
      for i := 0 to |visited|
        invariant Contents() == VisitedNodes(old(Contents()), memory, visited[..i], project)
      {
        assert visited[..i + 1][..i] == visited[..i];
        var id := Read(visited[i], "id");
        if id == "" {
          continue;
        }
        var kind := Str(Or(Or(Get(visited[i], "type"), Get(visited[i], "source_record_type")), Text("GraphNode")));
        AddNode(id, project(kind), id);
        AddEdge(memory, id, "DERIVED_FROM_GRAPH_NODE");
      }
      assert visited[..|visited|] == visited;
    }

    method AddAnchors(memory: string, anchors: seq<Fields>, project: Projection)
      modifies this
      ensures Contents() == Anchors(old(Contents()), memory, anchors, project)
    {
      for i := 0 to |anchors|
        invariant Contents() == Anchors(old(Contents()), memory, anchors[..i], project)
      {
        assert anchors[..i + 1][..i] == anchors[..i];
        var id := Read(anchors[i], "id");
        if id == "" {
          continue;
        }
        AddNode(id, project(OrText(Read(anchors[i], "type"), "GraphAnchor")), id);
        AddEdge(memory, id, "DERIVED_FROM_GRAPH_ANCHOR");
      }
      assert anchors[..|anchors|] == anchors;
    }

    method AppendMemory(event: Event, project: Projection)
      requires Contents() == EMPTY
      modifies this
      ensures Contents() == MemoryDelta(event, project)
    {
      var memory := Str(Or(Get(event.payload, "memory_id"), Text(event.aggregateId)));
      AddNode(memory, "Memory", Str(Or(Get(event.payload, "summary"), Text(memory))));
      var provenance := Nested(event.payload, "graph_provenance");
      if provenance != map[] && !Deleted(event) {
        var workingSet := Str(Or(Get(provenance, "working_set_id"), Get(event.payload, "graph_working_set_id")));
        if workingSet != "" {
          AddNode(workingSet, "GraphWorkingSet", workingSet);
          AddEdge(memory, workingSet, "DERIVED_FROM_WORKING_SET");
        }
        AddVisitedNodes(
          memory, ObjectList(provenance, "visited_nodes") + ObjectList(provenance, "selected_nodes"), project);
        AddAnchors(memory, ObjectList(provenance, "anchors"), project);
      }
    }

    method AddChunks(document: string, memories: seq<string>, there: string, back: string)
      modifies this
      ensures Contents() == Chunks(old(Contents()), document, memories, there, back)
    {
      for i := 0 to |memories|
        invariant Contents() == Chunks(old(Contents()), document, memories[..i], there, back)
      {
        assert memories[..i + 1][..i] == memories[..i];
        AddNode(memories[i], "Memory", memories[i]);
        AddEdge(document, memories[i], there);
        AddEdge(memories[i], document, back);
      }
      assert memories[..|memories|] == memories;
    }

    method AppendDocument(event: Event)
      requires Contents() == EMPTY
      modifies this
      ensures Contents() == DocumentDelta(event)
    {
      var document := Str(Or(Get(event.payload, "document_id"), Text(event.aggregateId)));
      AddNode(document, "Document", Str(Or(Get(event.payload, "filename"), Text(document))));
      AddChunks(document, StringList(event.payload, "memory_ids"), "HAS_CHUNK", "PART_OF_DOCUMENT");
    }

    method AddLink(workflow: string, memory: string, link: string, deleted: bool)
      modifies this
      ensures Contents() == OneLink(old(Contents()), workflow, memory, link, deleted)
    {
      AddNode(memory, "Memory", memory);
      var edgeId := RelationshipId(workflow, memory, "LINKS_MEMORY", link);
      if workflow == "" {
        return;
      }
      if deleted {
        removed := removed + [edgeId];
      } else {
        AddEdge(workflow, memory, "LINKS_MEMORY", link);
      }
    }

    method AppendLink(event: Event)
      requires Contents() == EMPTY
      modifies this
      ensures Contents() == LinkDelta(event)
    {
      hide OneLink;
      var workflow, link, deleted := Read(event.payload, "workflow_id"), LinkId(event), Deleted(event);
      if workflow != "" {
        AddNode(workflow, "Workflow", workflow);
      }
      var memories := LinkedMemories(event);
      ghost var start := Contents();
      for i := 0 to |memories|
        invariant Contents() == Linked(start, workflow, memories[..i], link, deleted)
      {
        assert memories[..i + 1][..i] == memories[..i];
        AddLink(workflow, memories[i], link, deleted);
      }
      assert memories[..|memories|] == memories;
    }

    method AddPersonaVersion(persona: string, run: string, payload: Fields)
      modifies this
      ensures Contents() == PersonaVersion(old(Contents()), persona, run, payload)
    {
      var version := Read(payload, "persona_version_id");
      if version != "" {
        AddNode(version, "PersonaVersion", Str(Or(Get(payload, "version"), Text(version))));
        AddEdge(persona, version, "PERSONA_HAS_VERSION");
        if run != "" {
          AddEdge(run, version, "RUN_PRODUCED_VERSION");
        }
      }
    }

    method AddPersonaItem(run: string, payload: Fields)
      modifies this
      ensures Contents() == PersonaItem(old(Contents()), run, payload)
    {
      var item := Read(payload, "item_id");
      if item != "" {
        AddNode(item, "DistillationItem", Str(Or(Or(Get(payload, "title"), Get(payload, "item_type")), Text(item))));
        if run != "" {
          AddEdge(run, item, "RUN_EXTRACTED_ITEM");
        }
        var source := Read(payload, "source_memory_id");
        if source != "" {
          AddNode(SourceNode(source), "SourceMemory", source);
          AddEdge(item, SourceNode(source), "ITEM_DERIVED_FROM_MEMORY");
        }
      }
    }

    method AddRunSources(run: string, memories: seq<string>)
      modifies this
      ensures Contents() == RunSources(old(Contents()), run, memories)
    {
      for i := 0 to |memories|
        invariant Contents() == RunSources(old(Contents()), run, memories[..i])
      {
        assert memories[..i + 1][..i] == memories[..i];
        AddNode(SourceNode(memories[i]), "SourceMemory", memories[i]);
        if run != "" {
          AddEdge(run, SourceNode(memories[i]), "RUN_USED_SOURCE_MEMORY");
        }
      }
      assert memories[..|memories|] == memories;
    }

    method AddPersonaParts(persona: string, items: seq<Fields>, idKey: string, kind: string, relation: string)
      modifies this
      ensures Contents() == PersonaParts(old(Contents()), persona, items, idKey, kind, relation)
    {
      for i := 0 to |items|
        invariant Contents() == PersonaParts(old(Contents()), persona, items[..i], idKey, kind, relation)
      {
        assert items[..i + 1][..i] == items[..i];
        var id := PartId(items[i], idKey);
        if id == "" {
          continue;
        }
        AddNode(id, kind, NameOr(items[i], id));
        AddEdge(persona, id, relation);
      }
      assert items[..|items|] == items;
    }

    method AddPersonaTarget(persona: string, id: string, kind: string, relation: string)
      modifies this
      ensures Contents() == PersonaTarget(old(Contents()), persona, id, kind, relation)
    {
      if id != "" {
        AddNode(id, kind, id);
        AddEdge(persona, id, relation);
      }
    }

    method AppendPersona(event: Event)
      requires Contents() == EMPTY
      modifies this
      ensures Contents() == PersonaDelta(event)
    {
      var payload := event.payload;
      var persona := Str(Or(Get(payload, "persona_id"), Text(event.aggregateId)));
      if persona == "" {
        return;
      }
      AddNode(persona, "Persona",
              Str(Or(Or(Get(payload, "persona_name"), Get(payload, "persona_slug")), Text(persona))));
      var run := Read(payload, "run_id");
      AddPersonaTarget(persona, run, "DistillationRun", "PERSONA_HAS_DISTILLATION_RUN");
      AddPersonaVersion(persona, run, payload);
      AddPersonaItem(run, payload);
      AddRunSources(run, StringList(payload, "source_memory_ids"));
      AddTargets(persona, StringList(payload, "memory_ids"), "Memory", "PERSONA_PUBLISHED_MEMORY", "");
      AddPersonaParts(persona, ObjectList(payload, "tools"), "tool_id", "Tool", "PERSONA_USES_TOOL");
      AddPersonaParts(
        persona, ObjectList(payload, "workflows"), "workflow_id", "Workflow", "PERSONA_FOLLOWS_WORKFLOW");
      AddPersonaParts(
        persona, ObjectList(payload, "artifacts"), "artifact_id", "Artifact", "PERSONA_PRODUCES_ARTIFACT");
      AddPersonaTarget(persona, Read(payload, "agent_id"), "Agent", "PERSONA_MATERIALIZED_AS_AGENT");
      AddPersonaTarget(
        persona, Read(payload, "conversation_id"), "Conversation", "PERSONA_INVOKED_IN_CONVERSATION");
    }
  }

  /** Two different texts of which neither begins the other cannot both begin a third. */
  lemma TellApart(s: string, prefix: string)
    requires prefix in {"token.budget.", "context.compaction."} && StartsWith(s, prefix)
    ensures s !in {"context.health.recorded", "token.usage.recorded", "monitor.finding.created"}
    ensures prefix == "token.budget." ==> !StartsWith(s, "context.compaction.")
    ensures prefix == "context.compaction." ==> !StartsWith(s, "token.budget.")
  {
    assert s[0] == prefix[0];
    assert s[8] == prefix[8];
    assert "context.health.recorded"[8] == 'h' && "context.compaction."[8] == 'c';
    assert "token.usage.recorded"[6] == 'u' && "token.budget."[6] == 'b' && s[6] == prefix[6];
  }

  /** The delta of an event: the branches are tried in order. */
  method DeltaFor(event: Event, project: Projection, deviceDelta: Delta) returns (d: Delta)
    ensures d == DeltaOf(event, project, deviceDelta)
  {
    var builder := new DeltaBuilder();
    var t := event.eventType;
    if StartsWith(t, "workflow.") {
      var id := Str(Or(Get(event.payload, "workflow_id"), Text(event.aggregateId)));
      builder.AddNode(id, "Workflow", NameOr(event.payload, id));
      if !Deleted(event) {
        builder.AppendWorkflowDefinition(id, event.payload);
      }
    } else if IsStep(event) {
      builder.AppendSteps(event);
    } else if StartsWith(t, "execution.") {
      builder.AppendExecution(event);
    } else if IsExecutionDetail(t) {
      builder.AppendDetail(event);
    } else if StartsWith(t, "memory.") {
      builder.AppendMemory(event, project);
    } else if StartsWith(t, "document_memory_collection.") {
      builder.AppendDocument(event);
    } else if StartsWith(t, "workflow_memory_link.") {
      builder.AppendLink(event);
    } else if StartsWith(t, "physical.device.") {
      return deviceDelta;
    } else if IsPersona(event) {
      builder.AppendPersona(event);
    }
    d := builder.Contents();
  }
}
