/**
 * The visualisation delta of a graph projection event: which nodes and edges it puts into the
 * graph, and in which order.  Nodes are listed without their data and times.
 *
 * Every contribution extends the delta built so far.  The contracts carry the invariant that the
 * graph view relies on: an edge never names a node that the same delta does not bring along.
 */
module GraphDelta {
  import opened Wrappers
  import opened GraphPayload

  datatype Node = Node(id: string, kind: string, caption: string)

  datatype Edge = Edge(id: string, source: string, target: string, relation: string)

  datatype Event = Event(
    eventType: string,
    eventId: string,
    aggregateType: string,
    aggregateId: string,
    sourceEventId: Option<string>,
    payload: Fields)

  function RelationshipId(source: string, target: string, relation: string, qualifier: string): string {
    source + ":" + relation + ":" + target + if qualifier != "" then ":" + qualifier else ""
  }

  datatype Delta = Delta(nodes: seq<Node>, edges: seq<Edge>, removed: seq<string>)
  {
    ghost function Ids(): set<string> {
      set n | n in nodes :: n.id
    }

    /** Both ends of every edge come with the delta. */
    ghost predicate Closed() {
      forall e :: e in edges ==> e.source in Ids() && e.target in Ids()
    }

    function WithNode(id: string, kind: string, caption: string): (d: Delta)
      ensures d.Ids() == Ids() + {id} && (Closed() ==> d.Closed())
    {
      var d := this.(nodes := nodes + [Node(id, kind, OrText(caption, id))]);
      assert d.Ids() == Ids() + {id} by {
        assert d.nodes[|nodes|].id == id;
        assert forall n :: n in nodes ==> n in d.nodes;
      }
      d
    }

    /** An edge whose id carries a qualifier when that is not empty. */
    function WithEdge(source: string, target: string, relation: string, qualifier: string := ""): (d: Delta)
      ensures d.Ids() == Ids()
      ensures Closed() && source in Ids() && target in Ids() ==> d.Closed()
    {
      this.(edges := edges + [Edge(RelationshipId(source, target, relation, qualifier),
                                              source, target, relation)])
    }
  }

  const EMPTY := Delta([], [], [])

  /** `after` keeps the nodes of `before`, and its edges are closed when those of `before` were. */
  ghost predicate Extends(before: Delta, after: Delta) {
    before.Ids() <= after.Ids() && (before.Closed() ==> after.Closed())
  }

  // ---------------------------------------------------------------- workflow definitions

  /** A node and an edge to it for each id. */
  function Targets(d: Delta, source: string, ids: seq<string>, kind: string, relation: string, qualifier: string)
    : (r: Delta)
    ensures source in d.Ids() ==> Extends(d, r)
  {
    if ids == [] then d
    else
      var id := ids[|ids| - 1];
      Targets(d, source, ids[..|ids| - 1], kind, relation, qualifier)
        .WithNode(id, kind, id).WithEdge(source, id, relation, qualifier)
  }

  function Definition(d: Delta, workflowId: string, id: string, kind: string, caption: string, relation: string)
    : (r: Delta)
    ensures workflowId in d.Ids() ==> Extends(d, r) && id in r.Ids()
  {
    var named := d.WithNode(id, kind, caption);
    if workflowId != "" then named.WithEdge(workflowId, id, relation) else named
  }

  function DisplayName(item: Fields, id: string): string {
    Str(Or(Or(Get(item, "display_name"), Get(item, "name")), Text(id)))
  }

  function NameOr(item: Fields, id: string): string { Str(Or(Get(item, "name"), Text(id))) }

  function DefinedTool(d: Delta, workflowId: string, tool: Fields): (r: Delta)
    ensures workflowId in d.Ids() ==> Extends(d, r)
  {
    var id := Read(tool, "id");
    if id == "" then d else Definition(d, workflowId, id, "Tool", DisplayName(tool, id), "DEFINES_TOOL")
  }

  function DefinedTools(d: Delta, workflowId: string, tools: seq<Fields>): (r: Delta)
    ensures workflowId in d.Ids() ==> Extends(d, r)
  {
    if tools == [] then d
    else DefinedTool(DefinedTools(d, workflowId, tools[..|tools| - 1]), workflowId, tools[|tools| - 1])
  }

  function AgentModel(d: Delta, workflowId: string, id: string, model: string): (r: Delta)
    ensures id in d.Ids() ==> Extends(d, r)
  {
    if model == "" then d
    else
      d.WithNode(model, "Model", model)
        .WithEdge(id, model, "USED_MODEL", workflowId).WithEdge(id, model, "USES_MODEL_PROFILE", workflowId)
  }

  function DefinedAgent(d: Delta, workflowId: string, agent: Fields): (r: Delta)
    ensures workflowId in d.Ids() ==> Extends(d, r)
  {
    var id := Read(agent, "id");
    if id == "" then d
    else
      var defined := Definition(d, workflowId, id, "Agent", DisplayName(agent, id), "DEFINES_AGENT");
      var tools := Targets(defined, id, StringList(agent, "tool_ids"), "Tool", "CAN_USE", workflowId);
      var handoffs :=
        Targets(tools, id, StringList(agent, "handoff_agent_ids"), "Agent", "CAN_HANDOFF_TO", workflowId);
      AgentModel(handoffs, workflowId, id, Read(agent, "model_profile_id"))
  }

  function DefinedAgents(d: Delta, workflowId: string, agents: seq<Fields>): (r: Delta)
    ensures workflowId in d.Ids() ==> Extends(d, r)
  {
    if agents == [] then d
    else DefinedAgent(DefinedAgents(d, workflowId, agents[..|agents| - 1]), workflowId, agents[|agents| - 1])
  }

  function DefinedTask(d: Delta, workflowId: string, task: Fields): (r: Delta)
    ensures workflowId in d.Ids() ==> Extends(d, r)
  {
    var id := Read(task, "id");
    if id == "" then d
    else
      var defined := Definition(d, workflowId, id, "Task", NameOr(task, id), "DEFINES_TASK");
      var agent := Read(task, "agent_id");
      var given :=
        if agent == "" then defined
        else defined.WithNode(agent, "Agent", agent).WithEdge(id, agent, "ASSIGNED_TO", workflowId);
      var tools := Targets(given, id, StringList(task, "tool_ids"), "Tool", "USES_TOOL", workflowId);
      Targets(tools, id, StringList(task, "depends_on_task_ids"), "Task", "DEPENDS_ON", workflowId)
  }

  function DefinedTasks(d: Delta, workflowId: string, tasks: seq<Fields>): (r: Delta)
    ensures workflowId in d.Ids() ==> Extends(d, r)
  {
    if tasks == [] then d
    else DefinedTask(DefinedTasks(d, workflowId, tasks[..|tasks| - 1]), workflowId, tasks[|tasks| - 1])
  }

  function WorkflowDefinition(d: Delta, workflowId: string, payload: Fields): (r: Delta)
    ensures workflowId in d.Ids() ==> Extends(d, r)
  {
    DefinedTasks(
      DefinedAgents(
        DefinedTools(d, workflowId, ObjectList(payload, "tools")),
        workflowId, ObjectList(payload, "agents")),
      workflowId, ObjectList(payload, "tasks"))
  }

  predicate Deleted(event: Event) { EndsWith(event.eventType, ".deleted") }

  function WorkflowDelta(event: Event): (r: Delta)
    ensures r.Closed()
  {
    var id := Str(Or(Get(event.payload, "workflow_id"), Text(event.aggregateId)));
    var d := EMPTY.WithNode(id, "Workflow", NameOr(event.payload, id));
    if Deleted(event) then d else WorkflowDefinition(d, id, event.payload)
  }

  // ---------------------------------------------------------------- runs and steps

  function StepDelta(event: Event): (r: Delta)
    ensures r.Closed()
  {
    var step, execution := Strip(event.aggregateId), Read(event.payload, "execution_id");
    var d := EMPTY.WithNode(step, "StepRun", Str(Or(Get(event.payload, "task_id"), Text(step))));
    if execution == "" then d
    else d.WithNode(execution, "WorkflowRun", execution).WithEdge(execution, step, "HAS_STEP_RUN")
  }

  function ExecutionId(event: Event): string {
    Str(Or(Get(event.payload, "execution_id"), Text(event.aggregateId)))
  }

  function ExecutionDelta(event: Event): (r: Delta)
    ensures r.Closed()
  {
    var execution, workflow := ExecutionId(event), Read(event.payload, "workflow_id");
    var d := EMPTY.WithNode(execution, "WorkflowRun", execution);
    if workflow == "" || Deleted(event) then d
    else
      d.WithNode(workflow, "Workflow", workflow)
        .WithEdge(workflow, execution, "HAS_RUN").WithEdge(workflow, execution, "STARTED")
  }

  // ---------------------------------------------------------------- details of a run

  predicate IsExecutionDetail(eventType: string) {
    || StartsWith(eventType, "approval.") || StartsWith(eventType, "artifact.")
    || StartsWith(eventType, "container.") || StartsWith(eventType, "context.")
    || StartsWith(eventType, "llm.") || StartsWith(eventType, "monitor.")
    || StartsWith(eventType, "runtime.") || StartsWith(eventType, "token.")
    || StartsWith(eventType, "tool.call.")
  }

  function DetailId(event: Event): string {
    var sequence := Or(Get(event.payload, "sequence"), Text(event.eventId));
    Strip(OrText(if event.sourceEventId.Some? then event.sourceEventId.value else "",
                 ExecutionId(event) + ":" + event.eventType + ":" + Shown(sequence)))
  }

  function DetailCaption(event: Event): string {
    Strip(Shown(Get(event.payload, "sequence")) + " " + event.eventType)
  }

  function DetailEvent(event: Event): (r: Delta)
    ensures r.Closed() && DetailId(event) in r.Ids()
    ensures ExecutionId(event) != "" ==> ExecutionId(event) in r.Ids()
  {
    var execution, id := ExecutionId(event), DetailId(event);
    var kind := if StartsWith(event.eventType, "container.") then "ContainerEvent" else "ExecutionEvent";
    if execution == "" then EMPTY.WithNode(id, kind, DetailCaption(event))
    else
      EMPTY.WithNode(execution, "WorkflowRun", execution)
        .WithNode(id, kind, DetailCaption(event)).WithEdge(execution, id, "EMITTED_EVENT")
  }

  /** The event that caused this one, and the agent and task of the run that it concerns. */
  function DetailContext(d: Delta, execution: string, id: string, payload: Fields): (r: Delta)
    ensures id in d.Ids() && (execution != "" ==> execution in d.Ids()) ==> Extends(d, r)
  {
    var parent, agent, task := Read(payload, "parent_event_id"), Read(payload, "agent_id"), Read(payload, "task_id");
    var caused :=
      if parent == "" then d
      else d.WithNode(parent, "ExecutionEvent", parent).WithEdge(parent, id, "PARENT_OF");
    var joined :=
      if agent == "" || execution == "" then caused
      else
        caused.WithNode(agent, "Agent", agent)
          .WithEdge(agent, execution, "PARTICIPATED_IN").WithEdge(agent, id, "EMITTED_EVENT");
    if task == "" || execution == "" then joined
    else joined.WithNode(task, "Task", task).WithEdge(task, execution, "OCCURRED_IN")
  }

  function Inner(payload: Fields, key: string): string { Read(Nested(payload, "payload"), key) }

  /** A field of the payload, or of the payload inside it under one of two names. */
  function Anywhere(payload: Fields, key: string, camel: string): string {
    Str(Or(Get(payload, key), Text(OrText(Inner(payload, key), Inner(payload, camel)))))
  }

  /** The outermost name wins, then the inner one in snake case, then the one in camel case. */
  lemma AnywhereExactly(payload: Fields, key: string, camel: string)
    ensures Anywhere(payload, key, camel) ==
      if key in payload && Truthy(payload[key]) then Read(payload, key)
      else if Inner(payload, key) != "" then Inner(payload, key)
      else Inner(payload, camel)
  {
    StripIsIdempotent(Shown(Get(Nested(payload, "payload"), key)));
    StripIsIdempotent(Shown(Get(Nested(payload, "payload"), camel)));
    hide Strip;
  }

  function DetailToolCall(d: Delta, execution: string, payload: Fields): (r: Delta)
    ensures (execution != "" ==> execution in d.Ids()) ==> Extends(d, r)
  {
    var call := Anywhere(payload, "tool_call_id", "toolCallId");
    if call == "" || execution == "" then d
    else
      d.WithNode(call, "ToolCall", OrText(Inner(payload, "tool_name"), call))
        .WithEdge(call, execution, "OCCURRED_IN")
  }

  function ModelId(provider: string, model: string): string {
    if model == "" then "" else if provider != "" then provider + ":" + model else model
  }

  function DetailModel(d: Delta, execution: string, payload: Fields): (r: Delta)
    ensures (execution != "" ==> execution in d.Ids()) ==> Extends(d, r)
  {
    var request := Anywhere(payload, "model_request_id", "modelRequestId");
    if request == "" || execution == "" then d
    else
      var provider := OrText(Inner(payload, "provider"), Inner(payload, "model_provider"));
      var name := OrText(Inner(payload, "model"), Inner(payload, "model_name"));
      var model := ModelId(provider, name);
      var asked := d.WithNode(request, "ModelRequest", request).WithEdge(request, execution, "OCCURRED_IN");
      var used :=
        if model == "" then asked
        else
          asked.WithNode(model, "Model", OrText(name, model))
            .WithEdge(execution, model, "USED_MODEL").WithEdge(request, model, "USED_MODEL");
      if provider == "" then used
      else
        var offered := used.WithNode(provider, "ModelProvider", provider);
        if model == "" then offered else offered.WithEdge(model, provider, "USED_PROVIDER")
  }

  /** A signal observed about the event, and about its run when that is known. */
  function Signal(d: Delta, execution: string, id: string, signal: string, kind: string, caption: string,
                  ofRun: string, ofEvent: string): (r: Delta)
    ensures id in d.Ids() && (execution != "" ==> execution in d.Ids()) ==> Extends(d, r) && signal in r.Ids()
  {
    var seen := d.WithNode(signal, kind, caption);
    var run := if execution == "" then seen else seen.WithEdge(execution, signal, ofRun);
    run.WithEdge(id, signal, ofEvent)
  }

  function Compaction(d: Delta, execution: string, id: string, event: Event): (r: Delta)
    ensures id in d.Ids() && (execution != "" ==> execution in d.Ids()) ==> Extends(d, r)
  {
    var nested := Nested(event.payload, "payload");
    var compaction := "context_compaction:" + id;
    var seen := Signal(d, execution, id, compaction, "ContextCompaction",
                       Str(Or(Get(nested, "reason"), Text(AfterLastDot(event.eventType)))),
                       "HAS_COMPACTION", "HAS_COMPACTION");
    var memory := Read(Nested(nested, "record"), "memory_id");
    if memory == "" then seen
    else seen.WithNode(memory, "Memory", memory).WithEdge(compaction, memory, "CREATED_MEMORY")
  }

  function Observability(d: Delta, execution: string, id: string, event: Event): (r: Delta)
    ensures id in d.Ids() && (execution != "" ==> execution in d.Ids()) ==> Extends(d, r)
  {
    var nested, metrics := Nested(event.payload, "payload"), Nested(event.payload, "metrics");
    var t := event.eventType;
    if t == "context.health.recorded" then
      var health := "context_health:" + id;
      Signal(d, execution, id, health, "ContextHealth",
             Str(Or(Or(Get(nested, "status"), Get(metrics, "context_status")), Text(health))),
             "HAS_CONTEXT_HEALTH", "RECORDED_CONTEXT_HEALTH")
    else if t == "token.usage.recorded" then
      var usage := "token_usage:" + id;
      Signal(d, execution, id, usage, "TokenUsage",
             Str(Or(Or(Get(Nested(nested, "usage"), "total_tokens"), Get(metrics, "total_tokens")), Text(usage))),
             "RECORDED_USAGE", "RECORDED_USAGE")
    else if StartsWith(t, "token.budget.") then
      Signal(d, execution, id, "token_budget:" + id, "TokenBudget",
             Str(Or(Get(Nested(nested, "budget"), "status"), Text(AfterLastDot(t)))),
             "HAS_BUDGET_SIGNAL", "HAS_BUDGET_SIGNAL")
    else if StartsWith(t, "context.compaction.") then Compaction(d, execution, id, event)
    else if t == "monitor.finding.created" then
      var finding := "monitor_finding:" + id;
      Signal(d, execution, id, finding, "MonitorFinding",
             Str(Or(Or(Or(Get(nested, "summary"), Get(nested, "message")), Get(nested, "title")), Text(finding))),
             "RAISED_FINDING", "RAISED_FINDING")
    else d
  }

  function DetailDelta(event: Event): (r: Delta)
    ensures r.Closed()
  {
    var execution, id := ExecutionId(event), DetailId(event);
    var context := DetailContext(DetailEvent(event), execution, id, event.payload);
    var models := DetailModel(DetailToolCall(context, execution, event.payload), execution, event.payload);
    Observability(models, execution, id, event)
  }

  // ---------------------------------------------------------------- memories and documents

  /** How the type of a record becomes a node kind is foreign text processing. */
  type Projection = string -> string

  function VisitedNode(d: Delta, memory: string, node: Fields, project: Projection): (r: Delta)
    ensures memory in d.Ids() ==> Extends(d, r)
  {
    var id := Read(node, "id");
    if id == "" then d
    else
      var kind := Str(Or(Or(Get(node, "type"), Get(node, "source_record_type")), Text("GraphNode")));
      d.WithNode(id, project(kind), id).WithEdge(memory, id, "DERIVED_FROM_GRAPH_NODE")
  }

  function VisitedNodes(d: Delta, memory: string, visited: seq<Fields>, project: Projection): (r: Delta)
    ensures memory in d.Ids() ==> Extends(d, r)
  {
    if visited == [] then d
    else
      var earlier := VisitedNodes(d, memory, visited[..|visited| - 1], project);
      VisitedNode(earlier, memory, visited[|visited| - 1], project)
  }

  function Anchor(d: Delta, memory: string, anchor: Fields, project: Projection): (r: Delta)
    ensures memory in d.Ids() ==> Extends(d, r)
  {
    var id := Read(anchor, "id");
    if id == "" then d
    else
      d.WithNode(id, project(OrText(Read(anchor, "type"), "GraphAnchor")), id)
        .WithEdge(memory, id, "DERIVED_FROM_GRAPH_ANCHOR")
  }

  function Anchors(d: Delta, memory: string, anchors: seq<Fields>, project: Projection): (r: Delta)
    ensures memory in d.Ids() ==> Extends(d, r)
  {
    if anchors == [] then d
    else Anchor(Anchors(d, memory, anchors[..|anchors| - 1], project), memory, anchors[|anchors| - 1], project)
  }

  function MemoryDelta(event: Event, project: Projection): (r: Delta)
    ensures r.Closed()
  {
    var memory := Str(Or(Get(event.payload, "memory_id"), Text(event.aggregateId)));
    var d := EMPTY.WithNode(memory, "Memory", Str(Or(Get(event.payload, "summary"), Text(memory))));
    var provenance := Nested(event.payload, "graph_provenance");
    if provenance == map[] || Deleted(event) then d
    else
      var workingSet := Str(Or(Get(provenance, "working_set_id"), Get(event.payload, "graph_working_set_id")));
      var derived :=
        if workingSet == "" then d
        else
          d.WithNode(workingSet, "GraphWorkingSet", workingSet)
            .WithEdge(memory, workingSet, "DERIVED_FROM_WORKING_SET");
      var visited := ObjectList(provenance, "visited_nodes") + ObjectList(provenance, "selected_nodes");
      Anchors(VisitedNodes(derived, memory, visited, project), memory, ObjectList(provenance, "anchors"), project)
  }

  /** A memory, with an edge from the document to it and one back. */
  function Chunk(d: Delta, document: string, memory: string, there: string, back: string): (r: Delta)
    ensures document in d.Ids() ==> Extends(d, r)
  {
    d.WithNode(memory, "Memory", memory).WithEdge(document, memory, there).WithEdge(memory, document, back)
  }

  function Chunks(d: Delta, document: string, memories: seq<string>, there: string, back: string): (r: Delta)
    ensures document in d.Ids() ==> Extends(d, r)
  {
    if memories == [] then d
    else
      var earlier := Chunks(d, document, memories[..|memories| - 1], there, back);
      Chunk(earlier, document, memories[|memories| - 1], there, back)
  }

  function DocumentDelta(event: Event): (r: Delta)
    ensures r.Closed()
  {
    var document := Str(Or(Get(event.payload, "document_id"), Text(event.aggregateId)));
    var d := EMPTY.WithNode(document, "Document", Str(Or(Get(event.payload, "filename"), Text(document))));
    Chunks(d, document, StringList(event.payload, "memory_ids"), "HAS_CHUNK", "PART_OF_DOCUMENT")
  }

  // ---------------------------------------------------------------- links from workflows to memories

  function LinkId(event: Event): string {
    Str(Or(Get(Nested(event.payload, "link"), "id"), Text(event.aggregateId)))
  }

  function LinkedMemories(event: Event): seq<string> {
    StringList(Nested(event.payload, "link"), "memoryIds")
  }

  /** One memory of a link, with the edge to it or the removal of that edge. */
  function OneLink(d: Delta, workflow: string, memory: string, link: string, deleted: bool): (r: Delta)
    ensures (workflow != "" ==> workflow in d.Ids()) ==> Extends(d, r)
  {
    var named := d.WithNode(memory, "Memory", memory);
    if workflow == "" then named
    else if deleted then
      named.(removed := named.removed + [RelationshipId(workflow, memory, "LINKS_MEMORY", link)])
    else named.WithEdge(workflow, memory, "LINKS_MEMORY", link)
  }

  function Linked(d: Delta, workflow: string, memories: seq<string>, link: string, deleted: bool): (r: Delta)
    ensures (workflow != "" ==> workflow in d.Ids()) ==> Extends(d, r)
  {
    if memories == [] then d
    else
      var earlier := Linked(d, workflow, memories[..|memories| - 1], link, deleted);
      OneLink(earlier, workflow, memories[|memories| - 1], link, deleted)
  }

  function LinkDelta(event: Event): (r: Delta)
    ensures r.Closed()
  {
    var workflow := Read(event.payload, "workflow_id");
    var d := if workflow == "" then EMPTY else EMPTY.WithNode(workflow, "Workflow", workflow);
    Linked(d, workflow, LinkedMemories(event), LinkId(event), Deleted(event))
  }

  // ---------------------------------------------------------------- personas

  function PersonaVersion(d: Delta, persona: string, run: string, payload: Fields): (r: Delta)
    ensures persona in d.Ids() && (run != "" ==> run in d.Ids()) ==> Extends(d, r)
  {
    var version := Read(payload, "persona_version_id");
    if version == "" then d
    else
      var named :=
        d.WithNode(version, "PersonaVersion", Str(Or(Get(payload, "version"), Text(version))))
          .WithEdge(persona, version, "PERSONA_HAS_VERSION");
      if run == "" then named else named.WithEdge(run, version, "RUN_PRODUCED_VERSION")
  }

  function SourceNode(memory: string): string { "source_memory:" + memory }

  function PersonaItem(d: Delta, run: string, payload: Fields): (r: Delta)
    ensures (run != "" ==> run in d.Ids()) ==> Extends(d, r)
  {
    var item, source := Read(payload, "item_id"), Read(payload, "source_memory_id");
    if item == "" then d
    else
      var caption := Str(Or(Or(Get(payload, "title"), Get(payload, "item_type")), Text(item)));
      var named := d.WithNode(item, "DistillationItem", caption);
      var extracted := if run == "" then named else named.WithEdge(run, item, "RUN_EXTRACTED_ITEM");
      if source == "" then extracted
      else
        extracted.WithNode(SourceNode(source), "SourceMemory", source)
          .WithEdge(item, SourceNode(source), "ITEM_DERIVED_FROM_MEMORY")
  }

  function RunSource(d: Delta, run: string, memory: string): (r: Delta)
    ensures (run != "" ==> run in d.Ids()) ==> Extends(d, r)
  {
    var named := d.WithNode(SourceNode(memory), "SourceMemory", memory);
    if run == "" then named else named.WithEdge(run, SourceNode(memory), "RUN_USED_SOURCE_MEMORY")
  }

  function RunSources(d: Delta, run: string, memories: seq<string>): (r: Delta)
    ensures (run != "" ==> run in d.Ids()) ==> Extends(d, r)
  {
    if memories == [] then d
    else RunSource(RunSources(d, run, memories[..|memories| - 1]), run, memories[|memories| - 1])
  }

  /** The id of a tool, workflow or artifact: its own, its typed one or its name. */
  function PartId(item: Fields, idKey: string): string {
    Str(Or(Or(Get(item, "id"), Get(item, idKey)), Get(item, "name")))
  }

  function PersonaPart(d: Delta, persona: string, item: Fields, idKey: string, kind: string, relation: string)
    : (r: Delta)
    ensures persona in d.Ids() ==> Extends(d, r)
  {
    var id := PartId(item, idKey);
    if id == "" then d else d.WithNode(id, kind, NameOr(item, id)).WithEdge(persona, id, relation)
  }

  function PersonaParts(d: Delta, persona: string, items: seq<Fields>, idKey: string, kind: string, relation: string)
    : (r: Delta)
    ensures persona in d.Ids() ==> Extends(d, r)
  {
    if items == [] then d
    else
      var earlier := PersonaParts(d, persona, items[..|items| - 1], idKey, kind, relation);
      PersonaPart(earlier, persona, items[|items| - 1], idKey, kind, relation)
  }

  function PersonaTarget(d: Delta, persona: string, id: string, kind: string, relation: string): (r: Delta)
    ensures persona in d.Ids() ==> Extends(d, r) && (id != "" ==> id in r.Ids())
  {
    if id == "" then d else d.WithNode(id, kind, id).WithEdge(persona, id, relation)
  }

  function PersonaContents(d: Delta, persona: string, payload: Fields): (r: Delta)
    ensures persona in d.Ids() ==> Extends(d, r)
  {
    var memories :=
      Targets(d, persona, StringList(payload, "memory_ids"), "Memory", "PERSONA_PUBLISHED_MEMORY", "");
    var tools :=
      PersonaParts(memories, persona, ObjectList(payload, "tools"), "tool_id", "Tool", "PERSONA_USES_TOOL");
    var workflows := PersonaParts(tools, persona, ObjectList(payload, "workflows"), "workflow_id", "Workflow",
                                  "PERSONA_FOLLOWS_WORKFLOW");
    var artifacts := PersonaParts(workflows, persona, ObjectList(payload, "artifacts"), "artifact_id", "Artifact",
                                  "PERSONA_PRODUCES_ARTIFACT");
    var agent :=
      PersonaTarget(artifacts, persona, Read(payload, "agent_id"), "Agent", "PERSONA_MATERIALIZED_AS_AGENT");
    PersonaTarget(agent, persona, Read(payload, "conversation_id"), "Conversation", "PERSONA_INVOKED_IN_CONVERSATION")
  }

  /** The distillation run, and what it produced and used. */
  function PersonaLineage(d: Delta, persona: string, payload: Fields): (r: Delta)
    ensures persona in d.Ids() ==> Extends(d, r)
  {
    var run := Read(payload, "run_id");
    var distilled := PersonaTarget(d, persona, run, "DistillationRun", "PERSONA_HAS_DISTILLATION_RUN");
    var items := PersonaItem(PersonaVersion(distilled, persona, run, payload), run, payload);
    RunSources(items, run, StringList(payload, "source_memory_ids"))
  }

  function PersonaDelta(event: Event): (r: Delta)
    ensures r.Closed()
  {
    var payload := event.payload;
    var persona := Str(Or(Get(payload, "persona_id"), Text(event.aggregateId)));
    if persona == "" then EMPTY
    else
      var caption := Str(Or(Or(Get(payload, "persona_name"), Get(payload, "persona_slug")), Text(persona)));
      var named := EMPTY.WithNode(persona, "Persona", caption);
      var lineage := PersonaLineage(named, persona, payload);
      assert persona in lineage.Ids() && lineage.Closed();
      PersonaContents(lineage, persona, payload)
  }

  // ---------------------------------------------------------------- every event

  predicate IsStep(event: Event) {
    event.aggregateType == "step_run" ||
    event.eventType in {"task.started", "agent.step.completed", "agent.step.failed"}
  }

  predicate IsPersona(event: Event) { event.aggregateType == "persona" || StartsWith(event.eventType, "persona.") }

  /** The delta of any event, with what an optional module contributes to device events given. */
  function DeltaOf(event: Event, project: Projection, deviceDelta: Delta): (r: Delta)
    ensures deviceDelta.Closed() ==> r.Closed()
    ensures !StartsWith(event.eventType, "physical.device.") ==> r.Closed()
  {
    var t := event.eventType;
    if StartsWith(t, "workflow.") then WorkflowDelta(event)
    else if IsStep(event) then StepDelta(event)
    else if StartsWith(t, "execution.") then ExecutionDelta(event)
    else if IsExecutionDetail(t) then DetailDelta(event)
    else if StartsWith(t, "memory.") then MemoryDelta(event, project)
    else if StartsWith(t, "document_memory_collection.") then DocumentDelta(event)
    else if StartsWith(t, "workflow_memory_link.") then LinkDelta(event)
    else if StartsWith(t, "physical.device.") then deviceDelta
    else if IsPersona(event) then PersonaDelta(event)
    else EMPTY
  }
}
