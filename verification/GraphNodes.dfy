/**
 * Which nodes an event brings: exactly the records that it names, each under the kind its place in
 * the event gives it, captioned with the first of its names that says something.
 */
module GraphNodes {
  import opened GraphPayload
  import opened GraphDelta
  import RunArcs = GraphRunArcs

  predicate HasNode(d: Delta, x: Node) { x in d.nodes }

  /** A record; one without a caption of its own shows its id. */
  function Called(kind: string, id: string, caption: string): Node {
    Node(id, kind, if caption == "" then id else caption)
  }

  /** A record that is only referred to, if it is. */
  predicate Is(kind: string, id: string, x: Node) { id != "" && x == Called(kind, id, "") }

  predicate Lists(kind: string, ids: seq<string>, x: Node) { x.id in ids && x == Called(kind, x.id, "") }

  /** The text of the first value that says something, or of the last. */
  function FirstText(values: seq<Json>): string
    requires values != []
  {
    if |values| == 1 || Truthy(values[0]) then Str(values[0]) else FirstText(values[1..])
  }

  lemma FirstOfTwo(a: Json, b: Json)
    ensures FirstText([a, b]) == Str(Or(a, b))
  {
    assert [a, b][1..] == [b];
  }

  lemma FirstOfThree(a: Json, b: Json, c: Json)
    ensures FirstText([a, b, c]) == Str(Or(Or(a, b), c))
  {
    assert [a, b, c][1..] == [b, c];
    FirstOfTwo(b, c);
  }

  lemma FirstOfFour(a: Json, b: Json, c: Json, d: Json)
    ensures FirstText([a, b, c, d]) == Str(Or(Or(Or(a, b), c), d))
  {
    assert [a, b, c, d][1..] == [b, c, d];
    FirstOfThree(b, c, d);
  }

  lemma NodeAdds(d: Delta, added: string, addedKind: string, caption: string, x: Node)
    ensures HasNode(d.WithNode(added, addedKind, caption), x) <==>
      HasNode(d, x) || x == Called(addedKind, added, caption)
  {
    var after := d.WithNode(added, addedKind, caption);
    assert after.nodes == d.nodes + [Called(addedKind, added, caption)];
  }

  lemma {:induction false} TargetNodes(d: Delta, from: string, ids: seq<string>, addedKind: string, relation: string,
                                       qualifier: string, x: Node)
    ensures HasNode(Targets(d, from, ids, addedKind, relation, qualifier), x) <==>
      HasNode(d, x) || Lists(addedKind, ids, x)
  {
    if ids != [] {
      var n := |ids| - 1;
      var earlier := Targets(d, from, ids[..n], addedKind, relation, qualifier);
      TargetNodes(d, from, ids[..n], addedKind, relation, qualifier, x);
      NodeAdds(earlier, ids[n], addedKind, ids[n], x);
      assert ids == ids[..n] + [ids[n]];
    }
  }

  // ---------------------------------------------------------------- workflow definitions

  predicate ToolNames(tool: Fields, x: Node) {
    var id := Read(tool, "id");
    id != "" && x == Called("Tool", id, FirstText([Get(tool, "display_name"), Get(tool, "name"), Text(id)]))
  }

  predicate AgentNames(agent: Fields, x: Node) {
    var id := Read(agent, "id");
    && id != ""
    && (|| x == Called("Agent", id, FirstText([Get(agent, "display_name"), Get(agent, "name"), Text(id)]))
        || Lists("Tool", StringList(agent, "tool_ids"), x)
        || Lists("Agent", StringList(agent, "handoff_agent_ids"), x)
        || Is("Model", Read(agent, "model_profile_id"), x))
  }

  predicate TaskNames(task: Fields, x: Node) {
    var id := Read(task, "id");
    && id != ""
    && (|| x == Called("Task", id, FirstText([Get(task, "name"), Text(id)]))
        || Is("Agent", Read(task, "agent_id"), x)
        || Lists("Tool", StringList(task, "tool_ids"), x)
        || Lists("Task", StringList(task, "depends_on_task_ids"), x))
  }

  ghost predicate WorkflowNames(event: Event, x: Node) {
    || (var id := FirstText([Get(event.payload, "workflow_id"), Text(event.aggregateId)]);
        x == Called("Workflow", id, FirstText([Get(event.payload, "name"), Text(id)])))
    || (!Deleted(event)
        && (|| (exists tool :: tool in ObjectList(event.payload, "tools") && ToolNames(tool, x))
            || (exists agent :: agent in ObjectList(event.payload, "agents") && AgentNames(agent, x))
            || (exists task :: task in ObjectList(event.payload, "tasks") && TaskNames(task, x))))
  }

  lemma DefinitionNodes(d: Delta, workflowId: string, added: string, addedKind: string, caption: string,
                        relation: string, x: Node)
    ensures HasNode(Definition(d, workflowId, added, addedKind, caption, relation), x) <==>
      HasNode(d, x) || x == Called(addedKind, added, caption)
  {
    NodeAdds(d, added, addedKind, caption, x);
  }

  lemma ToolNodes(d: Delta, workflowId: string, tool: Fields, x: Node)
    ensures HasNode(DefinedTool(d, workflowId, tool), x) <==> HasNode(d, x) || ToolNames(tool, x)
  {
    var own := Read(tool, "id");
    FirstOfThree(Get(tool, "display_name"), Get(tool, "name"), Text(own));
    DefinitionNodes(d, workflowId, own, "Tool", DisplayName(tool, own), "DEFINES_TOOL", x);
  }

  lemma {:induction false} ToolsNodes(d: Delta, workflowId: string, tools: seq<Fields>, x: Node)
    ensures HasNode(DefinedTools(d, workflowId, tools), x) <==>
      HasNode(d, x) || exists tool :: tool in tools && ToolNames(tool, x)
  {
    hide HasNode, DefinedTool, ToolNames;
    if tools != [] {
      var n := |tools| - 1;
      ToolsNodes(d, workflowId, tools[..n], x);
      ToolNodes(DefinedTools(d, workflowId, tools[..n]), workflowId, tools[n], x);
      assert tools == tools[..n] + [tools[n]];
    }
  }

  lemma AgentNodes(d: Delta, workflowId: string, agent: Fields, x: Node)
    ensures HasNode(DefinedAgent(d, workflowId, agent), x) <==>
      HasNode(d, x) || AgentNames(agent, x)
  {
    var own, model := Read(agent, "id"), Read(agent, "model_profile_id");
    if own != "" {
      FirstOfThree(Get(agent, "display_name"), Get(agent, "name"), Text(own));
      var toolIds, agentIds := StringList(agent, "tool_ids"), StringList(agent, "handoff_agent_ids");
      var defined := Definition(d, workflowId, own, "Agent", DisplayName(agent, own), "DEFINES_AGENT");
      var tools := Targets(defined, own, toolIds, "Tool", "CAN_USE", workflowId);
      DefinitionNodes(d, workflowId, own, "Agent", DisplayName(agent, own), "DEFINES_AGENT", x);
      TargetNodes(defined, own, toolIds, "Tool", "CAN_USE", workflowId, x);
      TargetNodes(tools, own, agentIds, "Agent", "CAN_HANDOFF_TO", workflowId, x);
      NodeAdds(Targets(tools, own, agentIds, "Agent", "CAN_HANDOFF_TO", workflowId), model, "Model", model, x);
    }
  }

  lemma {:induction false} AgentsNodes(d: Delta, workflowId: string, agents: seq<Fields>, x: Node)
    ensures HasNode(DefinedAgents(d, workflowId, agents), x) <==>
      HasNode(d, x) || exists agent :: agent in agents && AgentNames(agent, x)
  {
    hide HasNode, DefinedAgent, AgentNames;
    if agents != [] {
      var n := |agents| - 1;
      AgentsNodes(d, workflowId, agents[..n], x);
      AgentNodes(DefinedAgents(d, workflowId, agents[..n]), workflowId, agents[n], x);
      assert agents == agents[..n] + [agents[n]];
    }
  }

  lemma TaskNodes(d: Delta, workflowId: string, task: Fields, x: Node)
    ensures HasNode(DefinedTask(d, workflowId, task), x) <==> HasNode(d, x) || TaskNames(task, x)
  {
    var own, agent := Read(task, "id"), Read(task, "agent_id");
    if own != "" {
      FirstOfTwo(Get(task, "name"), Text(own));
      var toolIds, taskIds := StringList(task, "tool_ids"), StringList(task, "depends_on_task_ids");
      var defined := Definition(d, workflowId, own, "Task", NameOr(task, own), "DEFINES_TASK");
      var given :=
        if agent == "" then defined
        else defined.WithNode(agent, "Agent", agent).WithEdge(own, agent, "ASSIGNED_TO", workflowId);
      DefinitionNodes(d, workflowId, own, "Task", NameOr(task, own), "DEFINES_TASK", x);
      NodeAdds(defined, agent, "Agent", agent, x);
      TargetNodes(given, own, toolIds, "Tool", "USES_TOOL", workflowId, x);
      TargetNodes(Targets(given, own, toolIds, "Tool", "USES_TOOL", workflowId), own, taskIds, "Task", "DEPENDS_ON",
                  workflowId, x);
    }
  }

  lemma {:induction false} TasksNodes(d: Delta, workflowId: string, tasks: seq<Fields>, x: Node)
    ensures HasNode(DefinedTasks(d, workflowId, tasks), x) <==>
      HasNode(d, x) || exists task :: task in tasks && TaskNames(task, x)
  {
    hide HasNode, DefinedTask, TaskNames;
    if tasks != [] {
      var n := |tasks| - 1;
      TasksNodes(d, workflowId, tasks[..n], x);
      TaskNodes(DefinedTasks(d, workflowId, tasks[..n]), workflowId, tasks[n], x);
      assert tasks == tasks[..n] + [tasks[n]];
    }
  }

  lemma WorkflowNodesExactly(event: Event, x: Node)
    ensures HasNode(WorkflowDelta(event), x) <==> WorkflowNames(event, x)
  {
    var payload := event.payload;
    var own := Str(Or(Get(payload, "workflow_id"), Text(event.aggregateId)));
    FirstOfTwo(Get(payload, "workflow_id"), Text(event.aggregateId));
    FirstOfTwo(Get(payload, "name"), Text(own));
    var d := EMPTY.WithNode(own, "Workflow", NameOr(payload, own));
    var tools := DefinedTools(d, own, ObjectList(payload, "tools"));
    NodeAdds(EMPTY, own, "Workflow", NameOr(payload, own), x);
    ToolsNodes(d, own, ObjectList(payload, "tools"), x);
    AgentsNodes(tools, own, ObjectList(payload, "agents"), x);
    TasksNodes(DefinedAgents(tools, own, ObjectList(payload, "agents")), own, ObjectList(payload, "tasks"), x);
  }

  // ---------------------------------------------------------------- steps, runs and their details

  predicate StepNames(event: Event, x: Node) {
    || (var step := Strip(event.aggregateId);
        x == Called("StepRun", step, FirstText([Get(event.payload, "task_id"), Text(step)])))
    || Is("WorkflowRun", Read(event.payload, "execution_id"), x)
  }

  predicate ExecutionNames(event: Event, x: Node) {
    || x == Called("WorkflowRun", ExecutionId(event), "")
    || (!Deleted(event) && Is("Workflow", Read(event.payload, "workflow_id"), x))
  }

  lemma StepNodesExactly(event: Event, x: Node)
    ensures HasNode(StepDelta(event), x) <==> StepNames(event, x)
  {
    var step, execution := Strip(event.aggregateId), Read(event.payload, "execution_id");
    var caption := Str(Or(Get(event.payload, "task_id"), Text(step)));
    FirstOfTwo(Get(event.payload, "task_id"), Text(step));
    NodeAdds(EMPTY, step, "StepRun", caption, x);
    NodeAdds(EMPTY.WithNode(step, "StepRun", caption), execution, "WorkflowRun", execution, x);
  }

  lemma ExecutionNodesExactly(event: Event, x: Node)
    ensures HasNode(ExecutionDelta(event), x) <==> ExecutionNames(event, x)
  {
    var execution, workflow := ExecutionId(event), Read(event.payload, "workflow_id");
    NodeAdds(EMPTY, execution, "WorkflowRun", execution, x);
    NodeAdds(EMPTY.WithNode(execution, "WorkflowRun", execution), workflow, "Workflow", workflow, x);
  }

  /** The ids of the run and of the detail that an event is about, and of the link in it. */
  lemma IdsAreReadExactly(event: Event)
    ensures ExecutionId(event) == FirstText([Get(event.payload, "execution_id"), Text(event.aggregateId)])
    ensures LinkId(event) == FirstText([Get(Nested(event.payload, "link"), "id"), Text(event.aggregateId)])
    ensures var sequence := Get(event.payload, "sequence");
      DetailId(event) ==
        if event.sourceEventId.Some? && event.sourceEventId.value != "" then Strip(event.sourceEventId.value)
        else Strip(ExecutionId(event) + ":" + event.eventType + ":" +
                   if Truthy(sequence) then Shown(sequence) else event.eventId)
  {
    FirstOfTwo(Get(event.payload, "execution_id"), Text(event.aggregateId));
    FirstOfTwo(Get(Nested(event.payload, "link"), "id"), Text(event.aggregateId));
  }

  const DETAIL_WORDS := {"approval", "artifact", "container", "context", "llm", "monitor", "runtime", "token"}

  /** Details of a run are told by the first word of their type, and tool calls by the first two. */
  lemma DetailsExactly(t: string)
    ensures IsExecutionDetail(t) <==> "tool.call." <= t || exists word :: word in DETAIL_WORDS && word + "." <= t
  {
    assert "approval." == "approval" + "." && "artifact." == "artifact" + "." && "container." == "container" + ".";
    assert "context." == "context" + "." && "llm." == "llm" + "." && "monitor." == "monitor" + ".";
    assert "runtime." == "runtime" + "." && "token." == "token" + ".";
  }

  function EventKind(event: Event): string {
    if StartsWith(event.eventType, "container.") then "ContainerEvent" else "ExecutionEvent"
  }

  predicate ContextNames(execution: string, payload: Fields, x: Node) {
    || Is("ExecutionEvent", Read(payload, "parent_event_id"), x)
    || (execution != "" && Is("Agent", Read(payload, "agent_id"), x))
    || (execution != "" && Is("Task", Read(payload, "task_id"), x))
  }

  predicate ToolCallNames(execution: string, payload: Fields, x: Node) {
    var call := Anywhere(payload, "tool_call_id", "toolCallId");
    execution != "" && call != "" && x == Called("ToolCall", call, Inner(payload, "tool_name"))
  }

  /** A model request brings its model when that is named, and its provider when that is. */
  predicate RequestNames(execution: string, payload: Fields, x: Node) {
    var request := Anywhere(payload, "model_request_id", "modelRequestId");
    && execution != "" && request != ""
    && (|| Is("ModelRequest", request, x)
        || (RunArcs.Model(payload) != "" && x == Called("Model", RunArcs.Model(payload), RunArcs.ModelName(payload)))
        || Is("ModelProvider", RunArcs.Provider(payload), x))
  }

  function ObservationKind(eventType: string): string {
    if eventType == "context.health.recorded" then "ContextHealth"
    else if eventType == "token.usage.recorded" then "TokenUsage"
    else if StartsWith(eventType, "token.budget.") then "TokenBudget"
    else if StartsWith(eventType, "context.compaction.") then "ContextCompaction"
    else "MonitorFinding"
  }

  /** What the node made of an observation shows. */
  function ObservationCaption(event: Event, node: string): string {
    var t, nested, metrics := event.eventType, Nested(event.payload, "payload"), Nested(event.payload, "metrics");
    if t == "context.health.recorded" then
      FirstText([Get(nested, "status"), Get(metrics, "context_status"), Text(node)])
    else if t == "token.usage.recorded" then
      FirstText([Get(Nested(nested, "usage"), "total_tokens"), Get(metrics, "total_tokens"), Text(node)])
    else if StartsWith(t, "token.budget.") then
      FirstText([Get(Nested(nested, "budget"), "status"), Text(AfterLastDot(t))])
    else if StartsWith(t, "context.compaction.") then FirstText([Get(nested, "reason"), Text(AfterLastDot(t))])
    else FirstText([Get(nested, "summary"), Get(nested, "message"), Get(nested, "title"), Text(node)])
  }

  predicate ObservationNames(event: Event, id: string, x: Node) {
    var o := RunArcs.ObservationOf(event.eventType, id);
    && o.Observed?
    && (|| x == Called(ObservationKind(event.eventType), o.node, ObservationCaption(event, o.node))
        || (StartsWith(event.eventType, "context.compaction.")
            && Is("Memory", Read(Nested(Nested(event.payload, "payload"), "record"), "memory_id"), x)))
  }

  predicate DetailNames(event: Event, x: Node) {
    var execution, payload := ExecutionId(event), event.payload;
    || Is("WorkflowRun", execution, x)
    || x == Called(EventKind(event), DetailId(event), DetailCaption(event))
    || ContextNames(execution, payload, x)
    || ToolCallNames(execution, payload, x)
    || RequestNames(execution, payload, x)
    || ObservationNames(event, DetailId(event), x)
  }

  lemma EventNodes(event: Event, x: Node)
    ensures HasNode(DetailEvent(event), x) <==>
      Is("WorkflowRun", ExecutionId(event), x) || x == Called(EventKind(event), DetailId(event), DetailCaption(event))
  {
    var execution, own := ExecutionId(event), DetailId(event);
    NodeAdds(EMPTY, own, EventKind(event), DetailCaption(event), x);
    NodeAdds(EMPTY, execution, "WorkflowRun", execution, x);
    NodeAdds(EMPTY.WithNode(execution, "WorkflowRun", execution), own, EventKind(event), DetailCaption(event),
             x);
  }

  lemma SameNodes(d: Delta, e: Delta, x: Node)
    requires d.nodes == e.nodes
    ensures HasNode(d, x) <==> HasNode(e, x)
  {
  }

  lemma ContextNodes(d: Delta, execution: string, own: string, payload: Fields, x: Node)
    ensures HasNode(DetailContext(d, execution, own, payload), x) <==>
      HasNode(d, x) || ContextNames(execution, payload, x)
  {
    hide HasNode;
    var parent, agent, task := Read(payload, "parent_event_id"), Read(payload, "agent_id"), Read(payload, "task_id");
    var withParent := d.WithNode(parent, "ExecutionEvent", parent);
    NodeAdds(d, parent, "ExecutionEvent", parent, x);
    var caused := if parent == "" then d else withParent.WithEdge(parent, own, "PARENT_OF");
    SameNodes(withParent, withParent.WithEdge(parent, own, "PARENT_OF"), x);
    var withAgent := caused.WithNode(agent, "Agent", agent);
    NodeAdds(caused, agent, "Agent", agent, x);
    var joining := withAgent.WithEdge(agent, execution, "PARTICIPATED_IN").WithEdge(agent, own, "EMITTED_EVENT");
    SameNodes(withAgent, joining, x);
    var joined := if agent == "" || execution == "" then caused else joining;
    var withTask := joined.WithNode(task, "Task", task);
    NodeAdds(joined, task, "Task", task, x);
    SameNodes(withTask, withTask.WithEdge(task, execution, "OCCURRED_IN"), x);
  }

  lemma ToolCallNodes(d: Delta, execution: string, payload: Fields, x: Node)
    ensures HasNode(DetailToolCall(d, execution, payload), x) <==>
      HasNode(d, x) || ToolCallNames(execution, payload, x)
  {
    var call := Anywhere(payload, "tool_call_id", "toolCallId");
    NodeAdds(d, call, "ToolCall", OrText(Inner(payload, "tool_name"), call), x);
  }

  lemma RequestNodes(d: Delta, execution: string, payload: Fields, x: Node)
    ensures HasNode(DetailModel(d, execution, payload), x) <==>
      HasNode(d, x) || RequestNames(execution, payload, x)
  {
    var request := Anywhere(payload, "model_request_id", "modelRequestId");
    var provider, model := RunArcs.Provider(payload), RunArcs.Model(payload);
    var name := OrText(Inner(payload, "model"), Inner(payload, "model_name"));
    var asked := d.WithNode(request, "ModelRequest", request).WithEdge(request, execution, "OCCURRED_IN");
    var used :=
      if model == "" then asked
      else
        asked.WithNode(model, "Model", OrText(name, model))
          .WithEdge(execution, model, "USED_MODEL").WithEdge(request, model, "USED_MODEL");
    NodeAdds(d, request, "ModelRequest", request, x);
    NodeAdds(asked, model, "Model", OrText(name, model), x);
    NodeAdds(used, provider, "ModelProvider", provider, x);
  }

  lemma SignalNodes(d: Delta, execution: string, own: string, signal: string, addedKind: string, caption: string,
                    ofRun: string, ofEvent: string, x: Node)
    ensures HasNode(Signal(d, execution, own, signal, addedKind, caption, ofRun, ofEvent), x) <==>
      HasNode(d, x) || x == Called(addedKind, signal, caption)
  {
    NodeAdds(d, signal, addedKind, caption, x);
  }

  lemma CompactionNodes(d: Delta, execution: string, own: string, event: Event, x: Node)
    ensures HasNode(Compaction(d, execution, own, event), x) <==>
      || HasNode(d, x)
      || x == Called("ContextCompaction", "context_compaction:" + own,
                     FirstText([Get(Nested(event.payload, "payload"), "reason"), Text(AfterLastDot(event.eventType))]))
      || Is("Memory", Read(Nested(Nested(event.payload, "payload"), "record"), "memory_id"), x)
  {
    FirstOfTwo(Get(Nested(event.payload, "payload"), "reason"), Text(AfterLastDot(event.eventType)));
    var nested := Nested(event.payload, "payload");
    var caption := Str(Or(Get(nested, "reason"), Text(AfterLastDot(event.eventType))));
    var node, memory := "context_compaction:" + own, Read(Nested(nested, "record"), "memory_id");
    SignalNodes(d, execution, own, node, "ContextCompaction", caption, "HAS_COMPACTION", "HAS_COMPACTION", x);
    NodeAdds(Signal(d, execution, own, node, "ContextCompaction", caption, "HAS_COMPACTION", "HAS_COMPACTION"),
             memory, "Memory", memory, x);
  }

  lemma ObservationNodes(d: Delta, execution: string, own: string, event: Event, x: Node)
    ensures HasNode(Observability(d, execution, own, event), x) <==>
      HasNode(d, x) || ObservationNames(event, own, x)
  {
    hide HasNode, Signal, Compaction, FirstText, Str;
    var nested, metrics := Nested(event.payload, "payload"), Nested(event.payload, "metrics");
    var t, o := event.eventType, RunArcs.ObservationOf(event.eventType, own);
    if t == "context.health.recorded" {
      RunArcs.PlainEventType(t);
      FirstOfThree(Get(nested, "status"), Get(metrics, "context_status"), Text(o.node));
      SignalNodes(d, execution, own, o.node, "ContextHealth",
                  Str(Or(Or(Get(nested, "status"), Get(metrics, "context_status")), Text(o.node))),
                  o.ofRun, o.ofEvent, x);
    } else if t == "token.usage.recorded" {
      RunArcs.PlainEventType(t);
      FirstOfThree(Get(Nested(nested, "usage"), "total_tokens"), Get(metrics, "total_tokens"), Text(o.node));
      SignalNodes(d, execution, own, o.node, "TokenUsage",
                  Str(Or(Or(Get(Nested(nested, "usage"), "total_tokens"), Get(metrics, "total_tokens")), Text(o.node))),
                  o.ofRun, o.ofEvent, x);
    } else if StartsWith(t, "token.budget.") {
      RunArcs.BudgetsAreNoCompactions(t);
      FirstOfTwo(Get(Nested(nested, "budget"), "status"), Text(AfterLastDot(t)));
      SignalNodes(d, execution, own, o.node, "TokenBudget",
                  Str(Or(Get(Nested(nested, "budget"), "status"), Text(AfterLastDot(t)))),
                  o.ofRun, o.ofEvent, x);
    } else if StartsWith(t, "context.compaction.") {
      CompactionNodes(d, execution, own, event, x);
    } else if t == "monitor.finding.created" {
      FirstOfFour(Get(nested, "summary"), Get(nested, "message"), Get(nested, "title"), Text(o.node));
      SignalNodes(d, execution, own, o.node, "MonitorFinding",
                  Str(Or(Or(Or(Get(nested, "summary"), Get(nested, "message")), Get(nested, "title")), Text(o.node))),
                  o.ofRun, o.ofEvent, x);
    }
  }

  lemma DetailNodesExactly(event: Event, x: Node)
    ensures HasNode(DetailDelta(event), x) <==> DetailNames(event, x)
  {
    hide HasNode, DetailEvent, DetailContext, DetailToolCall, DetailModel, Observability, ContextNames, ToolCallNames,
      RequestNames, ObservationNames;
    var execution, own, payload := ExecutionId(event), DetailId(event), event.payload;
    var context := DetailContext(DetailEvent(event), execution, own, payload);
    var calls := DetailToolCall(context, execution, payload);
    EventNodes(event, x);
    ContextNodes(DetailEvent(event), execution, own, payload, x);
    ToolCallNodes(context, execution, payload, x);
    RequestNodes(calls, execution, payload, x);
    ObservationNodes(DetailModel(calls, execution, payload), execution, own, event, x);
  }
}
