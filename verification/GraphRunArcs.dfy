/**
 * What the edges of the deltas of steps, runs and run details say, read off the event: which record
 * was part of, caused, used or was observed in which other.
 */
module GraphRunArcs {
  import opened GraphPayload
  import opened GraphDelta
  import opened GraphArcs

  // ---------------------------------------------------------------- steps and runs

  predicate StepSays(event: Event, relation: string, source: string, target: string) {
    && source != "" && source == Read(event.payload, "execution_id")
    && relation == "HAS_STEP_RUN" && target == Strip(event.aggregateId)
  }

  predicate ExecutionSays(event: Event, relation: string, source: string, target: string) {
    && !Deleted(event) && source != "" && source == Read(event.payload, "workflow_id")
    && relation in {"HAS_RUN", "STARTED"} && target == ExecutionId(event)
  }

  lemma StepEdgesExactly(event: Event, relation: string, source: string, target: string)
    ensures HasArc(StepDelta(event), relation, source, target) <==> StepSays(event, relation, source, target)
  {
    var step, execution := Strip(event.aggregateId), Read(event.payload, "execution_id");
    var d := EMPTY.WithNode(step, "StepRun", Str(Or(Get(event.payload, "task_id"), Text(step))));
    EdgeAdds(d.WithNode(execution, "WorkflowRun", execution), execution, step, "HAS_STEP_RUN", "",
             relation, source, target);
  }

  lemma ExecutionEdgesExactly(event: Event, relation: string, source: string, target: string)
    ensures HasArc(ExecutionDelta(event), relation, source, target) <==> ExecutionSays(event, relation, source, target)
  {
    var execution, workflow := ExecutionId(event), Read(event.payload, "workflow_id");
    var d := EMPTY.WithNode(execution, "WorkflowRun", execution).WithNode(workflow, "Workflow", workflow);
    EdgeAdds(d, workflow, execution, "HAS_RUN", "", relation, source, target);
    EdgeAdds(d.WithEdge(workflow, execution, "HAS_RUN"), workflow, execution, "STARTED", "", relation, source, target);
  }

  // ---------------------------------------------------------------- details of a run

  predicate EventSays(execution: string, id: string, relation: string, source: string, target: string) {
    execution != "" && relation == "EMITTED_EVENT" && source == execution && target == id
  }

  predicate ParentSays(payload: Fields, id: string, relation: string, source: string, target: string) {
    relation == "PARENT_OF" && source != "" && source == Read(payload, "parent_event_id") && target == id
  }

  predicate AgentSays(execution: string, id: string, payload: Fields,
                      relation: string, source: string, target: string) {
    && execution != "" && source != "" && source == Read(payload, "agent_id")
    && ((relation == "PARTICIPATED_IN" && target == execution) || (relation == "EMITTED_EVENT" && target == id))
  }

  /** Tasks, tool calls and model requests occurred in the run. */
  predicate Occurred(execution: string, thing: string, relation: string, source: string, target: string) {
    execution != "" && thing != "" && relation == "OCCURRED_IN" && source == thing && target == execution
  }

  function Provider(payload: Fields): string { OrText(Inner(payload, "provider"), Inner(payload, "model_provider")) }

  function ModelName(payload: Fields): string { OrText(Inner(payload, "model"), Inner(payload, "model_name")) }

  function Model(payload: Fields): string { ModelId(Provider(payload), ModelName(payload)) }

  /** A model request used a model, and so did the run; the model is its provider's. */
  predicate ModelSays(execution: string, payload: Fields, relation: string, source: string, target: string) {
    var request, model := Anywhere(payload, "model_request_id", "modelRequestId"), Model(payload);
    && execution != "" && request != "" && model != ""
    && (|| (relation == "USED_MODEL" && (source == execution || source == request) && target == model)
        || (relation == "USED_PROVIDER" && source == model && target != "" && target == Provider(payload)))
  }

  lemma EventAdds(event: Event, relation: string, source: string, target: string)
    ensures HasArc(DetailEvent(event), relation, source, target) <==>
      EventSays(ExecutionId(event), DetailId(event), relation, source, target)
  {
    var execution, id := ExecutionId(event), DetailId(event);
    var kind := if StartsWith(event.eventType, "container.") then "ContainerEvent" else "ExecutionEvent";
    var d := EMPTY.WithNode(execution, "WorkflowRun", execution).WithNode(id, kind, DetailCaption(event));
    EdgeAdds(d, execution, id, "EMITTED_EVENT", "", relation, source, target);
  }

  lemma ContextAdds(d: Delta, execution: string, id: string, payload: Fields,
                    relation: string, source: string, target: string)
    ensures HasArc(DetailContext(d, execution, id, payload), relation, source, target) <==>
      || HasArc(d, relation, source, target)
      || ParentSays(payload, id, relation, source, target)
      || AgentSays(execution, id, payload, relation, source, target)
      || Occurred(execution, Read(payload, "task_id"), relation, source, target)
  {
    var parent, agent, task := Read(payload, "parent_event_id"), Read(payload, "agent_id"), Read(payload, "task_id");
    var withParent := d.WithNode(parent, "ExecutionEvent", parent);
    EdgeAdds(withParent, parent, id, "PARENT_OF", "", relation, source, target);
    var caused := if parent == "" then d else withParent.WithEdge(parent, id, "PARENT_OF");
    var withAgent := caused.WithNode(agent, "Agent", agent);
    var joining := withAgent.WithEdge(agent, execution, "PARTICIPATED_IN");
    EdgeAdds(withAgent, agent, execution, "PARTICIPATED_IN", "", relation, source, target);
    EdgeAdds(joining, agent, id, "EMITTED_EVENT", "", relation, source, target);
    var joined := if agent == "" || execution == "" then caused else joining.WithEdge(agent, id, "EMITTED_EVENT");
    EdgeAdds(joined.WithNode(task, "Task", task), task, execution, "OCCURRED_IN", "", relation, source, target);
  }

  lemma ToolCallAdds(d: Delta, execution: string, payload: Fields, relation: string, source: string, target: string)
    ensures HasArc(DetailToolCall(d, execution, payload), relation, source, target) <==>
      || HasArc(d, relation, source, target)
      || Occurred(execution, Anywhere(payload, "tool_call_id", "toolCallId"), relation, source, target)
  {
    var call := Anywhere(payload, "tool_call_id", "toolCallId");
    var named := d.WithNode(call, "ToolCall", OrText(Inner(payload, "tool_name"), call));
    EdgeAdds(named, call, execution, "OCCURRED_IN", "", relation, source, target);
  }

  lemma ModelAdds(d: Delta, execution: string, payload: Fields, relation: string, source: string, target: string)
    ensures HasArc(DetailModel(d, execution, payload), relation, source, target) <==>
      || HasArc(d, relation, source, target)
      || Occurred(execution, Anywhere(payload, "model_request_id", "modelRequestId"), relation, source, target)
      || ModelSays(execution, payload, relation, source, target)
  {
    var request := Anywhere(payload, "model_request_id", "modelRequestId");
    var provider, model := Provider(payload), Model(payload);
    var name := OrText(Inner(payload, "model"), Inner(payload, "model_name"));
    var requested := d.WithNode(request, "ModelRequest", request);
    EdgeAdds(requested, request, execution, "OCCURRED_IN", "", relation, source, target);
    var asked := requested.WithEdge(request, execution, "OCCURRED_IN");
    var named := asked.WithNode(model, "Model", OrText(name, model));
    EdgeAdds(named, execution, model, "USED_MODEL", "", relation, source, target);
    var byRun := named.WithEdge(execution, model, "USED_MODEL");
    EdgeAdds(byRun, request, model, "USED_MODEL", "", relation, source, target);
    var used := if model == "" then asked else byRun.WithEdge(request, model, "USED_MODEL");
    EdgeAdds(used.WithNode(provider, "ModelProvider", provider), model, provider, "USED_PROVIDER", "",
             relation, source, target);
  }

  // ---------------------------------------------------------------- observations

  /** What an event type observes: the node it makes of it, and its relations to the run and to the event. */
  datatype Observation = Nothing | Observed(node: string, ofRun: string, ofEvent: string)

  function ObservationOf(eventType: string, id: string): Observation {
    if eventType == "context.health.recorded" then
      Observed("context_health:" + id, "HAS_CONTEXT_HEALTH", "RECORDED_CONTEXT_HEALTH")
    else if eventType == "token.usage.recorded" then Observed("token_usage:" + id, "RECORDED_USAGE", "RECORDED_USAGE")
    else if StartsWith(eventType, "token.budget.") then
      Observed("token_budget:" + id, "HAS_BUDGET_SIGNAL", "HAS_BUDGET_SIGNAL")
    else if StartsWith(eventType, "context.compaction.") then
      Observed("context_compaction:" + id, "HAS_COMPACTION", "HAS_COMPACTION")
    else if eventType == "monitor.finding.created" then
      Observed("monitor_finding:" + id, "RAISED_FINDING", "RAISED_FINDING")
    else Nothing
  }

  predicate SignalSays(execution: string, id: string, o: Observation, relation: string, source: string, target: string)
    requires o.Observed?
  {
    && target == o.node
    && ((execution != "" && relation == o.ofRun && source == execution) || (relation == o.ofEvent && source == id))
  }

  /** A compaction may have left a memory behind. */
  predicate CompactionSays(event: Event, id: string, relation: string, source: string, target: string) {
    && StartsWith(event.eventType, "context.compaction.")
    && relation == "CREATED_MEMORY" && source == "context_compaction:" + id
    && target != "" && target == Read(Nested(Nested(event.payload, "payload"), "record"), "memory_id")
  }

  predicate ObservationSays(execution: string, id: string, event: Event,
                            relation: string, source: string, target: string) {
    var o := ObservationOf(event.eventType, id);
    o.Observed? &&
    (SignalSays(execution, id, o, relation, source, target) || CompactionSays(event, id, relation, source, target))
  }

  lemma SignalAdds(d: Delta, execution: string, id: string, o: Observation, kind: string, caption: string,
                   relation: string, source: string, target: string)
    requires o.Observed?
    ensures HasArc(Signal(d, execution, id, o.node, kind, caption, o.ofRun, o.ofEvent), relation, source, target) <==>
      HasArc(d, relation, source, target) || SignalSays(execution, id, o, relation, source, target)
  {
    var seen := d.WithNode(o.node, kind, caption);
    EdgeAdds(seen, execution, o.node, o.ofRun, "", relation, source, target);
    var run := if execution == "" then seen else seen.WithEdge(execution, o.node, o.ofRun);
    EdgeAdds(run, id, o.node, o.ofEvent, "", relation, source, target);
  }

  lemma CompactionAdds(d: Delta, execution: string, id: string, event: Event,
                       relation: string, source: string, target: string)
    requires StartsWith(event.eventType, "context.compaction.")
    ensures var o := Observed("context_compaction:" + id, "HAS_COMPACTION", "HAS_COMPACTION");
      HasArc(Compaction(d, execution, id, event), relation, source, target) <==>
      || HasArc(d, relation, source, target) || SignalSays(execution, id, o, relation, source, target)
      || CompactionSays(event, id, relation, source, target)
  {
    var nested := Nested(event.payload, "payload");
    var o := Observed("context_compaction:" + id, "HAS_COMPACTION", "HAS_COMPACTION");
    var caption := Str(Or(Get(nested, "reason"), Text(AfterLastDot(event.eventType))));
    SignalAdds(d, execution, id, o, "ContextCompaction", caption, relation, source, target);
    var seen := Signal(d, execution, id, o.node, "ContextCompaction", caption, o.ofRun, o.ofEvent);
    var memory := Read(Nested(nested, "record"), "memory_id");
    EdgeAdds(seen.WithNode(memory, "Memory", memory), o.node, memory, "CREATED_MEMORY", "", relation, source, target);
  }

  lemma ObservabilityAdds(d: Delta, execution: string, id: string, event: Event,
                          relation: string, source: string, target: string)
    ensures HasArc(Observability(d, execution, id, event), relation, source, target) <==>
      HasArc(d, relation, source, target) || ObservationSays(execution, id, event, relation, source, target)
  {
    var nested, metrics := Nested(event.payload, "payload"), Nested(event.payload, "metrics");
    var t, o := event.eventType, ObservationOf(event.eventType, id);
    if t == "context.health.recorded" {
      PlainEventType(t);
      SignalAdds(d, execution, id, o, "ContextHealth",
                 Str(Or(Or(Get(nested, "status"), Get(metrics, "context_status")), Text(o.node))),
                 relation, source, target);
    } else if t == "token.usage.recorded" {
      PlainEventType(t);
      SignalAdds(d, execution, id, o, "TokenUsage",
                 Str(Or(Or(Get(Nested(nested, "usage"), "total_tokens"), Get(metrics, "total_tokens")), Text(o.node))),
                 relation, source, target);
    } else if StartsWith(t, "token.budget.") {
      BudgetsAreNoCompactions(t);
      SignalAdds(d, execution, id, o, "TokenBudget",
                 Str(Or(Get(Nested(nested, "budget"), "status"), Text(AfterLastDot(t)))), relation, source, target);
    } else if StartsWith(t, "context.compaction.") {
      CompactionAdds(d, execution, id, event, relation, source, target);
    } else if t == "monitor.finding.created" {
      SignalAdds(d, execution, id, o, "MonitorFinding",
                 Str(Or(Or(Or(Get(nested, "summary"), Get(nested, "message")), Get(nested, "title")), Text(o.node))),
                 relation, source, target);
    }
  }

  lemma PlainEventType(t: string)
    requires t in {"context.health.recorded", "token.usage.recorded"}
    ensures !StartsWith(t, "context.compaction.")
  {
    assert "context.compaction."[8] == 'c' && "context.health.recorded"[8] == 'h';
    assert "context.compaction."[0] == 'c' && "token.usage.recorded"[0] == 't';
  }

  lemma BudgetsAreNoCompactions(t: string)
    requires StartsWith(t, "token.budget.")
    ensures !StartsWith(t, "context.compaction.")
  {
    assert t[0] == "token.budget."[0] == 't' && "context.compaction."[0] == 'c';
  }

  predicate DetailSays(event: Event, relation: string, source: string, target: string) {
    var execution, id, payload := ExecutionId(event), DetailId(event), event.payload;
    || EventSays(execution, id, relation, source, target)
    || ParentSays(payload, id, relation, source, target)
    || AgentSays(execution, id, payload, relation, source, target)
    || Occurred(execution, Read(payload, "task_id"), relation, source, target)
    || Occurred(execution, Anywhere(payload, "tool_call_id", "toolCallId"), relation, source, target)
    || Occurred(execution, Anywhere(payload, "model_request_id", "modelRequestId"), relation, source, target)
    || ModelSays(execution, payload, relation, source, target)
    || ObservationSays(execution, id, event, relation, source, target)
  }

  /** The edges of a detail event are exactly those its fields and its type call for. */
  lemma DetailEdgesExactly(event: Event, relation: string, source: string, target: string)
    ensures HasArc(DetailDelta(event), relation, source, target) <==> DetailSays(event, relation, source, target)
  {
    var execution, id, payload := ExecutionId(event), DetailId(event), event.payload;
    var context := DetailContext(DetailEvent(event), execution, id, payload);
    var calls := DetailToolCall(context, execution, payload);
    EventAdds(event, relation, source, target);
    ContextAdds(DetailEvent(event), execution, id, payload, relation, source, target);
    ToolCallAdds(context, execution, payload, relation, source, target);
    ModelAdds(calls, execution, payload, relation, source, target);
    ObservabilityAdds(DetailModel(calls, execution, payload), execution, id, event, relation, source, target);
  }
}
