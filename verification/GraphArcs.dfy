/**
 * What the edges of a workflow's delta say, read off its definition: an edge is there exactly when
 * one of the listed tools, agents or tasks calls for it.
 */
module GraphArcs {
  import opened GraphPayload
  import opened GraphDelta

  ghost predicate HasArc(d: Delta, relation: string, source: string, target: string) {
    exists e :: e in d.edges && e.relation == relation && e.source == source && e.target == target
  }

  // ---------------------------------------------------------------- what a definition calls for

  predicate ToolSays(workflowId: string, tool: Fields, relation: string, source: string, target: string) {
    && Read(tool, "id") != "" && workflowId != ""
    && relation == "DEFINES_TOOL" && source == workflowId && target == Read(tool, "id")
  }

  predicate AgentSays(workflowId: string, agent: Fields, relation: string, source: string, target: string) {
    var id := Read(agent, "id");
    && id != ""
    && (|| (relation == "DEFINES_AGENT" && workflowId != "" && source == workflowId && target == id)
        || (relation == "CAN_USE" && source == id && target in StringList(agent, "tool_ids"))
        || (relation == "CAN_HANDOFF_TO" && source == id && target in StringList(agent, "handoff_agent_ids"))
        || (relation in {"USED_MODEL", "USES_MODEL_PROFILE"} && source == id && target != ""
            && target == Read(agent, "model_profile_id")))
  }

  predicate TaskSays(workflowId: string, task: Fields, relation: string, source: string, target: string) {
    var id := Read(task, "id");
    && id != ""
    && (|| (relation == "DEFINES_TASK" && workflowId != "" && source == workflowId && target == id)
        || (relation == "ASSIGNED_TO" && source == id && target != "" && target == Read(task, "agent_id"))
        || (relation == "USES_TOOL" && source == id && target in StringList(task, "tool_ids"))
        || (relation == "DEPENDS_ON" && source == id && target in StringList(task, "depends_on_task_ids")))
  }

  ghost predicate DefinitionSays(workflowId: string, payload: Fields,
                                 relation: string, source: string, target: string) {
    || (exists tool :: tool in ObjectList(payload, "tools") && ToolSays(workflowId, tool, relation, source, target))
    || (exists agent ::
          agent in ObjectList(payload, "agents") && AgentSays(workflowId, agent, relation, source, target))
    || (exists task :: task in ObjectList(payload, "tasks") && TaskSays(workflowId, task, relation, source, target))
  }

  // ---------------------------------------------------------------- what a step adds

  lemma EdgeAdds(d: Delta, from: string, to: string, added: string, qualifier: string,
                 relation: string, source: string, target: string)
    ensures HasArc(d.WithEdge(from, to, added, qualifier), relation, source, target) <==>
      HasArc(d, relation, source, target) || (relation == added && source == from && target == to)
  {
    var after := d.WithEdge(from, to, added, qualifier);
    assert after.edges[|d.edges|] in after.edges;
    if HasArc(d, relation, source, target) {
      var e :| e in d.edges && e.relation == relation && e.source == source && e.target == target;
      assert e in after.edges;
    }
  }

  lemma {:induction false} TargetsAdd(d: Delta, from: string, ids: seq<string>, kind: string, added: string,
                                      qualifier: string, relation: string, source: string, target: string)
    ensures HasArc(Targets(d, from, ids, kind, added, qualifier), relation, source, target) <==>
      HasArc(d, relation, source, target) || (relation == added && source == from && target in ids)
  {
    if ids != [] {
      var n := |ids| - 1;
      var earlier := Targets(d, from, ids[..n], kind, added, qualifier).WithNode(ids[n], kind, ids[n]);
      TargetsAdd(d, from, ids[..n], kind, added, qualifier, relation, source, target);
      EdgeAdds(earlier, from, ids[n], added, qualifier, relation, source, target);
      assert ids == ids[..n] + [ids[n]];
    }
  }

  lemma DefinitionAdds(d: Delta, workflowId: string, id: string, kind: string, caption: string, added: string,
                       relation: string, source: string, target: string)
    ensures HasArc(Definition(d, workflowId, id, kind, caption, added), relation, source, target) <==>
      HasArc(d, relation, source, target) ||
      (workflowId != "" && relation == added && source == workflowId && target == id)
  {
    EdgeAdds(d.WithNode(id, kind, caption), workflowId, id, added, "", relation, source, target);
  }

  lemma ToolAdds(d: Delta, workflowId: string, tool: Fields, relation: string, source: string, target: string)
    ensures HasArc(DefinedTool(d, workflowId, tool), relation, source, target) <==>
      HasArc(d, relation, source, target) || ToolSays(workflowId, tool, relation, source, target)
  {
    var id := Read(tool, "id");
    DefinitionAdds(d, workflowId, id, "Tool", DisplayName(tool, id), "DEFINES_TOOL", relation, source, target);
  }

  lemma {:induction false} ToolsAdd(d: Delta, workflowId: string, tools: seq<Fields>,
                                    relation: string, source: string, target: string)
    ensures HasArc(DefinedTools(d, workflowId, tools), relation, source, target) <==>
      HasArc(d, relation, source, target) ||
      exists tool :: tool in tools && ToolSays(workflowId, tool, relation, source, target)
  {
    if tools != [] {
      var n := |tools| - 1;
      ToolsAdd(d, workflowId, tools[..n], relation, source, target);
      ToolAdds(DefinedTools(d, workflowId, tools[..n]), workflowId, tools[n], relation, source, target);
      assert tools == tools[..n] + [tools[n]];
    }
  }

  lemma ModelAdds(d: Delta, workflowId: string, id: string, model: string,
                  relation: string, source: string, target: string)
    ensures HasArc(AgentModel(d, workflowId, id, model), relation, source, target) <==>
      HasArc(d, relation, source, target) ||
      (model != "" && relation in {"USED_MODEL", "USES_MODEL_PROFILE"} && source == id && target == model)
  {
    var named := d.WithNode(model, "Model", model);
    EdgeAdds(named, id, model, "USED_MODEL", workflowId, relation, source, target);
    EdgeAdds(named.WithEdge(id, model, "USED_MODEL", workflowId), id, model, "USES_MODEL_PROFILE", workflowId,
             relation, source, target);
  }

  lemma AgentAdds(d: Delta, workflowId: string, agent: Fields, relation: string, source: string, target: string)
    ensures HasArc(DefinedAgent(d, workflowId, agent), relation, source, target) <==>
      HasArc(d, relation, source, target) || AgentSays(workflowId, agent, relation, source, target)
  {
    var id := Read(agent, "id");
    if id != "" {
      var defined := Definition(d, workflowId, id, "Agent", DisplayName(agent, id), "DEFINES_AGENT");
      var toolIds, agentIds := StringList(agent, "tool_ids"), StringList(agent, "handoff_agent_ids");
      var tools := Targets(defined, id, toolIds, "Tool", "CAN_USE", workflowId);
      var handoffs := Targets(tools, id, agentIds, "Agent", "CAN_HANDOFF_TO", workflowId);
      DefinitionAdds(d, workflowId, id, "Agent", DisplayName(agent, id), "DEFINES_AGENT", relation, source, target);
      TargetsAdd(defined, id, toolIds, "Tool", "CAN_USE", workflowId, relation, source, target);
      TargetsAdd(tools, id, agentIds, "Agent", "CAN_HANDOFF_TO", workflowId, relation, source, target);
      ModelAdds(handoffs, workflowId, id, Read(agent, "model_profile_id"), relation, source, target);
    }
  }

  lemma {:induction false} AgentsAdd(d: Delta, workflowId: string, agents: seq<Fields>,
                                     relation: string, source: string, target: string)
    ensures HasArc(DefinedAgents(d, workflowId, agents), relation, source, target) <==>
      HasArc(d, relation, source, target) ||
      exists agent :: agent in agents && AgentSays(workflowId, agent, relation, source, target)
  {
    if agents != [] {
      var n := |agents| - 1;
      AgentsAdd(d, workflowId, agents[..n], relation, source, target);
      AgentAdds(DefinedAgents(d, workflowId, agents[..n]), workflowId, agents[n], relation, source, target);
      assert agents == agents[..n] + [agents[n]];
    }
  }

  lemma TaskAdds(d: Delta, workflowId: string, task: Fields, relation: string, source: string, target: string)
    ensures HasArc(DefinedTask(d, workflowId, task), relation, source, target) <==>
      HasArc(d, relation, source, target) || TaskSays(workflowId, task, relation, source, target)
  {
    var id := Read(task, "id");
    if id != "" {
      var defined := Definition(d, workflowId, id, "Task", NameOr(task, id), "DEFINES_TASK");
      var agent := Read(task, "agent_id");
      var named := defined.WithNode(agent, "Agent", agent);
      var given := if agent == "" then defined else named.WithEdge(id, agent, "ASSIGNED_TO", workflowId);
      var toolIds, taskIds := StringList(task, "tool_ids"), StringList(task, "depends_on_task_ids");
      var tools := Targets(given, id, toolIds, "Tool", "USES_TOOL", workflowId);
      DefinitionAdds(d, workflowId, id, "Task", NameOr(task, id), "DEFINES_TASK", relation, source, target);
      EdgeAdds(named, id, agent, "ASSIGNED_TO", workflowId, relation, source, target);
      TargetsAdd(given, id, toolIds, "Tool", "USES_TOOL", workflowId, relation, source, target);
      TargetsAdd(tools, id, taskIds, "Task", "DEPENDS_ON", workflowId, relation, source, target);
    }
  }

  lemma {:induction false} TasksAdd(d: Delta, workflowId: string, tasks: seq<Fields>,
                                    relation: string, source: string, target: string)
    ensures HasArc(DefinedTasks(d, workflowId, tasks), relation, source, target) <==>
      HasArc(d, relation, source, target) ||
      exists task :: task in tasks && TaskSays(workflowId, task, relation, source, target)
  {
    if tasks != [] {
      var n := |tasks| - 1;
      TasksAdd(d, workflowId, tasks[..n], relation, source, target);
      TaskAdds(DefinedTasks(d, workflowId, tasks[..n]), workflowId, tasks[n], relation, source, target);
      assert tasks == tasks[..n] + [tasks[n]];
    }
  }

  ghost predicate WorkflowSays(event: Event, relation: string, source: string, target: string) {
    !Deleted(event) &&
    DefinitionSays(Str(Or(Get(event.payload, "workflow_id"), Text(event.aggregateId))), event.payload,
                   relation, source, target)
  }

  /** The edges of a workflow event are exactly those its definition calls for; a deletion has none. */
  lemma WorkflowEdgesAreTheDefinition(event: Event, relation: string, source: string, target: string)
    ensures HasArc(WorkflowDelta(event), relation, source, target) <==> WorkflowSays(event, relation, source, target)
  {
    var payload := event.payload;
    var id := Str(Or(Get(payload, "workflow_id"), Text(event.aggregateId)));
    var d := EMPTY.WithNode(id, "Workflow", NameOr(payload, id));
    var tools := DefinedTools(d, id, ObjectList(payload, "tools"));
    var agents := DefinedAgents(tools, id, ObjectList(payload, "agents"));
    ToolsAdd(d, id, ObjectList(payload, "tools"), relation, source, target);
    AgentsAdd(tools, id, ObjectList(payload, "agents"), relation, source, target);
    TasksAdd(agents, id, ObjectList(payload, "tasks"), relation, source, target);
  }
}
