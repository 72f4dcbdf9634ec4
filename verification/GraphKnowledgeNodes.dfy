/** Which nodes the events of memories, documents, links and personas bring, and with them every event. */
module GraphKnowledgeNodes {
  import opened GraphPayload
  import opened GraphDelta
  import opened GraphNodes

  // ---------------------------------------------------------------- memories, documents and links

  predicate VisitedNames(node: Fields, project: Projection, x: Node) {
    var own := FirstText([Get(node, "type"), Get(node, "source_record_type"), Text("GraphNode")]);
    Is(project(own), Read(node, "id"), x)
  }

  predicate AnchorNames(anchor: Fields, project: Projection, x: Node) {
    var own := Read(anchor, "type");
    Is(project(if own == "" then "GraphAnchor" else own), Read(anchor, "id"), x)
  }

  ghost predicate ProvenanceNames(event: Event, project: Projection, x: Node) {
    var provenance := Nested(event.payload, "graph_provenance");
    var visited := ObjectList(provenance, "visited_nodes") + ObjectList(provenance, "selected_nodes");
    || Is("GraphWorkingSet",
          FirstText([Get(provenance, "working_set_id"), Get(event.payload, "graph_working_set_id")]), x)
    || (exists node :: node in visited && VisitedNames(node, project, x))
    || (exists anchor :: anchor in ObjectList(provenance, "anchors") && AnchorNames(anchor, project, x))
  }

  ghost predicate MemoryNames(event: Event, project: Projection, x: Node) {
    || (var id := FirstText([Get(event.payload, "memory_id"), Text(event.aggregateId)]);
        x == Called("Memory", id, FirstText([Get(event.payload, "summary"), Text(id)])))
    || (!Deleted(event) && Nested(event.payload, "graph_provenance") != map[]
        && ProvenanceNames(event, project, x))
  }

  lemma OneVisitedNode(d: Delta, memory: string, node: Fields, project: Projection, x: Node)
    ensures HasNode(VisitedNode(d, memory, node, project), x) <==>
      HasNode(d, x) || VisitedNames(node, project, x)
  {
    var own := Read(node, "id");
    FirstOfThree(Get(node, "type"), Get(node, "source_record_type"), Text("GraphNode"));
    var addedKind := project(Str(Or(Or(Get(node, "type"), Get(node, "source_record_type")), Text("GraphNode"))));
    NodeAdds(d, own, addedKind, own, x);
  }

  lemma {:induction false} AllVisitedNodes(d: Delta, memory: string, visited: seq<Fields>, project: Projection,
                                           x: Node)
    ensures HasNode(VisitedNodes(d, memory, visited, project), x) <==>
      HasNode(d, x) || exists node :: node in visited && VisitedNames(node, project, x)
  {
    hide HasNode, VisitedNode, VisitedNames;
    if visited != [] {
      var n := |visited| - 1;
      AllVisitedNodes(d, memory, visited[..n], project, x);
      OneVisitedNode(VisitedNodes(d, memory, visited[..n], project), memory, visited[n], project, x);
      assert visited == visited[..n] + [visited[n]];
    }
  }

  lemma OneAnchor(d: Delta, memory: string, anchor: Fields, project: Projection, x: Node)
    ensures HasNode(Anchor(d, memory, anchor, project), x) <==>
      HasNode(d, x) || AnchorNames(anchor, project, x)
  {
    var own := Read(anchor, "id");
    NodeAdds(d, own, project(OrText(Read(anchor, "type"), "GraphAnchor")), own, x);
  }

  lemma {:induction false} AllAnchors(d: Delta, memory: string, anchors: seq<Fields>, project: Projection,
                                      x: Node)
    ensures HasNode(Anchors(d, memory, anchors, project), x) <==>
      HasNode(d, x) || exists anchor :: anchor in anchors && AnchorNames(anchor, project, x)
  {
    hide HasNode, Anchor, AnchorNames;
    if anchors != [] {
      var n := |anchors| - 1;
      AllAnchors(d, memory, anchors[..n], project, x);
      OneAnchor(Anchors(d, memory, anchors[..n], project), memory, anchors[n], project, x);
      assert anchors == anchors[..n] + [anchors[n]];
    }
  }

  lemma MemoryNodesExactly(event: Event, project: Projection, x: Node)
    ensures HasNode(MemoryDelta(event, project), x) <==> MemoryNames(event, project, x)
  {
    var memory := Str(Or(Get(event.payload, "memory_id"), Text(event.aggregateId)));
    var caption := Str(Or(Get(event.payload, "summary"), Text(memory)));
    FirstOfTwo(Get(event.payload, "memory_id"), Text(event.aggregateId));
    FirstOfTwo(Get(event.payload, "summary"), Text(memory));
    var d := EMPTY.WithNode(memory, "Memory", caption);
    var provenance := Nested(event.payload, "graph_provenance");
    NodeAdds(EMPTY, memory, "Memory", caption, x);
    if provenance != map[] && !Deleted(event) {
      FirstOfTwo(Get(provenance, "working_set_id"), Get(event.payload, "graph_working_set_id"));
      var workingSet := Str(Or(Get(provenance, "working_set_id"), Get(event.payload, "graph_working_set_id")));
      var named := d.WithNode(workingSet, "GraphWorkingSet", workingSet);
      var derived := if workingSet == "" then d else named.WithEdge(memory, workingSet, "DERIVED_FROM_WORKING_SET");
      var visited := ObjectList(provenance, "visited_nodes") + ObjectList(provenance, "selected_nodes");
      NodeAdds(d, workingSet, "GraphWorkingSet", workingSet, x);
      AllVisitedNodes(derived, memory, visited, project, x);
      AllAnchors(VisitedNodes(derived, memory, visited, project), memory, ObjectList(provenance, "anchors"), project,
                 x);
    }
  }

  predicate DocumentNames(event: Event, x: Node) {
    || (var id := FirstText([Get(event.payload, "document_id"), Text(event.aggregateId)]);
        x == Called("Document", id, FirstText([Get(event.payload, "filename"), Text(id)])))
    || Lists("Memory", StringList(event.payload, "memory_ids"), x)
  }

  lemma OneChunk(d: Delta, document: string, memory: string, there: string, back: string, x: Node)
    ensures HasNode(Chunk(d, document, memory, there, back), x) <==>
      HasNode(d, x) || x == Called("Memory", memory, "")
  {
    NodeAdds(d, memory, "Memory", memory, x);
  }

  lemma {:induction false} AllChunks(d: Delta, document: string, memories: seq<string>, there: string, back: string,
                                     x: Node)
    ensures HasNode(Chunks(d, document, memories, there, back), x) <==>
      HasNode(d, x) || Lists("Memory", memories, x)
  {
    hide HasNode, Chunk;
    if memories != [] {
      var n := |memories| - 1;
      AllChunks(d, document, memories[..n], there, back, x);
      OneChunk(Chunks(d, document, memories[..n], there, back), document, memories[n], there, back, x);
      assert memories == memories[..n] + [memories[n]];
    }
  }

  lemma DocumentNodesExactly(event: Event, x: Node)
    ensures HasNode(DocumentDelta(event), x) <==> DocumentNames(event, x)
  {
    var document := Str(Or(Get(event.payload, "document_id"), Text(event.aggregateId)));
    var caption := Str(Or(Get(event.payload, "filename"), Text(document)));
    FirstOfTwo(Get(event.payload, "document_id"), Text(event.aggregateId));
    FirstOfTwo(Get(event.payload, "filename"), Text(document));
    NodeAdds(EMPTY, document, "Document", caption, x);
    AllChunks(EMPTY.WithNode(document, "Document", caption), document, StringList(event.payload, "memory_ids"),
              "HAS_CHUNK", "PART_OF_DOCUMENT", x);
  }

  /** A deletion, too, brings the workflow and the memories of the link. */
  predicate LinkNames(event: Event, x: Node) {
    || Is("Workflow", Read(event.payload, "workflow_id"), x)
    || Lists("Memory", LinkedMemories(event), x)
  }

  lemma OneLinkNode(d: Delta, workflow: string, memory: string, link: string, deleted: bool, x: Node)
    ensures HasNode(OneLink(d, workflow, memory, link, deleted), x) <==>
      HasNode(d, x) || x == Called("Memory", memory, "")
  {
    NodeAdds(d, memory, "Memory", memory, x);
  }

  lemma {:induction false} AllLinked(d: Delta, workflow: string, memories: seq<string>, link: string, deleted: bool,
                                     x: Node)
    ensures HasNode(Linked(d, workflow, memories, link, deleted), x) <==>
      HasNode(d, x) || Lists("Memory", memories, x)
  {
    hide HasNode, OneLink;
    if memories != [] {
      var n := |memories| - 1;
      AllLinked(d, workflow, memories[..n], link, deleted, x);
      OneLinkNode(Linked(d, workflow, memories[..n], link, deleted), workflow, memories[n], link, deleted, x);
      assert memories == memories[..n] + [memories[n]];
    }
  }

  lemma LinkNodesExactly(event: Event, x: Node)
    ensures HasNode(LinkDelta(event), x) <==> LinkNames(event, x)
  {
    var workflow := Read(event.payload, "workflow_id");
    var d := if workflow == "" then EMPTY else EMPTY.WithNode(workflow, "Workflow", workflow);
    NodeAdds(EMPTY, workflow, "Workflow", workflow, x);
    AllLinked(d, workflow, LinkedMemories(event), LinkId(event), Deleted(event), x);
  }

  // ---------------------------------------------------------------- personas

  predicate SourceNames(memories: seq<string>, x: Node) {
    exists memory :: memory in memories && x == Called("SourceMemory", "source_memory:" + memory, memory)
  }

  predicate ItemNames(payload: Fields, x: Node) {
    var item, memory := Read(payload, "item_id"), Read(payload, "source_memory_id");
    && item != ""
    && (|| x == Called("DistillationItem", item,
                       FirstText([Get(payload, "title"), Get(payload, "item_type"), Text(item)]))
        || (memory != "" && x == Called("SourceMemory", "source_memory:" + memory, memory)))
  }

  predicate IsPart(item: Fields, idKey: string, addedKind: string, x: Node) {
    && x.id != "" && x.id == FirstText([Get(item, "id"), Get(item, idKey), Get(item, "name")])
    && x == Called(addedKind, x.id, FirstText([Get(item, "name"), Text(x.id)]))
  }

  predicate PartNames(items: seq<Fields>, idKey: string, addedKind: string, x: Node) {
    exists item :: item in items && IsPart(item, idKey, addedKind, x)
  }

  predicate VersionNames(payload: Fields, x: Node) {
    var version := Read(payload, "persona_version_id");
    version != "" && x == Called("PersonaVersion", version, FirstText([Get(payload, "version"), Text(version)]))
  }

  predicate LineageNames(payload: Fields, x: Node) {
    || Is("DistillationRun", Read(payload, "run_id"), x)
    || VersionNames(payload, x)
    || ItemNames(payload, x)
    || SourceNames(StringList(payload, "source_memory_ids"), x)
  }

  predicate ContentNames(payload: Fields, x: Node) {
    || Lists("Memory", StringList(payload, "memory_ids"), x)
    || PartNames(ObjectList(payload, "tools"), "tool_id", "Tool", x)
    || PartNames(ObjectList(payload, "workflows"), "workflow_id", "Workflow", x)
    || PartNames(ObjectList(payload, "artifacts"), "artifact_id", "Artifact", x)
    || Is("Agent", Read(payload, "agent_id"), x)
    || Is("Conversation", Read(payload, "conversation_id"), x)
  }

  predicate PersonaNames(event: Event, x: Node) {
    var payload := event.payload;
    var persona := FirstText([Get(payload, "persona_id"), Text(event.aggregateId)]);
    && persona != ""
    && (|| x == Called("Persona", persona,
                       FirstText([Get(payload, "persona_name"), Get(payload, "persona_slug"), Text(persona)]))
        || LineageNames(event.payload, x) || ContentNames(event.payload, x))
  }

  lemma OneTarget(d: Delta, persona: string, added: string, addedKind: string, relation: string,
                  x: Node)
    ensures HasNode(PersonaTarget(d, persona, added, addedKind, relation), x) <==>
      HasNode(d, x) || Is(addedKind, added, x)
  {
    NodeAdds(d, added, addedKind, added, x);
  }

  lemma VersionNodes(d: Delta, persona: string, run: string, payload: Fields, x: Node)
    ensures HasNode(PersonaVersion(d, persona, run, payload), x) <==>
      HasNode(d, x) || VersionNames(payload, x)
  {
    var version := Read(payload, "persona_version_id");
    FirstOfTwo(Get(payload, "version"), Text(version));
    NodeAdds(d, version, "PersonaVersion", Str(Or(Get(payload, "version"), Text(version))), x);
  }

  lemma ItemNodes(d: Delta, run: string, payload: Fields, x: Node)
    ensures HasNode(PersonaItem(d, run, payload), x) <==> HasNode(d, x) || ItemNames(payload, x)
  {
    var item, memory := Read(payload, "item_id"), Read(payload, "source_memory_id");
    var caption := Str(Or(Or(Get(payload, "title"), Get(payload, "item_type")), Text(item)));
    FirstOfThree(Get(payload, "title"), Get(payload, "item_type"), Text(item));
    var named := d.WithNode(item, "DistillationItem", caption);
    var extracted := if run == "" then named else named.WithEdge(run, item, "RUN_EXTRACTED_ITEM");
    NodeAdds(d, item, "DistillationItem", caption, x);
    NodeAdds(extracted, SourceNode(memory), "SourceMemory", memory, x);
  }

  lemma OneSource(d: Delta, run: string, memory: string, x: Node)
    ensures HasNode(RunSource(d, run, memory), x) <==>
      HasNode(d, x) || SourceNames([memory], x)
  {
    NodeAdds(d, SourceNode(memory), "SourceMemory", memory, x);
    assert memory in [memory];
  }

  lemma {:induction false} AllSources(d: Delta, run: string, memories: seq<string>, x: Node)
    ensures HasNode(RunSources(d, run, memories), x) <==>
      HasNode(d, x) || SourceNames(memories, x)
  {
    hide HasNode, RunSource;
    if memories != [] {
      var n := |memories| - 1;
      AllSources(d, run, memories[..n], x);
      OneSource(RunSources(d, run, memories[..n]), run, memories[n], x);
      assert memories == memories[..n] + [memories[n]];
    }
  }

  lemma OnePart(d: Delta, persona: string, item: Fields, idKey: string, addedKind: string, relation: string,
                x: Node)
    ensures HasNode(PersonaPart(d, persona, item, idKey, addedKind, relation), x) <==>
      HasNode(d, x) || PartNames([item], idKey, addedKind, x)
  {
    var own := PartId(item, idKey);
    FirstOfThree(Get(item, "id"), Get(item, idKey), Get(item, "name"));
    FirstOfTwo(Get(item, "name"), Text(own));
    NodeAdds(d, own, addedKind, NameOr(item, own), x);
    assert item in [item];
  }

  lemma {:induction false} AllParts(d: Delta, persona: string, items: seq<Fields>, idKey: string, addedKind: string,
                                    relation: string, x: Node)
    ensures HasNode(PersonaParts(d, persona, items, idKey, addedKind, relation), x) <==>
      HasNode(d, x) || PartNames(items, idKey, addedKind, x)
  {
    hide HasNode, PersonaPart;
    if items != [] {
      var n := |items| - 1;
      AllParts(d, persona, items[..n], idKey, addedKind, relation, x);
      OnePart(PersonaParts(d, persona, items[..n], idKey, addedKind, relation), persona, items[n], idKey, addedKind,
              relation, x);
      assert items == items[..n] + [items[n]];
    }
  }

  lemma LineageNodes(d: Delta, persona: string, payload: Fields, x: Node)
    ensures HasNode(PersonaLineage(d, persona, payload), x) <==>
      HasNode(d, x) || LineageNames(payload, x)
  {
    hide HasNode, PersonaTarget, PersonaVersion, PersonaItem, RunSources, ItemNames, SourceNames;
    var run := Read(payload, "run_id");
    var d1 := PersonaTarget(d, persona, run, "DistillationRun", "PERSONA_HAS_DISTILLATION_RUN");
    var d2 := PersonaVersion(d1, persona, run, payload);
    OneTarget(d, persona, run, "DistillationRun", "PERSONA_HAS_DISTILLATION_RUN", x);
    VersionNodes(d1, persona, run, payload, x);
    ItemNodes(d2, run, payload, x);
    AllSources(PersonaItem(d2, run, payload), run, StringList(payload, "source_memory_ids"), x);
  }

  lemma ContentNodes(d: Delta, persona: string, payload: Fields, x: Node)
    ensures HasNode(PersonaContents(d, persona, payload), x) <==>
      HasNode(d, x) || ContentNames(payload, x)
  {
    hide HasNode, Targets, PersonaParts, PersonaTarget, PartNames;
    var memories, tools := StringList(payload, "memory_ids"), ObjectList(payload, "tools");
    var workflows, artifacts := ObjectList(payload, "workflows"), ObjectList(payload, "artifacts");
    var d1 := Targets(d, persona, memories, "Memory", "PERSONA_PUBLISHED_MEMORY", "");
    var d2 := PersonaParts(d1, persona, tools, "tool_id", "Tool", "PERSONA_USES_TOOL");
    var d3 := PersonaParts(d2, persona, workflows, "workflow_id", "Workflow", "PERSONA_FOLLOWS_WORKFLOW");
    var d4 := PersonaParts(d3, persona, artifacts, "artifact_id", "Artifact", "PERSONA_PRODUCES_ARTIFACT");
    var d5 := PersonaTarget(d4, persona, Read(payload, "agent_id"), "Agent", "PERSONA_MATERIALIZED_AS_AGENT");
    TargetNodes(d, persona, memories, "Memory", "PERSONA_PUBLISHED_MEMORY", "", x);
    AllParts(d1, persona, tools, "tool_id", "Tool", "PERSONA_USES_TOOL", x);
    AllParts(d2, persona, workflows, "workflow_id", "Workflow", "PERSONA_FOLLOWS_WORKFLOW", x);
    AllParts(d3, persona, artifacts, "artifact_id", "Artifact", "PERSONA_PRODUCES_ARTIFACT", x);
    OneTarget(d4, persona, Read(payload, "agent_id"), "Agent", "PERSONA_MATERIALIZED_AS_AGENT", x);
    OneTarget(d5, persona, Read(payload, "conversation_id"), "Conversation", "PERSONA_INVOKED_IN_CONVERSATION",
              x);
  }

  lemma PersonaNodesExactly(event: Event, x: Node)
    ensures HasNode(PersonaDelta(event), x) <==> PersonaNames(event, x)
  {
    var payload := event.payload;
    var persona := Str(Or(Get(payload, "persona_id"), Text(event.aggregateId)));
    FirstOfTwo(Get(payload, "persona_id"), Text(event.aggregateId));
    if persona != "" {
      var caption := Str(Or(Or(Get(payload, "persona_name"), Get(payload, "persona_slug")), Text(persona)));
      FirstOfThree(Get(payload, "persona_name"), Get(payload, "persona_slug"), Text(persona));
      var named := EMPTY.WithNode(persona, "Persona", caption);
      NodeAdds(EMPTY, persona, "Persona", caption, x);
      LineageNodes(named, persona, payload, x);
      ContentNodes(PersonaLineage(named, persona, payload), persona, payload, x);
    }
  }

  // ---------------------------------------------------------------- every event

  /** The records an event names, by the branch that its types select. */
  ghost predicate Names(event: Event, project: Projection, x: Node) {
    var t := event.eventType;
    if StartsWith(t, "workflow.") then WorkflowNames(event, x)
    else if IsStep(event) then StepNames(event, x)
    else if StartsWith(t, "execution.") then ExecutionNames(event, x)
    else if IsExecutionDetail(t) then DetailNames(event, x)
    else if StartsWith(t, "memory.") then MemoryNames(event, project, x)
    else if StartsWith(t, "document_memory_collection.") then DocumentNames(event, x)
    else if StartsWith(t, "workflow_memory_link.") then LinkNames(event, x)
    else IsPersona(event) && PersonaNames(event, x)
  }

  /** Outside the device branch, the nodes of an event's delta are exactly the records the event names. */
  lemma NodesAreWhatTheEventNames(event: Event, project: Projection, deviceDelta: Delta, x: Node)
    requires !StartsWith(event.eventType, "physical.device.")
    ensures HasNode(DeltaOf(event, project, deviceDelta), x) <==> Names(event, project, x)
  {
    hide WorkflowNames, StepNames, ExecutionNames, DetailNames, MemoryNames, DocumentNames, LinkNames, PersonaNames;
    hide WorkflowDelta, StepDelta, ExecutionDelta, DetailDelta, MemoryDelta, DocumentDelta, LinkDelta, PersonaDelta;
    var t := event.eventType;
    if StartsWith(t, "workflow.") {
      WorkflowNodesExactly(event, x);
    } else if IsStep(event) {
      StepNodesExactly(event, x);
    } else if StartsWith(t, "execution.") {
      ExecutionNodesExactly(event, x);
    } else if IsExecutionDetail(t) {
      DetailNodesExactly(event, x);
    } else if StartsWith(t, "memory.") {
      MemoryNodesExactly(event, project, x);
    } else if StartsWith(t, "document_memory_collection.") {
      DocumentNodesExactly(event, x);
    } else if StartsWith(t, "workflow_memory_link.") {
      LinkNodesExactly(event, x);
    } else if IsPersona(event) {
      PersonaNodesExactly(event, x);
    }
  }
}
