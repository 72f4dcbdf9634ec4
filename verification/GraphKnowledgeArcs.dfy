/**
 * What the edges of the deltas of memories, documents, links and personas say, and with them the
 * edges of every event.
 */
module GraphKnowledgeArcs {
  import opened GraphPayload
  import opened GraphDelta
  import opened GraphArcs
  import RunArcs = GraphRunArcs
  import GraphLinks

  // ---------------------------------------------------------------- memories and documents

  /** Some listed object has this id. */
  predicate ListsId(items: seq<Fields>, id: string) {
    id != "" && exists item :: item in items && Read(item, "id") == id
  }

  predicate MemorySays(event: Event, relation: string, source: string, target: string) {
    var payload := event.payload;
    var provenance := Nested(payload, "graph_provenance");
    && !Deleted(event) && provenance != map[]
    && source == Str(Or(Get(payload, "memory_id"), Text(event.aggregateId)))
    && (|| (relation == "DERIVED_FROM_WORKING_SET" && target != ""
            && target == Str(Or(Get(provenance, "working_set_id"), Get(payload, "graph_working_set_id"))))
        || (relation == "DERIVED_FROM_GRAPH_NODE"
            && ListsId(ObjectList(provenance, "visited_nodes") + ObjectList(provenance, "selected_nodes"), target))
        || (relation == "DERIVED_FROM_GRAPH_ANCHOR" && ListsId(ObjectList(provenance, "anchors"), target)))
  }

  lemma NothingListed(id: string)
    ensures !ListsId([], id)
  {
  }

  lemma OneMoreListed(items: seq<Fields>, last: Fields, id: string)
    ensures ListsId(items + [last], id) <==> ListsId(items, id) || (id != "" && Read(last, "id") == id)
  {
    if id != "" && Read(last, "id") == id {
      assert last in items + [last];
    }
    if item :| item in items && Read(item, "id") == id {
      assert item in items + [last];
    }
  }

  lemma VisitedNodeAdds(d: Delta, memory: string, node: Fields, project: Projection,
                        relation: string, source: string, target: string)
    ensures HasArc(VisitedNode(d, memory, node, project), relation, source, target) <==>
      || HasArc(d, relation, source, target)
      || (target != "" && relation == "DERIVED_FROM_GRAPH_NODE" && source == memory && Read(node, "id") == target)
  {
    var id := Read(node, "id");
    var kind := Str(Or(Or(Get(node, "type"), Get(node, "source_record_type")), Text("GraphNode")));
    EdgeAdds(d.WithNode(id, project(kind), id), memory, id, "DERIVED_FROM_GRAPH_NODE", "", relation, source, target);
  }

  lemma {:induction false} VisitedAdd(d: Delta, memory: string, visited: seq<Fields>, project: Projection,
                                      relation: string, source: string, target: string)
    ensures HasArc(VisitedNodes(d, memory, visited, project), relation, source, target) <==>
      || HasArc(d, relation, source, target)
      || (relation == "DERIVED_FROM_GRAPH_NODE" && source == memory && ListsId(visited, target))
  {
    NothingListed(target);
    hide HasArc, VisitedNode, ListsId;
    if visited != [] {
      var earlier, node := visited[..|visited| - 1], visited[|visited| - 1];
      VisitedAdd(d, memory, earlier, project, relation, source, target);
      assert visited == earlier + [node];
      OneMoreListed(earlier, node, target);
      VisitedNodeAdds(VisitedNodes(d, memory, earlier, project), memory, node, project, relation, source, target);
    }
  }

  lemma AnchorAdds(d: Delta, memory: string, anchor: Fields, project: Projection,
                   relation: string, source: string, target: string)
    ensures HasArc(Anchor(d, memory, anchor, project), relation, source, target) <==>
      || HasArc(d, relation, source, target)
      || (target != "" && relation == "DERIVED_FROM_GRAPH_ANCHOR" && source == memory && Read(anchor, "id") == target)
  {
    var id := Read(anchor, "id");
    EdgeAdds(d.WithNode(id, project(OrText(Read(anchor, "type"), "GraphAnchor")), id), memory, id,
             "DERIVED_FROM_GRAPH_ANCHOR", "", relation, source, target);
  }

  lemma {:induction false} AnchorsAdd(d: Delta, memory: string, anchors: seq<Fields>, project: Projection,
                                      relation: string, source: string, target: string)
    ensures HasArc(Anchors(d, memory, anchors, project), relation, source, target) <==>
      || HasArc(d, relation, source, target)
      || (relation == "DERIVED_FROM_GRAPH_ANCHOR" && source == memory && ListsId(anchors, target))
  {
    NothingListed(target);
    hide HasArc, Anchor, ListsId;
    if anchors != [] {
      var earlier, anchor := anchors[..|anchors| - 1], anchors[|anchors| - 1];
      AnchorsAdd(d, memory, earlier, project, relation, source, target);
      assert anchors == earlier + [anchor];
      OneMoreListed(earlier, anchor, target);
      AnchorAdds(Anchors(d, memory, earlier, project), memory, anchor, project, relation, source, target);
    }
  }

  lemma MemoryEdgesExactly(event: Event, project: Projection, relation: string, source: string, target: string)
    ensures HasArc(MemoryDelta(event, project), relation, source, target) <==>
      MemorySays(event, relation, source, target)
  {
    var memory := Str(Or(Get(event.payload, "memory_id"), Text(event.aggregateId)));
    var d := EMPTY.WithNode(memory, "Memory", Str(Or(Get(event.payload, "summary"), Text(memory))));
    var provenance := Nested(event.payload, "graph_provenance");
    if provenance != map[] && !Deleted(event) {
      var workingSet := Str(Or(Get(provenance, "working_set_id"), Get(event.payload, "graph_working_set_id")));
      var named := d.WithNode(workingSet, "GraphWorkingSet", workingSet);
      EdgeAdds(named, memory, workingSet, "DERIVED_FROM_WORKING_SET", "", relation, source, target);
      var derived := if workingSet == "" then d else named.WithEdge(memory, workingSet, "DERIVED_FROM_WORKING_SET");
      var visited := ObjectList(provenance, "visited_nodes") + ObjectList(provenance, "selected_nodes");
      VisitedAdd(derived, memory, visited, project, relation, source, target);
      AnchorsAdd(VisitedNodes(derived, memory, visited, project), memory, ObjectList(provenance, "anchors"), project,
                 relation, source, target);
    }
  }

  function DocumentId(event: Event): string { Str(Or(Get(event.payload, "document_id"), Text(event.aggregateId))) }

  /** Edges `there` from the document to each memory, and `back` from each memory to the document. */
  predicate BothWays(document: string, memories: seq<string>, there: string, back: string,
                     relation: string, source: string, target: string) {
    || (relation == there && source == document && target in memories)
    || (relation == back && source in memories && target == document)
  }

  lemma ChunkAdds(d: Delta, document: string, memory: string, there: string, back: string,
                  relation: string, source: string, target: string)
    ensures HasArc(Chunk(d, document, memory, there, back), relation, source, target) <==>
      HasArc(d, relation, source, target) || BothWays(document, [memory], there, back, relation, source, target)
  {
    var named := d.WithNode(memory, "Memory", memory);
    EdgeAdds(named, document, memory, there, "", relation, source, target);
    EdgeAdds(named.WithEdge(document, memory, there), memory, document, back, "", relation, source, target);
  }

  lemma {:induction false} ChunksAdd(d: Delta, document: string, memories: seq<string>, there: string, back: string,
                                     relation: string, source: string, target: string)
    ensures HasArc(Chunks(d, document, memories, there, back), relation, source, target) <==>
      HasArc(d, relation, source, target) || BothWays(document, memories, there, back, relation, source, target)
  {
    hide HasArc, Chunk;
    if memories != [] {
      var earlier, memory := memories[..|memories| - 1], memories[|memories| - 1];
      ChunksAdd(d, document, earlier, there, back, relation, source, target);
      assert memories == earlier + [memory];
      ChunkAdds(Chunks(d, document, earlier, there, back), document, memory, there, back, relation, source, target);
    }
  }

  predicate DocumentSays(event: Event, relation: string, source: string, target: string) {
    BothWays(DocumentId(event), StringList(event.payload, "memory_ids"), "HAS_CHUNK", "PART_OF_DOCUMENT",
             relation, source, target)
  }

  lemma DocumentEdgesExactly(event: Event, relation: string, source: string, target: string)
    ensures HasArc(DocumentDelta(event), relation, source, target) <==> DocumentSays(event, relation, source, target)
  {
    var document := DocumentId(event);
    var d := EMPTY.WithNode(document, "Document", Str(Or(Get(event.payload, "filename"), Text(document))));
    ChunksAdd(d, document, StringList(event.payload, "memory_ids"), "HAS_CHUNK", "PART_OF_DOCUMENT",
              relation, source, target);
  }

  predicate LinkSays(event: Event, relation: string, source: string, target: string) {
    && !Deleted(event) && source != "" && source == Read(event.payload, "workflow_id")
    && relation == "LINKS_MEMORY" && target in LinkedMemories(event)
  }

  lemma LinkEdgesExactly(event: Event, relation: string, source: string, target: string)
    ensures HasArc(LinkDelta(event), relation, source, target) <==> LinkSays(event, relation, source, target)
  {
    hide LinkDelta, LinkedMemories, LinkId, GraphLinks.LinkEdgeId;
    GraphLinks.LinkDeltaLists(event);
    var edges, memories := LinkDelta(event).edges, LinkedMemories(event);
    if LinkSays(event, relation, source, target) {
      var i :| 0 <= i < |memories| && memories[i] == target;
      assert edges[i] in edges && edges[i].target == target;
    }
    if e :| e in edges && e.relation == relation && e.source == source && e.target == target {
      var i :| 0 <= i < |edges| && edges[i] == e;
      assert e.target == memories[i];
    }
  }

  // ---------------------------------------------------------------- personas

  predicate VersionSays(persona: string, run: string, payload: Fields,
                        relation: string, source: string, target: string) {
    && target != "" && target == Read(payload, "persona_version_id")
    && ((relation == "PERSONA_HAS_VERSION" && source == persona)
        || (relation == "RUN_PRODUCED_VERSION" && run != "" && source == run))
  }

  predicate ItemSays(run: string, payload: Fields, relation: string, source: string, target: string) {
    var item, memory := Read(payload, "item_id"), Read(payload, "source_memory_id");
    && item != ""
    && ((relation == "RUN_EXTRACTED_ITEM" && run != "" && source == run && target == item)
        || (relation == "ITEM_DERIVED_FROM_MEMORY" && memory != "" && source == item && target == SourceNode(memory)))
  }

  predicate SourceSays(run: string, memories: seq<string>, relation: string, source: string, target: string) {
    && run != "" && relation == "RUN_USED_SOURCE_MEMORY" && source == run
    && exists memory :: memory in memories && target == SourceNode(memory)
  }

  predicate ListsPart(items: seq<Fields>, idKey: string, id: string) {
    id != "" && exists item :: item in items && PartId(item, idKey) == id
  }

  predicate ContentSays(persona: string, payload: Fields, relation: string, source: string, target: string) {
    && source == persona
    && (|| (relation == "PERSONA_PUBLISHED_MEMORY" && target in StringList(payload, "memory_ids"))
        || (relation == "PERSONA_USES_TOOL" && ListsPart(ObjectList(payload, "tools"), "tool_id", target))
        || (relation == "PERSONA_FOLLOWS_WORKFLOW"
            && ListsPart(ObjectList(payload, "workflows"), "workflow_id", target))
        || (relation == "PERSONA_PRODUCES_ARTIFACT"
            && ListsPart(ObjectList(payload, "artifacts"), "artifact_id", target))
        || (relation == "PERSONA_MATERIALIZED_AS_AGENT" && target != "" && target == Read(payload, "agent_id"))
        || (relation == "PERSONA_INVOKED_IN_CONVERSATION" && target != ""
            && target == Read(payload, "conversation_id")))
  }

  predicate PersonaSays(event: Event, relation: string, source: string, target: string) {
    var payload := event.payload;
    var persona, run := Str(Or(Get(payload, "persona_id"), Text(event.aggregateId))), Read(payload, "run_id");
    && persona != ""
    && (|| (relation == "PERSONA_HAS_DISTILLATION_RUN" && run != "" && source == persona && target == run)
        || VersionSays(persona, run, payload, relation, source, target)
        || ItemSays(run, payload, relation, source, target)
        || SourceSays(run, StringList(payload, "source_memory_ids"), relation, source, target)
        || ContentSays(persona, payload, relation, source, target))
  }

  lemma TargetAdds(d: Delta, persona: string, id: string, kind: string, added: string,
                   relation: string, source: string, target: string)
    ensures HasArc(PersonaTarget(d, persona, id, kind, added), relation, source, target) <==>
      HasArc(d, relation, source, target) || (id != "" && relation == added && source == persona && target == id)
  {
    EdgeAdds(d.WithNode(id, kind, id), persona, id, added, "", relation, source, target);
  }

  lemma VersionAdds(d: Delta, persona: string, run: string, payload: Fields,
                    relation: string, source: string, target: string)
    ensures HasArc(PersonaVersion(d, persona, run, payload), relation, source, target) <==>
      HasArc(d, relation, source, target) || VersionSays(persona, run, payload, relation, source, target)
  {
    var version := Read(payload, "persona_version_id");
    var named := d.WithNode(version, "PersonaVersion", Str(Or(Get(payload, "version"), Text(version))));
    EdgeAdds(named, persona, version, "PERSONA_HAS_VERSION", "", relation, source, target);
    EdgeAdds(named.WithEdge(persona, version, "PERSONA_HAS_VERSION"), run, version, "RUN_PRODUCED_VERSION", "",
             relation, source, target);
  }

  lemma ItemAdds(d: Delta, run: string, payload: Fields, relation: string, source: string, target: string)
    ensures HasArc(PersonaItem(d, run, payload), relation, source, target) <==>
      HasArc(d, relation, source, target) || ItemSays(run, payload, relation, source, target)
  {
    var item, memory := Read(payload, "item_id"), Read(payload, "source_memory_id");
    var caption := Str(Or(Or(Get(payload, "title"), Get(payload, "item_type")), Text(item)));
    var named := d.WithNode(item, "DistillationItem", caption);
    EdgeAdds(named, run, item, "RUN_EXTRACTED_ITEM", "", relation, source, target);
    var extracted := if run == "" then named else named.WithEdge(run, item, "RUN_EXTRACTED_ITEM");
    EdgeAdds(extracted.WithNode(SourceNode(memory), "SourceMemory", memory), item, SourceNode(memory),
             "ITEM_DERIVED_FROM_MEMORY", "", relation, source, target);
  }

  lemma SourceAdds(d: Delta, run: string, memory: string, relation: string, source: string, target: string)
    ensures HasArc(RunSource(d, run, memory), relation, source, target) <==>
      HasArc(d, relation, source, target) || SourceSays(run, [memory], relation, source, target)
  {
    EdgeAdds(d.WithNode(SourceNode(memory), "SourceMemory", memory), run, SourceNode(memory),
             "RUN_USED_SOURCE_MEMORY", "", relation, source, target);
    assert memory in [memory];
  }

  lemma {:induction false} SourcesAdd(d: Delta, run: string, memories: seq<string>,
                                      relation: string, source: string, target: string)
    ensures HasArc(RunSources(d, run, memories), relation, source, target) <==>
      HasArc(d, relation, source, target) || SourceSays(run, memories, relation, source, target)
  {
    hide HasArc, RunSource;
    if memories != [] {
      var earlier, memory := memories[..|memories| - 1], memories[|memories| - 1];
      SourcesAdd(d, run, earlier, relation, source, target);
      assert memories == earlier + [memory];
      SourceAdds(RunSources(d, run, earlier), run, memory, relation, source, target);
    }
  }

  lemma PartAdds(d: Delta, persona: string, item: Fields, idKey: string, kind: string, added: string,
                 relation: string, source: string, target: string)
    ensures HasArc(PersonaPart(d, persona, item, idKey, kind, added), relation, source, target) <==>
      || HasArc(d, relation, source, target)
      || (target != "" && relation == added && source == persona && PartId(item, idKey) == target)
  {
    var id := PartId(item, idKey);
    EdgeAdds(d.WithNode(id, kind, NameOr(item, id)), persona, id, added, "", relation, source, target);
  }

  lemma OneMorePart(items: seq<Fields>, last: Fields, idKey: string, id: string)
    ensures ListsPart(items + [last], idKey, id) <==>
      ListsPart(items, idKey, id) || (id != "" && PartId(last, idKey) == id)
    ensures !ListsPart([], idKey, id)
  {
    if id != "" && PartId(last, idKey) == id {
      assert last in items + [last];
    }
    if item :| item in items && PartId(item, idKey) == id {
      assert item in items + [last];
    }
  }

  lemma {:induction false} PartsAdd(d: Delta, persona: string, items: seq<Fields>, idKey: string, kind: string,
                                    added: string, relation: string, source: string, target: string)
    ensures HasArc(PersonaParts(d, persona, items, idKey, kind, added), relation, source, target) <==>
      HasArc(d, relation, source, target) || (relation == added && source == persona && ListsPart(items, idKey, target))
  {
    hide HasArc, PersonaPart, ListsPart;
    if items == [] {
      OneMorePart([], map[], idKey, target);
    } else {
      var earlier, item := items[..|items| - 1], items[|items| - 1];
      PartsAdd(d, persona, earlier, idKey, kind, added, relation, source, target);
      assert items == earlier + [item];
      OneMorePart(earlier, item, idKey, target);
      PartAdds(PersonaParts(d, persona, earlier, idKey, kind, added), persona, item, idKey, kind, added,
               relation, source, target);
    }
  }

  lemma ContentsAdd(d: Delta, persona: string, payload: Fields, relation: string, source: string, target: string)
    ensures HasArc(PersonaContents(d, persona, payload), relation, source, target) <==>
      HasArc(d, relation, source, target) || ContentSays(persona, payload, relation, source, target)
  {
    var d1 := Targets(d, persona, StringList(payload, "memory_ids"), "Memory", "PERSONA_PUBLISHED_MEMORY", "");
    TargetsAdd(d, persona, StringList(payload, "memory_ids"), "Memory", "PERSONA_PUBLISHED_MEMORY", "",
               relation, source, target);
    var d2 := PersonaParts(d1, persona, ObjectList(payload, "tools"), "tool_id", "Tool", "PERSONA_USES_TOOL");
    PartsAdd(d1, persona, ObjectList(payload, "tools"), "tool_id", "Tool", "PERSONA_USES_TOOL",
             relation, source, target);
    var d3 := PersonaParts(d2, persona, ObjectList(payload, "workflows"), "workflow_id", "Workflow",
                           "PERSONA_FOLLOWS_WORKFLOW");
    PartsAdd(d2, persona, ObjectList(payload, "workflows"), "workflow_id", "Workflow", "PERSONA_FOLLOWS_WORKFLOW",
             relation, source, target);
    var d4 := PersonaParts(d3, persona, ObjectList(payload, "artifacts"), "artifact_id", "Artifact",
                           "PERSONA_PRODUCES_ARTIFACT");
    PartsAdd(d3, persona, ObjectList(payload, "artifacts"), "artifact_id", "Artifact", "PERSONA_PRODUCES_ARTIFACT",
             relation, source, target);
    var d5 := PersonaTarget(d4, persona, Read(payload, "agent_id"), "Agent", "PERSONA_MATERIALIZED_AS_AGENT");
    TargetAdds(d4, persona, Read(payload, "agent_id"), "Agent", "PERSONA_MATERIALIZED_AS_AGENT",
               relation, source, target);
    TargetAdds(d5, persona, Read(payload, "conversation_id"), "Conversation", "PERSONA_INVOKED_IN_CONVERSATION",
               relation, source, target);
  }

  lemma LineageAdds(d: Delta, persona: string, payload: Fields, relation: string, source: string, target: string)
    ensures var run := Read(payload, "run_id");
      HasArc(PersonaLineage(d, persona, payload), relation, source, target) <==>
      || HasArc(d, relation, source, target)
      || (relation == "PERSONA_HAS_DISTILLATION_RUN" && run != "" && source == persona && target == run)
      || VersionSays(persona, run, payload, relation, source, target)
      || ItemSays(run, payload, relation, source, target)
      || SourceSays(run, StringList(payload, "source_memory_ids"), relation, source, target)
  {
    var run := Read(payload, "run_id");
    var d1 := PersonaTarget(d, persona, run, "DistillationRun", "PERSONA_HAS_DISTILLATION_RUN");
    TargetAdds(d, persona, run, "DistillationRun", "PERSONA_HAS_DISTILLATION_RUN", relation, source, target);
    VersionAdds(d1, persona, run, payload, relation, source, target);
    var d2 := PersonaVersion(d1, persona, run, payload);
    ItemAdds(d2, run, payload, relation, source, target);
    SourcesAdd(PersonaItem(d2, run, payload), run, StringList(payload, "source_memory_ids"), relation, source, target);
  }

  /** The edges of a persona event are exactly those its fields call for. */
  lemma PersonaEdgesExactly(event: Event, relation: string, source: string, target: string)
    ensures HasArc(PersonaDelta(event), relation, source, target) <==> PersonaSays(event, relation, source, target)
  {
    var payload := event.payload;
    var persona := Str(Or(Get(payload, "persona_id"), Text(event.aggregateId)));
    if persona != "" {
      var caption := Str(Or(Or(Get(payload, "persona_name"), Get(payload, "persona_slug")), Text(persona)));
      var named := EMPTY.WithNode(persona, "Persona", caption);
      LineageAdds(named, persona, payload, relation, source, target);
      ContentsAdd(PersonaLineage(named, persona, payload), persona, payload, relation, source, target);
    }
  }

  // ---------------------------------------------------------------- every event

  /** What an event says about its records, by the branch that its types select. */
  ghost predicate Says(event: Event, relation: string, source: string, target: string) {
    var t := event.eventType;
    if StartsWith(t, "workflow.") then WorkflowSays(event, relation, source, target)
    else if IsStep(event) then RunArcs.StepSays(event, relation, source, target)
    else if StartsWith(t, "execution.") then RunArcs.ExecutionSays(event, relation, source, target)
    else if IsExecutionDetail(t) then RunArcs.DetailSays(event, relation, source, target)
    else if StartsWith(t, "memory.") then MemorySays(event, relation, source, target)
    else if StartsWith(t, "document_memory_collection.") then DocumentSays(event, relation, source, target)
    else if StartsWith(t, "workflow_memory_link.") then LinkSays(event, relation, source, target)
    else IsPersona(event) && PersonaSays(event, relation, source, target)
  }

  /** Outside the device branch, the edges of an event's delta are exactly those the event calls for. */
  lemma EdgesAreWhatTheEventSays(event: Event, project: Projection, deviceDelta: Delta,
                                 relation: string, source: string, target: string)
    requires !StartsWith(event.eventType, "physical.device.")
    ensures HasArc(DeltaOf(event, project, deviceDelta), relation, source, target) <==>
      Says(event, relation, source, target)
  {
    var t := event.eventType;
    if StartsWith(t, "workflow.") {
      WorkflowEdgesAreTheDefinition(event, relation, source, target);
    } else if IsStep(event) {
      RunArcs.StepEdgesExactly(event, relation, source, target);
    } else if StartsWith(t, "execution.") {
      RunArcs.ExecutionEdgesExactly(event, relation, source, target);
    } else if IsExecutionDetail(t) {
      RunArcs.DetailEdgesExactly(event, relation, source, target);
    } else if StartsWith(t, "memory.") {
      MemoryEdgesExactly(event, project, relation, source, target);
    } else if StartsWith(t, "document_memory_collection.") {
      DocumentEdgesExactly(event, relation, source, target);
    } else if StartsWith(t, "workflow_memory_link.") {
      LinkEdgesExactly(event, relation, source, target);
    } else if IsPersona(event) {
      PersonaEdgesExactly(event, relation, source, target);
    }
  }
}
