/**
 * What the deltas of workflow-memory links do to a graph that applies them: deleting a link takes
 * back the edges that an update of the same link put there, and nothing else.
 */
module GraphLinks {
  import opened Wrappers
  import opened GraphPayload
  import opened GraphDelta

  /** The edges of a graph, by id. */
  type Graph = map<string, Edge>

  function Upserted(g: Graph, edges: seq<Edge>): Graph {
    if edges == [] then g
    else
      var edge := edges[|edges| - 1];
      Upserted(g, edges[..|edges| - 1])[edge.id := edge]
  }

  function Removed(g: Graph, ids: seq<string>): Graph {
    map id | id in g && id !in ids :: g[id]
  }

  function Apply(g: Graph, d: Delta): Graph {
    Removed(Upserted(g, d.edges), d.removed)
  }

  /** A delta event of a workflow-memory link. */
  predicate IsLink(event: Event) {
    StartsWith(event.eventType, "workflow_memory_link.") && !IsStep(event)
  }

  lemma OtherPrefix(s: string, own: string, other: string, i: nat)
    requires StartsWith(s, own) && i < |own| && i < |other| && own[i] != other[i]
    ensures !StartsWith(s, other)
  {
    assert s[i] == own[i];
  }

  lemma NoEarlierBranch(t: string)
    requires StartsWith(t, "workflow_memory_link.")
    ensures !StartsWith(t, "workflow.") && !StartsWith(t, "execution.") && !IsExecutionDetail(t)
    ensures !StartsWith(t, "memory.") && !StartsWith(t, "document_memory_collection.")
  {
    var own := "workflow_memory_link.";
    OtherPrefix(t, own, "workflow.", 8);
    OtherPrefix(t, own, "execution.", 0);
    OtherPrefix(t, own, "approval.", 0);
    OtherPrefix(t, own, "artifact.", 0);
    OtherPrefix(t, own, "container.", 0);
    OtherPrefix(t, own, "context.", 0);
    OtherPrefix(t, own, "llm.", 0);
    OtherPrefix(t, own, "monitor.", 0);
    OtherPrefix(t, own, "runtime.", 0);
    OtherPrefix(t, own, "token.", 0);
    OtherPrefix(t, own, "tool.call.", 0);
    OtherPrefix(t, own, "memory.", 0);
    OtherPrefix(t, own, "document_memory_collection.", 0);
  }

  lemma LinkEventsTakeTheirBranch(event: Event, project: Projection, deviceDelta: Delta)
    requires IsLink(event)
    ensures DeltaOf(event, project, deviceDelta) == LinkDelta(event)
  {
    NoEarlierBranch(event.eventType);
  }

  function LinkEdgeId(workflow: string, memory: string, link: string): string {
    RelationshipId(workflow, memory, "LINKS_MEMORY", link)
  }

  function LinkEdge(workflow: string, memory: string, link: string): Edge {
    Edge(LinkEdgeId(workflow, memory, link), workflow, memory, "LINKS_MEMORY")
  }

  function LinkEdges(workflow: string, memories: seq<string>, link: string): seq<Edge> {
    seq(|memories|, i requires 0 <= i < |memories| => LinkEdge(workflow, memories[i], link))
  }

  function LinkEdgeIds(workflow: string, memories: seq<string>, link: string): seq<string> {
    seq(|memories|, i requires 0 <= i < |memories| => LinkEdgeId(workflow, memories[i], link))
  }

  lemma {:induction false} LinkedEdges(d: Delta, workflow: string, memories: seq<string>, link: string)
    requires workflow != ""
    ensures var r := Linked(d, workflow, memories, link, false);
      r.edges == d.edges + LinkEdges(workflow, memories, link) && r.removed == d.removed
  {
    if memories != [] {
      var n := |memories| - 1;
      LinkedEdges(d, workflow, memories[..n], link);
      assert LinkEdges(workflow, memories, link) ==
             LinkEdges(workflow, memories[..n], link) + [LinkEdge(workflow, memories[n], link)];
    }
  }

  lemma {:induction false} LinkedRemovals(d: Delta, workflow: string, memories: seq<string>, link: string)
    requires workflow != ""
    ensures var r := Linked(d, workflow, memories, link, true);
      r.edges == d.edges && r.removed == d.removed + LinkEdgeIds(workflow, memories, link)
  {
    if memories != [] {
      var n := |memories| - 1;
      LinkedRemovals(d, workflow, memories[..n], link);
      assert LinkEdgeIds(workflow, memories, link) ==
             LinkEdgeIds(workflow, memories[..n], link) + [LinkEdgeId(workflow, memories[n], link)];
    }
  }

  lemma {:induction false} NothingLinkedWithoutWorkflow(d: Delta, memories: seq<string>, link: string, deleted: bool)
    ensures var r := Linked(d, "", memories, link, deleted); r.edges == d.edges && r.removed == d.removed
  {
    if memories != [] {
      NothingLinkedWithoutWorkflow(d, memories[..|memories| - 1], link, deleted);
    }
  }

  /** A link event upserts, or removes, exactly one edge for each memory it lists. */
  lemma LinkDeltaLists(event: Event)
    ensures var workflow := Read(event.payload, "workflow_id");
      var memories, link, d := LinkedMemories(event), LinkId(event), LinkDelta(event);
      && d.edges == (if workflow == "" || Deleted(event) then [] else LinkEdges(workflow, memories, link))
      && d.removed == (if workflow != "" && Deleted(event) then LinkEdgeIds(workflow, memories, link) else [])
  {
    var workflow := Read(event.payload, "workflow_id");
    if workflow == "" {
      NothingLinkedWithoutWorkflow(EMPTY, LinkedMemories(event), LinkId(event), Deleted(event));
    } else {
      var d := EMPTY.WithNode(workflow, "Workflow", workflow);
      LinkedEdges(d, workflow, LinkedMemories(event), LinkId(event));
      LinkedRemovals(d, workflow, LinkedMemories(event), LinkId(event));
    }
  }

  lemma {:induction false} UpsertedAt(g: Graph, edges: seq<Edge>, id: string)
    ensures (forall e :: e in edges ==> e.id != id) ==> (id in Upserted(g, edges) <==> id in g)
    ensures (forall e :: e in edges ==> e.id != id) && id in g ==> Upserted(g, edges)[id] == g[id]
    ensures (exists e :: e in edges && e.id == id) ==> id in Upserted(g, edges)
  {
    if edges != [] {
      UpsertedAt(g, edges[..|edges| - 1], id);
    }
  }

  lemma UpsertsVanish(g: Graph, edges: seq<Edge>, ids: seq<string>)
    requires |edges| == |ids| && forall i :: 0 <= i < |ids| ==> edges[i].id == ids[i]
    ensures Removed(Upserted(g, edges), ids) == Removed(g, ids)
  {
    forall id | id !in ids
      ensures id in Upserted(g, edges) <==> id in g
      ensures id in g ==> Upserted(g, edges)[id] == g[id]
    {
      forall e | e in edges
        ensures e.id != id
      {
        var i :| 0 <= i < |edges| && edges[i] == e;
        assert ids[i] in ids;
      }
      UpsertedAt(g, edges, id);
    }
  }

  lemma RemovalIsIdempotent(g: Graph, ids: seq<string>)
    ensures Removed(Removed(g, ids), ids) == Removed(g, ids) && Removed(g, []) == g
  {
    assert forall id :: id in Removed(g, []) <==> id in g;
  }

  predicate SameLink(a: Event, b: Event) {
    && Read(a.payload, "workflow_id") == Read(b.payload, "workflow_id")
    && LinkedMemories(a) == LinkedMemories(b) && LinkId(a) == LinkId(b)
  }

  /** The edge ids of a link; it has none without a workflow. */
  function OwnEdgeIds(event: Event): seq<string> {
    var workflow := Read(event.payload, "workflow_id");
    if workflow == "" then [] else LinkEdgeIds(workflow, LinkedMemories(event), LinkId(event))
  }

  lemma OwnEdgeIdsNameTheLink(event: Event, memory: string)
    requires Read(event.payload, "workflow_id") != "" && memory in LinkedMemories(event)
    ensures LinkEdgeId(Read(event.payload, "workflow_id"), memory, LinkId(event)) in OwnEdgeIds(event)
  {
    var memories := LinkedMemories(event);
    var i :| 0 <= i < |memories| && memories[i] == memory;
    assert OwnEdgeIds(event)[i] == LinkEdgeId(Read(event.payload, "workflow_id"), memory, LinkId(event));
  }

  lemma AppliedDeletion(g: Graph, event: Event)
    requires Deleted(event)
    ensures Apply(g, LinkDelta(event)) == Removed(g, OwnEdgeIds(event))
  {
    LinkDeltaLists(event);
    assert LinkDelta(event).edges == [];
  }

  lemma AppliedUpdate(g: Graph, event: Event)
    requires !Deleted(event)
    ensures Removed(Apply(g, LinkDelta(event)), OwnEdgeIds(event)) == Removed(g, OwnEdgeIds(event))
  {
    LinkDeltaLists(event);
    var edges, ids := LinkDelta(event).edges, OwnEdgeIds(event);
    RemovalIsIdempotent(Upserted(g, edges), ids);
    UpsertsVanish(g, edges, ids);
  }

  /**
   * An update of a link followed by its deletion leaves none of the link's edges, and every other
   * edge as it was.
   */
  lemma DeletionUndoesUpdate(g: Graph, update: Event, deletion: Event, project: Projection, deviceDelta: Delta)
    requires IsLink(update) && IsLink(deletion) && SameLink(update, deletion)
    requires Deleted(deletion)
    ensures var workflow := Read(update.payload, "workflow_id");
      var after := Apply(Apply(g, DeltaOf(update, project, deviceDelta)), DeltaOf(deletion, project, deviceDelta));
      && after == Removed(g, OwnEdgeIds(update))
      && forall memory :: memory in LinkedMemories(update) && workflow != "" ==>
                            LinkEdgeId(workflow, memory, LinkId(update)) !in after
  {
    LinkEventsTakeTheirBranch(update, project, deviceDelta);
    LinkEventsTakeTheirBranch(deletion, project, deviceDelta);
    assert OwnEdgeIds(update) == OwnEdgeIds(deletion);
    if Deleted(update) {
      AppliedDeletion(g, update);
    } else {
      AppliedUpdate(g, update);
    }
    AppliedDeletion(Apply(g, LinkDelta(update)), deletion);
    RemovalIsIdempotent(g, OwnEdgeIds(update));
    forall memory | memory in LinkedMemories(update) && Read(update.payload, "workflow_id") != ""
      ensures LinkEdgeId(Read(update.payload, "workflow_id"), memory, LinkId(update)) in OwnEdgeIds(update)
    {
      OwnEdgeIdsNameTheLink(update, memory);
    }
  }

  // ---------------------------------------------------------------- when ids tell links apart

  /** A deletion takes an edge exactly when one of its memories makes the same edge id. */
  lemma DeletionRemovesExactly(g: Graph, deletion: Event, project: Projection, deviceDelta: Delta, id: string)
    requires IsLink(deletion) && Deleted(deletion) && id in g
    ensures var own := Read(deletion.payload, "workflow_id");
      var memories, link := LinkedMemories(deletion), LinkId(deletion);
      id !in Apply(g, DeltaOf(deletion, project, deviceDelta)) <==>
      own != "" && exists memory :: memory in memories && LinkEdgeId(own, memory, link) == id
  {
    LinkEventsTakeTheirBranch(deletion, project, deviceDelta);
    AppliedDeletion(g, deletion);
    var own, memories, link := Read(deletion.payload, "workflow_id"), LinkedMemories(deletion), LinkId(deletion);
    var ids := OwnEdgeIds(deletion);
    if id in ids {
      var i :| 0 <= i < |ids| && ids[i] == id;
      assert memories[i] in memories && LinkEdgeId(own, memories[i], link) == id;
    }
    forall memory | own != "" && memory in memories && LinkEdgeId(own, memory, link) == id
      ensures id in ids
    {
      OwnEdgeIdsNameTheLink(deletion, memory);
    }
  }

  function Qualified(qualifier: string): string { if qualifier != "" then ":" + qualifier else "" }

  /** The part of a link's edge id that its workflow and memory make. */
  function Stem(workflow: string, memory: string): string { LinkEdgeId(workflow, memory, "") }

  /** Equal, or one continues the other after a colon. */
  predicate Overlap(a: string, b: string) {
    a == b || a + ":" <= b || b + ":" <= a
  }

  lemma DropPrefix(prefix: string, a: string, b: string)
    requires prefix + a == prefix + b
    ensures a == b
  {
    assert a == (prefix + a)[|prefix|..] && b == (prefix + b)[|prefix|..];
  }

  lemma IdIsStemAndLink(workflow: string, memory: string, link: string)
    ensures LinkEdgeId(workflow, memory, link) == Stem(workflow, memory) + Qualified(link)
  {
  }

  /** Where the shorter of two equal ids ends its stem, the longer stem goes on with a colon. */
  lemma LongerStemContinues(a: string, b: string, restA: string, restB: string)
    requires a + restA == b + restB && |a| < |b| && restA != "" && restA[0] == ':'
    ensures a + ":" <= b
  {
    var whole := a + restA;
    assert b == whole[..|b|] && a == whole[..|a|] && b[|a|] == whole[|a|] == ':';
    assert b[..|a|] == a;
  }

  lemma EqualIdsOverlap(a: string, b: string, link: string, link': string)
    requires a + Qualified(link) == b + Qualified(link')
    ensures Overlap(a, b)
  {
    if |a| < |b| {
      LongerStemContinues(a, b, Qualified(link), Qualified(link'));
    } else if |b| < |a| {
      LongerStemContinues(b, a, Qualified(link'), Qualified(link));
    } else {
      assert a == (a + Qualified(link))[..|a|] && b == (b + Qualified(link'))[..|b|];
    }
  }

  /** Two links that share an id, one for a stem and one for its continuation. */
  lemma ContinuationShares(a: string, b: string) returns (link: string, link': string)
    requires a + ":" <= b
    ensures a + Qualified(link) == b + Qualified(link')
  {
    var rest := b[|a| + 1..];
    link, link' := rest + ":x", "x";
    assert b == a + ":" + rest;
    assert a + Qualified(link) == b + ":x";
  }

  /**
   * Some two links of the given workflows and memories share an edge if and only if one stem equals
   * the other or continues it after a colon.
   */
  lemma IdsCollideExactly(workflow: string, memory: string, workflow': string, memory': string)
    ensures (exists link, link' :: LinkEdgeId(workflow, memory, link) == LinkEdgeId(workflow', memory', link'))
      <==> Overlap(Stem(workflow, memory), Stem(workflow', memory'))
  {
    var a, b := Stem(workflow, memory), Stem(workflow', memory');
    if link, link' :| LinkEdgeId(workflow, memory, link) == LinkEdgeId(workflow', memory', link') {
      IdIsStemAndLink(workflow, memory, link);
      IdIsStemAndLink(workflow', memory', link');
      EqualIdsOverlap(a, b, link, link');
    }
    if Overlap(a, b) {
      var link, link' := "", "";
      if a + ":" <= b {
        link, link' := ContinuationShares(a, b);
      } else if b + ":" <= a {
        link', link := ContinuationShares(b, a);
      }
      IdIsStemAndLink(workflow, memory, link);
      IdIsStemAndLink(workflow', memory', link');
      assert LinkEdgeId(workflow, memory, link) == LinkEdgeId(workflow', memory', link');
    }
  }

  lemma StemParts(workflow: string, memory: string)
    ensures Stem(workflow, memory) == (workflow + ":LINKS_MEMORY:") + memory
  {
  }

  lemma PrefixBehind(prefix: string, a: string, b: string)
    ensures prefix + a <= prefix + b <==> a <= b
  {
    if prefix + a <= prefix + b {
      assert b == (prefix + b)[|prefix|..] && a == (prefix + a)[|prefix|..];
      assert (prefix + b)[..|prefix + a|] == prefix + a;
      assert b[..|a|] == a;
    }
  }

  /** Within one workflow: two memories can share an edge if and only if one continues the other after a colon. */
  lemma MemoriesCollideExactly(workflow: string, memory: string, memory': string)
    requires memory != memory'
    ensures (exists link, link' :: LinkEdgeId(workflow, memory, link) == LinkEdgeId(workflow, memory', link'))
      <==> memory + ":" <= memory' || memory' + ":" <= memory
  {
    IdsCollideExactly(workflow, memory, workflow, memory');
    StemParts(workflow, memory);
    StemParts(workflow, memory');
    StemOverlap(workflow + ":LINKS_MEMORY:", memory, memory');
  }

  lemma StemOverlap(prefix: string, memory: string, memory': string)
    ensures Overlap(prefix + memory, prefix + memory') <==> Overlap(memory, memory')
  {
    assert (prefix + memory) + ":" == prefix + (memory + ":");
    assert (prefix + memory') + ":" == prefix + (memory' + ":");
    PrefixBehind(prefix, memory + ":", memory');
    PrefixBehind(prefix, memory' + ":", memory);
    if prefix + memory == prefix + memory' {
      DropPrefix(prefix, memory, memory');
    }
  }

  predicate Plain(s: string) { ':' !in s }

  lemma LongerHasColon(a: string, b: string, restA: string, restB: string)
    requires a + restA == b + restB && |a| < |b| && (restA == "" || restA[0] == ':')
    ensures !Plain(b)
  {
    assert b[|a|] == (b + restB)[|a|] == (a + restA)[|a|];
  }

  /** A text up to its first colon is determined by what it is part of. */
  lemma UpToColon(a: string, b: string, restA: string, restB: string)
    requires Plain(a) && Plain(b) && a + restA == b + restB
    requires (restA == "" || restA[0] == ':') && (restB == "" || restB[0] == ':')
    ensures a == b && restA == restB
  {
    if |a| < |b| {
      LongerHasColon(a, b, restA, restB);
    } else if |b| < |a| {
      LongerHasColon(b, a, restB, restA);
    }
    assert a == (a + restA)[..|a|] && restA == (a + restA)[|a|..];
    assert b == (b + restB)[..|b|] && restB == (b + restB)[|b|..];
  }

  lemma IdShape(workflow: string, memory: string, link: string)
    ensures LinkEdgeId(workflow, memory, link) == workflow + (":LINKS_MEMORY:" + (memory + Qualified(link)))
  {
  }

  /** Without colons in workflow and memory, an edge id says which workflow, memory and link it stands for. */
  lemma PlainPartsMakeUniqueIds(workflow: string, memory: string, link: string,
                                workflow': string, memory': string, link': string)
    requires Plain(workflow) && Plain(memory) && Plain(workflow') && Plain(memory')
    requires LinkEdgeId(workflow, memory, link) == LinkEdgeId(workflow', memory', link')
    ensures workflow == workflow' && memory == memory' && link == link'
  {
    IdShape(workflow, memory, link);
    IdShape(workflow', memory', link');
    PlainPartsAreUnique(workflow, memory, link, workflow', memory', link', ":LINKS_MEMORY:");
  }

  lemma PlainPartsAreUnique(workflow: string, memory: string, link: string,
                            workflow': string, memory': string, link': string, relation: string)
    requires Plain(workflow) && Plain(memory) && Plain(workflow') && Plain(memory')
    requires relation != "" && relation[0] == ':'
    requires workflow + (relation + (memory + Qualified(link))) == workflow' + (relation + (memory' + Qualified(link')))
    ensures workflow == workflow' && memory == memory' && link == link'
  {
    UpToColon(workflow, workflow', relation + (memory + Qualified(link)), relation + (memory' + Qualified(link')));
    DropPrefix(relation, memory + Qualified(link), memory' + Qualified(link'));
    UpToColon(memory, memory', Qualified(link), Qualified(link'));
    if link != "" && link' != "" {
      DropPrefix(":", link, link');
    }
  }

  lemma SameStemSameLink(workflow: string, memory: string, link: string, link': string)
    requires LinkEdgeId(workflow, memory, link) == LinkEdgeId(workflow, memory, link')
    ensures link == link'
  {
    IdIsStemAndLink(workflow, memory, link);
    IdIsStemAndLink(workflow, memory, link');
    DropPrefix(Stem(workflow, memory), Qualified(link), Qualified(link'));
    if link != "" && link' != "" {
      DropPrefix(":", link, link');
    }
  }

  /** No memory of the event makes a stem that can be mistaken for that of another workflow and memory. */
  predicate TellsApart(event: Event, workflow: string, memory: string) {
    var own := Read(event.payload, "workflow_id");
    forall m :: m in LinkedMemories(event) ==>
      (own == workflow && m == memory) || !Overlap(Stem(own, m), Stem(workflow, memory))
  }

  /**
   * A deletion whose stems cannot be mistaken for it takes an edge of a workflow and a memory, under
   * any link id, exactly when it deletes that very link.
   */
  lemma DeletionSparesOtherLinks(g: Graph, deletion: Event, project: Projection, deviceDelta: Delta,
                                 workflow: string, memory: string, link: string)
    requires IsLink(deletion) && Deleted(deletion) && TellsApart(deletion, workflow, memory)
    requires LinkEdgeId(workflow, memory, link) in g
    ensures LinkEdgeId(workflow, memory, link) !in Apply(g, DeltaOf(deletion, project, deviceDelta)) <==>
      && workflow != "" && workflow == Read(deletion.payload, "workflow_id") && link == LinkId(deletion)
      && memory in LinkedMemories(deletion)
  {
    var own, memories, link' := Read(deletion.payload, "workflow_id"), LinkedMemories(deletion), LinkId(deletion);
    var id := LinkEdgeId(workflow, memory, link);
    DeletionRemovesExactly(g, deletion, project, deviceDelta, id);
    forall m | m in memories && LinkEdgeId(own, m, link') == id
      ensures own == workflow && m == memory && link' == link
    {
      IdIsStemAndLink(own, m, link');
      IdIsStemAndLink(workflow, memory, link);
      EqualIdsOverlap(Stem(own, m), Stem(workflow, memory), link', link);
      SameStemSameLink(workflow, memory, link', link);
    }
  }

  // ---------------------------------------------------------------- a deletion that takes too much

  /** The event of a link between a workflow and one memory. */
  function LinkEvent(eventType: string, workflow: string, memory: string, link: string): Event {
    var fields := map["id" := Text(link), "memoryIds" := List([Text(memory)], "")];
    Event(eventType, "e", "workflow_memory_link", link, None,
          map["workflow_id" := Text(workflow), "link" := Object(fields, "")])
  }

  /** No white space at either end. */
  predicate Trimmed(s: string) {
    s != "" && !IsSpace(s[0]) && !IsSpace(s[|s| - 1])
  }

  lemma TrimmedReads(s: string)
    requires Trimmed(s)
    ensures Str(Text(s)) == s
  {
  }

  lemma OneString(s: string)
    requires Trimmed(s)
    ensures Strings([Text(s)]) == [s]
  {
    TrimmedReads(s);
    assert [Text(s)][..0] == [] && Strings([]) == [];
  }

  lemma LinkFields(eventType: string, workflow: string, memory: string, link: string)
    requires link != ""
    ensures var payload := LinkEvent(eventType, workflow, memory, link).payload;
      && Get(payload, "workflow_id") == Text(workflow)
      && Get(Nested(payload, "link"), "id") == Text(link)
      && Get(Nested(payload, "link"), "memoryIds") == List([Text(memory)], "")
  {
  }

  lemma AnEventOf(eventType: string, workflow: string, memory: string, link: string) returns (event: Event)
    requires StartsWith(eventType, "workflow_memory_link.")
    requires eventType !in {"task.started", "agent.step.completed", "agent.step.failed"}
    requires Trimmed(workflow) && Trimmed(memory) && Trimmed(link)
    ensures IsLink(event) && (Deleted(event) <==> EndsWith(eventType, ".deleted"))
    ensures Read(event.payload, "workflow_id") == workflow
    ensures LinkedMemories(event) == [memory] && LinkId(event) == link
  {
    event := LinkEvent(eventType, workflow, memory, link);
    TrimmedReads(workflow);
    TrimmedReads(link);
    OneString(memory);
    LinkFields(eventType, workflow, memory, link);
  }

  lemma OneEdgeUpserted(g: Graph, d: Delta, edge: Edge)
    requires d.edges == [edge] && d.removed == []
    ensures Apply(g, d) == g[edge.id := edge]
  {
    assert [edge][..0] == [] && Upserted(g, [edge]) == g[edge.id := edge];
    RemovalIsIdempotent(g[edge.id := edge], []);
  }

  lemma UpdatePutsOneEdge(g: Graph, event: Event, project: Projection, deviceDelta: Delta, memory: string)
    requires IsLink(event) && !Deleted(event)
    requires Read(event.payload, "workflow_id") != "" && LinkedMemories(event) == [memory]
    ensures var edge := LinkEdge(Read(event.payload, "workflow_id"), memory, LinkId(event));
      Apply(g, DeltaOf(event, project, deviceDelta)) == g[edge.id := edge]
  {
    LinkEventsTakeTheirBranch(event, project, deviceDelta);
    LinkDeltaLists(event);
    OneEdgeUpserted(g, LinkDelta(event), LinkEdge(Read(event.payload, "workflow_id"), memory, LinkId(event)));
  }

  const CREATED := "workflow_memory_link.created"
  const DELETED := "workflow_memory_link.deleted"

  lemma ExampleEventTypes()
    ensures StartsWith(CREATED, "workflow_memory_link.") && StartsWith(DELETED, "workflow_memory_link.")
    ensures EndsWith(DELETED, ".deleted") && !EndsWith(CREATED, ".deleted")
    ensures {CREATED, DELETED} !! {"task.started", "agent.step.completed", "agent.step.failed"}
  {
    assert CREATED[|CREATED| - 8..] == ".created" && DELETED[|DELETED| - 8..] == ".deleted";
    assert ".created"[1] != ".deleted"[1];
    assert CREATED[0] == DELETED[0] == 'w';
  }

  lemma ExampleIds()
    ensures LinkEdgeId("w", "m", "a:b") == LinkEdgeId("w", "m:a", "b")
    ensures Trimmed("w") && Trimmed("m") && Trimmed("m:a") && Trimmed("b") && Trimmed("a:b")
  {
    LetterIsNoSpace('w');
    LetterIsNoSpace('m');
    LetterIsNoSpace('a');
    LetterIsNoSpace('b');
  }

  lemma LetterIsNoSpace(c: char)
    requires 'a' <= c <= 'z'
    ensures !IsSpace(c)
  {
  }

  /** Whenever two one-memory links share an edge id, deleting the one takes the edge of the other. */
  lemma ACollisionTakesTheEdge(update: Event, deletion: Event, memory: string, memory': string,
                               project: Projection, deviceDelta: Delta)
    requires IsLink(update) && !Deleted(update) && IsLink(deletion) && Deleted(deletion)
    requires LinkedMemories(update) == [memory] && LinkedMemories(deletion) == [memory']
    requires Read(update.payload, "workflow_id") != "" && Read(deletion.payload, "workflow_id") != ""
    requires LinkEdgeId(Read(update.payload, "workflow_id"), memory, LinkId(update)) ==
             LinkEdgeId(Read(deletion.payload, "workflow_id"), memory', LinkId(deletion))
    ensures var before := Apply(map[], DeltaOf(update, project, deviceDelta));
      before.Keys == {LinkEdgeId(Read(update.payload, "workflow_id"), memory, LinkId(update))} &&
      Apply(before, DeltaOf(deletion, project, deviceDelta)) == map[]
  {
    hide DeltaOf, LinkDelta, LinkEdgeId, LinkedMemories, LinkId;
    UpdatePutsOneEdge(map[], update, project, deviceDelta, memory);
    var before := Apply(map[], DeltaOf(update, project, deviceDelta));
    LinkEventsTakeTheirBranch(deletion, project, deviceDelta);
    AppliedDeletion(before, deletion);
    OwnEdgeIdsNameTheLink(deletion, memory');
  }

  /** Deleting the link "b" of memory "m:a" takes the edge that the link "a:b" of memory "m" made. */
  lemma ADeletionMayTakeAnotherLinksEdge(project: Projection, deviceDelta: Delta)
    returns (update: Event, deletion: Event)
    ensures IsLink(update) && !Deleted(update) && IsLink(deletion) && Deleted(deletion)
    ensures LinkId(update) == "a:b" && LinkId(deletion) == "b"
    ensures LinkedMemories(update) == ["m"] && LinkedMemories(deletion) == ["m:a"]
    ensures var before := Apply(map[], DeltaOf(update, project, deviceDelta));
      before.Keys == {LinkEdgeId("w", "m", "a:b")} && Apply(before, DeltaOf(deletion, project, deviceDelta)) == map[]
  {
    ExampleEventTypes();
    ExampleIds();
    update := AnEventOf(CREATED, "w", "m", "a:b");
    deletion := AnEventOf(DELETED, "w", "m:a", "b");
    ACollisionTakesTheEdge(update, deletion, "m", "m:a", project, deviceDelta);
  }
}
