/** The upserting writer of the knowledge graph: src/apprentice/graph_writer.py:21-214. */
module GraphWriter {
  import opened Common

  const DIRECT_HIGH_CONFIDENCE := 0.9
  const DIRECT_MODERATE_CONFIDENCE := 0.8
  const FOLLOWUP_CONFIDENCE := 0.8
  const INFERRED_CONFIDENCE := 0.6

  datatype Concept = Concept(id: Id, text: string, namespace: Namespace, confidence: real)

  datatype Edge = Edge(source: Id, target: Id, relation: string, confidence: real, version: int)

  datatype Graph = Graph(concepts: seq<Concept>, edges: seq<Edge>)

  datatype Entity = Entity(text: string, confidence: real)

  datatype Relation = Relation(source: string, target: string, relationType: string, confidence: real)

  datatype WriteSummary = WriteSummary(nodesCreated: nat, nodesMatched: nat, edgesCreated: nat, edgesUpdated: nat)

  // ---------- queries ----------

  /** The first row of MATCH (c:Concept) WHERE c.label = text. */
  function FirstWithText(concepts: seq<Concept>, text: string): Option<Concept> {
    if concepts == [] then None
    else if concepts[0].text == text then Some(concepts[0])
    else FirstWithText(concepts[1..], text)
  }

  predicate IsTriple(e: Edge, source: Id, target: Id, relation: string) {
    e.source == source && e.target == target && e.relation == relation
  }

  function FirstEdge(edges: seq<Edge>, source: Id, target: Id, relation: string): Option<Edge> {
    if edges == [] then None
    else if IsTriple(edges[0], source, target, relation) then Some(edges[0])
    else FirstEdge(edges[1..], source, target, relation)
  }

  // ---------- specification of one write ----------

  /** SET c.confidence for the concept of that id. */
  function Raised(concepts: seq<Concept>, id: Id, confidence: real): (r: seq<Concept>)
    ensures |r| == |concepts|
  {
    seq(|concepts|, i requires 0 <= i < |concepts| =>
      if concepts[i].id == id then concepts[i].(confidence := confidence) else concepts[i])
  }

  /** The concepts afterwards and the id the entity ended up with. */
  function Placed(concepts: seq<Concept>, entity: Entity, supply: Id): (seq<Concept>, Id) {
    match FirstWithText(concepts, entity.text)
    case None => (concepts + [Concept(supply, entity.text, Task, entity.confidence)], supply)
    case Some(c) =>
      (if entity.confidence > c.confidence then Raised(concepts, c.id, entity.confidence) else concepts, c.id)
  }

  datatype Placement = Placement(concepts: seq<Concept>, textToId: map<string, Id>, created: nat)

  /** All entities in order; entity i takes id supply[i] if it has to be created. */
  function PlacedAll(concepts: seq<Concept>, entities: seq<Entity>, supply: seq<Id>): Placement
    requires |supply| == |entities|
  {
    if entities == [] then Placement(concepts, map[], 0) else
      var n := |entities| - 1;
      var before := PlacedAll(concepts, entities[..n], supply[..n]);
      var (after, id) := Placed(before.concepts, entities[n], supply[n]);
      Placement(after, before.textToId[entities[n].text := id],
                before.created + if FirstWithText(before.concepts, entities[n].text).None? then 1 else 0)
  }

  function AssignedConfidence(relation: Relation, isFollowup: bool): real {
    if isFollowup then FOLLOWUP_CONFIDENCE
    else if relation.confidence >= 0.85 then DIRECT_HIGH_CONFIDENCE
    else if relation.confidence >= 0.5 then DIRECT_MODERATE_CONFIDENCE
    else INFERRED_CONFIDENCE
  }

  /** `label_to_id.get(text) or _resolve_concept_id(text)`: an empty id is falsy. */
  function ResolvedId(placement: Placement, text: string): Option<Id> {
    if text in placement.textToId && placement.textToId[text] != "" then Some(placement.textToId[text])
    else
      match FirstWithText(placement.concepts, text)
      case None => None
      case Some(c) => Some(c.id)
  }

  datatype EdgeWrite = EdgeWrite(source: Id, target: Id, relation: string, confidence: real)

  /** The edge write a relation asks for, if both its ends are known. */
  function WriteFor(placement: Placement, relation: Relation, isFollowup: bool): Option<EdgeWrite> {
    var source, target := ResolvedId(placement, relation.source), ResolvedId(placement, relation.target);
    if source.None? || target.None? then None
    else Some(EdgeWrite(source.value, target.value, relation.relationType, AssignedConfidence(relation, isFollowup)))
  }

  function Max(a: real, b: real): real {
    if a >= b then a else b
  }

  /** SET confidence and version on every edge of the triple. */
  function Bumped(edges: seq<Edge>, w: EdgeWrite, confidence: real, version: int): (r: seq<Edge>)
    ensures |r| == |edges|
  {
    seq(|edges|, i requires 0 <= i < |edges| =>
      if IsTriple(edges[i], w.source, w.target, w.relation) then
        edges[i].(confidence := confidence, version := version)
      else edges[i])
  }

  function Upserted(edges: seq<Edge>, w: EdgeWrite): seq<Edge> {
    match FirstEdge(edges, w.source, w.target, w.relation)
    case None => edges + [Edge(w.source, w.target, w.relation, w.confidence, 1)]
    case Some(e) => Bumped(edges, w, Max(e.confidence, w.confidence), e.version + 1)
  }

  function Logged(edges: seq<Edge>, log: seq<EdgeWrite>): seq<Edge> {
    if log == [] then edges else Upserted(Logged(edges, log[..|log| - 1]), log[|log| - 1])
  }

  /** The edge writes of an answer; a relation with an unknown end contributes none. */
  function LogFor(placement: Placement, relations: seq<Relation>, isFollowup: bool): seq<EdgeWrite> {
    if relations == [] then [] else
      var n := |relations| - 1;
      var w := WriteFor(placement, relations[n], isFollowup);
      LogFor(placement, relations[..n], isFollowup) + if w.Some? then [w.value] else []
  }

  /** The whole answer: entities first, then relations against the concepts they left. */
  function Written(g: Graph, entities: seq<Entity>, relations: seq<Relation>, isFollowup: bool, supply: seq<Id>): Graph
    requires |supply| == |entities|
  {
    var placement := PlacedAll(g.concepts, entities, supply);
    Graph(placement.concepts, Logged(g.edges, LogFor(placement, relations, isFollowup)))
  }

  lemma LogStep(edges: seq<Edge>, placement: Placement, relations: seq<Relation>, i: nat, isFollowup: bool)
    requires i < |relations|
    ensures var w := WriteFor(placement, relations[i], isFollowup);
            var before, after :=
                LogFor(placement, relations[..i], isFollowup), LogFor(placement, relations[..i + 1], isFollowup);
            && |after| == |before| + (if w.None? then 0 else 1)
            && Logged(edges, after) ==
               if w.None? then Logged(edges, before) else Upserted(Logged(edges, before), w.value)
  {
    assert relations[..i + 1][..i] == relations[..i];
    var w := WriteFor(placement, relations[i], isFollowup);
    var before, after :=
        LogFor(placement, relations[..i], isFollowup), LogFor(placement, relations[..i + 1], isFollowup);
    if w.None? {
      assert after == before;
    } else {
      assert after == before + [w.value];
      assert after[..|after| - 1] == before;
    }
  }

  class KnowledgeGraph {
    var concepts: seq<Concept>
    var edges: seq<Edge>

    function Snapshot(): Graph
      reads this
    {
      Graph(concepts, edges)
    }

    constructor (g: Graph)
      ensures Snapshot() == g
    {
      concepts, edges := g.concepts, g.edges;
    }

    /** graph_writer.py:51-104 */
    method FindOrCreateConcept(entity: Entity, supply: Id, summary: WriteSummary)
      returns (id: Id, summary': WriteSummary)
      modifies this`concepts
      ensures (concepts, id) == Placed(old(concepts), entity, supply)
      ensures summary' ==
              if FirstWithText(old(concepts), entity.text).None? then summary.(nodesCreated := summary.nodesCreated + 1)
              else summary.(nodesMatched := summary.nodesMatched + 1)
    {
      var existing := FirstWithText(concepts, entity.text);
      if existing.Some? {
        if entity.confidence > existing.value.confidence {
          concepts := Raised(concepts, existing.value.id, entity.confidence);
        }
        return existing.value.id, summary.(nodesMatched := summary.nodesMatched + 1);
      }
      concepts := concepts + [Concept(supply, entity.text, Task, entity.confidence)];
      return supply, summary.(nodesCreated := summary.nodesCreated + 1);
    }

    /** graph_writer.py:120-197 */
    method UpsertRelation(relation: Relation, confidence: real, textToId: map<string, Id>, summary: WriteSummary,
                          ghost placement: Placement, ghost isFollowup: bool)
      returns (summary': WriteSummary)
      requires placement.concepts == concepts && placement.textToId == textToId
               && confidence == AssignedConfidence(relation, isFollowup)
      modifies this`edges
      ensures var w := WriteFor(placement, relation, isFollowup);
              && edges == (if w.None? then old(edges) else Upserted(old(edges), w.value))
              && summary' ==
                 if w.None? then summary
                 else if FirstEdge(old(edges), w.value.source, w.value.target, w.value.relation).None? then
                   summary.(edgesCreated := summary.edgesCreated + 1)
                 else
                   summary.(edgesUpdated := summary.edgesUpdated + 1)
      ensures |edges| - |old(edges)| == summary'.edgesCreated - summary.edgesCreated
    {
      var sourceId := ResolveId(relation.source, textToId);
      var targetId := ResolveId(relation.target, textToId);
      if sourceId.None? || targetId.None? {
        return summary;
      }
      var w := EdgeWrite(sourceId.value, targetId.value, relation.relationType, confidence);
      var existing := FirstEdge(edges, w.source, w.target, w.relation);
      if existing.Some? {
        edges := Bumped(edges, w, Max(existing.value.confidence, confidence), existing.value.version + 1);
        return summary.(edgesUpdated := summary.edgesUpdated + 1);
      }
      edges := edges + [Edge(w.source, w.target, w.relation, confidence, 1)];
      return summary.(edgesCreated := summary.edgesCreated + 1);
    }

    /** graph_writer.py:127-134, 200-214 */
    method ResolveId(text: string, textToId: map<string, Id>) returns (id: Option<Id>)
      ensures forall created: nat :: id == ResolvedId(Placement(concepts, textToId, created), text)
    {
      if text in textToId && textToId[text] != "" {
        return Some(textToId[text]);
      }
      var row := FirstWithText(concepts, text);
      if row.None? {
        return None;
      }
      return Some(row.value.id);
    }

    /** graph_writer.py:38-42 */
    method WriteEntities(entities: seq<Entity>, supply: seq<Id>)
      returns (textToId: map<string, Id>, summary: WriteSummary)
      requires |supply| == |entities|
      modifies this`concepts
      ensures PlacedAll(old(concepts), entities, supply) == Placement(concepts, textToId, summary.nodesCreated)
      ensures summary == WriteSummary(summary.nodesCreated, summary.nodesMatched, 0, 0)
      ensures summary.nodesCreated + summary.nodesMatched == |entities|
    {
      summary, textToId := WriteSummary(0, 0, 0, 0), map[];
      for i := 0 to |entities|
        invariant PlacedAll(old(concepts), entities[..i], supply[..i]) ==
                  Placement(concepts, textToId, summary.nodesCreated)
        invariant summary == WriteSummary(summary.nodesCreated, summary.nodesMatched, 0, 0)
        invariant summary.nodesCreated + summary.nodesMatched == i
      {
        assert entities[..i + 1][..i] == entities[..i] && supply[..i + 1][..i] == supply[..i];
        var id;
        id, summary := FindOrCreateConcept(entities[i], supply[i], summary);
        textToId := textToId[entities[i].text := id];
      }
      assert entities[..|entities|] == entities && supply[..|supply|] == supply;
    }

    /** graph_writer.py:44-46 */
    method WriteRelations(relations: seq<Relation>, isFollowup: bool, textToId: map<string, Id>, summary: WriteSummary,
                          ghost placement: Placement)
      returns (summary': WriteSummary)
      requires placement.concepts == concepts && placement.textToId == textToId
      requires summary.edgesCreated == summary.edgesUpdated == 0
      modifies this`edges
      ensures edges == Logged(old(edges), LogFor(placement, relations, isFollowup))
      ensures summary'.nodesCreated == summary.nodesCreated && summary'.nodesMatched == summary.nodesMatched
      ensures summary'.edgesCreated + summary'.edgesUpdated == |LogFor(placement, relations, isFollowup)|
      ensures |edges| == |old(edges)| + summary'.edgesCreated
    {
      summary' := summary;
      for i := 0 to |relations|
        invariant edges == Logged(old(edges), LogFor(placement, relations[..i], isFollowup))
        invariant summary'.nodesCreated == summary.nodesCreated && summary'.nodesMatched == summary.nodesMatched
        invariant summary'.edgesCreated + summary'.edgesUpdated == |LogFor(placement, relations[..i], isFollowup)|
        invariant |edges| == |old(edges)| + summary'.edgesCreated
      {
        LogStep(old(edges), placement, relations, i, isFollowup);
        var confidence := AssignedConfidence(relations[i], isFollowup);
        summary' := UpsertRelation(relations[i], confidence, textToId, summary', placement, isFollowup);
      }
      assert relations[..|relations|] == relations;
    }

    /** graph_writer.py:21-48, for a result whose status is "write". */
    method WriteToGraph(entities: seq<Entity>, relations: seq<Relation>, isFollowup: bool, supply: seq<Id>)
      returns (summary: WriteSummary)
      requires |supply| == |entities|
      modifies this
      ensures Snapshot() == Written(old(Snapshot()), entities, relations, isFollowup, supply)
      ensures summary.nodesCreated + summary.nodesMatched == |entities|
      ensures summary.nodesCreated == PlacedAll(old(concepts), entities, supply).created
      ensures summary.edgesCreated + summary.edgesUpdated ==
              |LogFor(PlacedAll(old(concepts), entities, supply), relations, isFollowup)|
      ensures |edges| == |old(edges)| + summary.edgesCreated
    {
      var textToId;
      textToId, summary := WriteEntities(entities, supply);
      ghost var placement := PlacedAll(old(concepts), entities, supply);
      summary := WriteRelations(relations, isFollowup, textToId, summary, placement);
    }
  }
}
