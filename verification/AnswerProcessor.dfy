/** The contradiction gate before every write: src/apprentice/answer_processor.py:68-157 and
    src/api/routes/apprentice.py:57-62. */
module AnswerProcessor {
  import opened Common
  import opened GraphWriter
  import opened Readiness

  const MIN_WRITE_CONFIDENCE := 0.5

  /** What the extraction model returned. */
  datatype Extraction = Extraction(isAmbiguous: bool, overallConfidence: real, entities: seq<Entity>,
                                   relations: seq<Relation>)

  datatype Conflict = Conflict(source: string, target: string, relation: string, confidence: real)

  datatype Verdict =
    | FollowUp(confidence: real)
    | Conflicting(entities: seq<Entity>, relations: seq<Relation>, confidence: real, conflict: Conflict)
    | Write(entities: seq<Entity>, relations: seq<Relation>, confidence: real)

  function TextOf(concepts: seq<Concept>, id: Id): Option<string> {
    if concepts == [] then None
    else if concepts[0].id == id then Some(concepts[0].text)
    else TextOf(concepts[1..], id)
  }

  /** A row of the contradiction query: the labels of both ends, the relation and its confidence. */
  function RowOf(g: Graph, e: Edge): Conflict {
    var source, target := TextOf(g.concepts, e.source), TextOf(g.concepts, e.target);
    Conflict(if source.Some? then source.value else "", if target.Some? then target.value else "",
             e.relation, e.confidence)
  }

  /** An edge between the same two labels that says something else with enough confidence. */
  predicate Contradicts(g: Graph, e: Edge, r: Relation) {
    && TextOf(g.concepts, e.source) == Some(r.source)
    && e.relation != r.relationType
    && TextOf(g.concepts, e.target) == Some(r.target)
    && e.confidence > MIN_WRITE_CONFIDENCE
  }

  predicate Passes(g: Graph, relations: seq<Relation>) {
    forall r, e :: r in relations && e in g.edges ==> !Contradicts(g, e, r)
  }

  /** answer_processor.py:42-46: edges that leave a concept of that label under another relation, in
      the order in which the store returns them. */
  function RivalEdges(g: Graph, edges: seq<Edge>, r: Relation): seq<Edge> {
    if edges == [] then [] else
      (if TextOf(g.concepts, edges[0].source) == Some(r.source) && edges[0].relation != r.relationType then [edges[0]]
       else []) +
      RivalEdges(g, edges[1..], r)
  }

  lemma {:induction false} RivalEdgesAreExact(g: Graph, edges: seq<Edge>, r: Relation, e: Edge)
    ensures e in RivalEdges(g, edges, r) <==>
            e in edges && TextOf(g.concepts, e.source) == Some(r.source) && e.relation != r.relationType
  {
    if edges != [] {
      RivalEdgesAreExact(g, edges[1..], r, e);
      assert edges == [edges[0]] + edges[1..];
    }
  }

  /** The conflict is about relation i: it names both its labels, and an edge that contradicts it. */
  ghost predicate Explains(g: Graph, relations: seq<Relation>, i: nat, e: Edge, conflict: Conflict) {
    && i < |relations| && e in g.edges && Contradicts(g, e, relations[i])
    && conflict == Conflict(relations[i].source, relations[i].target, e.relation, e.confidence)
  }

  /** answer_processor.py:122-157 */
  method CheckContradictions(g: Graph, relations: seq<Relation>) returns (conflict: Option<Conflict>)
    ensures conflict.None? <==> Passes(g, relations)
    ensures conflict.Some? ==>
            exists i: nat, e :: Explains(g, relations, i, e, conflict.value) && Passes(g, relations[..i])
  {
    for i := 0 to |relations|
      invariant Passes(g, relations[..i])
    {
      var relation := relations[i];
      var rows := RivalEdges(g, g.edges, relation);
      for k := 0 to |rows|
        invariant forall j :: 0 <= j < k ==> !Contradicts(g, rows[j], relation)
      {
        var e := rows[k];
        RivalEdgesAreExact(g, g.edges, relation, e);
        if TextOf(g.concepts, e.target) == Some(relation.target) && e.confidence > MIN_WRITE_CONFIDENCE {
          assert Explains(g, relations, i, e, RowOf(g, e));
          return Some(RowOf(g, e));
        }
      }
      forall e | e in g.edges
        ensures !Contradicts(g, e, relation)
      {
        RivalEdgesAreExact(g, g.edges, relation, e);
      }
      assert relations[..i + 1] == relations[..i] + [relation];
    }
    assert relations[..|relations|] == relations;
    return None;
  }

  /** answer_processor.py:68-102 */
  method ProcessAnswer(g: Graph, x: Extraction) returns (verdict: Verdict)
    ensures verdict.FollowUp? <==> x.isAmbiguous || x.overallConfidence < MIN_WRITE_CONFIDENCE
    ensures verdict.Write? <==> !x.isAmbiguous && x.overallConfidence >= MIN_WRITE_CONFIDENCE && Passes(g, x.relations)
    ensures verdict.confidence == x.overallConfidence
    ensures !verdict.FollowUp? ==> verdict.entities == x.entities && verdict.relations == x.relations
    ensures verdict.Conflicting? ==>
            exists i: nat, e :: Explains(g, x.relations, i, e, verdict.conflict) && Passes(g, x.relations[..i])
  {
    if x.isAmbiguous || x.overallConfidence < MIN_WRITE_CONFIDENCE {
      return FollowUp(x.overallConfidence);
    }
    var conflict := CheckContradictions(g, x.relations);
    if conflict.Some? {
      return Conflicting(x.entities, x.relations, x.overallConfidence, conflict.value);
    }
    return Write(x.entities, x.relations, x.overallConfidence);
  }

  predicate Accepted(g: Graph, x: Extraction) {
    !x.isAmbiguous && x.overallConfidence >= MIN_WRITE_CONFIDENCE && Passes(g, x.relations)
  }

  /** The graph after one answer has been processed. */
  function Answered(g: Graph, x: Extraction, supply: seq<Id>): Graph
    requires |supply| == |x.entities|
  {
    if Accepted(g, x) then Written(g, x.entities, x.relations, false, supply) else g
  }

  /** routes/apprentice.py:57-62: only a write verdict reaches the writer, and only then is the score
      recomputed, on the graph after the write. */
  method SubmitAnswer(graph: KnowledgeGraph, store: StateStore, agentType: string, x: Extraction, supply: seq<Id>,
                      proposalEnv: Option<real>, certEnv: Option<real>) returns (verdict: Verdict)
    requires |supply| == |x.entities|
    modifies graph, store
    ensures graph.Snapshot() == Answered(old(graph.Snapshot()), x, supply)
    ensures verdict.Write? <==> Accepted(old(graph.Snapshot()), x)
    ensures store.keys ==
            if verdict.Write? then
              WithScore(old(store.keys), agentType,
                        ScoreOf(graph.Snapshot(), ProposalThreshold(proposalEnv), CertThreshold(certEnv)))
            else old(store.keys)
    ensures verdict.Write? ==>
            StoresScore(old(store.keys), store.keys, agentType,
                        ScoreOf(graph.Snapshot(), ProposalThreshold(proposalEnv), CertThreshold(certEnv)))
  {
    verdict := ProcessAnswer(graph.Snapshot(), x);
    if verdict.Write? {
      var summary := graph.WriteToGraph(verdict.entities, verdict.relations, false, supply);
      var score := store.ComputeAndStore(agentType, graph.Snapshot(), proposalEnv, certEnv);
    }
  }
}
