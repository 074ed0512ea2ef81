/** How sure the graph is of what an answer says: src/apprentice/graph_writer.py:107-197. */
module ConfidenceTheorems {
  import opened Common
  import opened GraphWriter
  import opened GraphTheorems

  /** A follow-up is worth 0.8; a direct answer 0.9 from 0.85 up, 0.6 below 0.5, and 0.8 in between. */
  lemma AssignmentTiers(r: Relation, isFollowup: bool)
    ensures isFollowup ==> AssignedConfidence(r, isFollowup) == 0.8
    ensures !isFollowup ==>
              && (AssignedConfidence(r, isFollowup) == 0.9 <==> r.confidence >= 0.85)
              && (AssignedConfidence(r, isFollowup) == 0.8 <==> 0.5 <= r.confidence < 0.85)
              && (AssignedConfidence(r, isFollowup) == 0.6 <==> r.confidence < 0.5)
  {
  }

  /** Relation r of an answer is about edge e: both its ends resolve to the ends of e. */
  predicate About(p: Placement, r: Relation, e: Edge) {
    && ResolvedId(p, r.source) == Some(e.source) && ResolvedId(p, r.target) == Some(e.target)
    && r.relationType == e.relation
  }

  ghost function AboutTest(p: Placement, e: Edge): Relation -> bool {
    (r: Relation) => About(p, r, e)
  }

  lemma WriteIsAbout(p: Placement, r: Relation, isFollowup: bool, e: Edge)
    ensures About(p, r, e) <==>
            WriteFor(p, r, isFollowup).Some?
            && IsWriteOf(WriteFor(p, r, isFollowup).value, e.source, e.target, e.relation)
    ensures WriteFor(p, r, isFollowup).Some? ==>
            WriteFor(p, r, isFollowup).value.confidence == AssignedConfidence(r, isFollowup)
  {
  }

  lemma {:induction false} LogCounts(p: Placement, relations: seq<Relation>, isFollowup: bool, e: Edge)
    ensures CountIn(LogFor(p, relations, isFollowup), e.source, e.target, e.relation) ==
            |Filter(relations, AboutTest(p, e))|
  {
    if relations != [] {
      var n := |relations| - 1;
      LogCounts(p, relations[..n], isFollowup, e);
      WriteIsAbout(p, relations[n], isFollowup, e);
      var before, w := LogFor(p, relations[..n], isFollowup), WriteFor(p, relations[n], isFollowup);
      if w.Some? {
        assert (before + [w.value])[..|before|] == before;
      } else {
        assert LogFor(p, relations, isFollowup) == before;
      }
    }
  }

  /** Some relation of the answer about e has at least the confidence given. */
  ghost predicate Says(p: Placement, relations: seq<Relation>, e: Edge, least: real) {
    exists i :: 0 <= i < |relations| && About(p, relations[i], e) && relations[i].confidence >= least
  }

  /** What the surest relation about e is worth: 0.8 in a follow-up; in a direct answer 0.9 if some relation
      about e has 0.85 or more, else 0.8 if some has 0.5 or more, else 0.6. */
  ghost function Surest(p: Placement, relations: seq<Relation>, isFollowup: bool, e: Edge): real {
    if isFollowup then 0.8
    else if Says(p, relations, e, 0.85) then 0.9
    else if Says(p, relations, e, 0.5) then 0.8
    else 0.6
  }

  /** The largest write about e is the one its surest relation asks for. */
  lemma LargestIsSurest(p: Placement, relations: seq<Relation>, isFollowup: bool, e: Edge, m: real)
    requires LargestIn(LogFor(p, relations, isFollowup), e.source, e.target, e.relation, m)
    ensures m == Surest(p, relations, isFollowup, e)
  {
    var log := LogFor(p, relations, isFollowup);
    var w :| w in log && IsWriteOf(w, e.source, e.target, e.relation) && w.confidence == m;
    LogForContents(p, relations, isFollowup, w);
    var k :| 0 <= k < |relations| && WriteFor(p, relations[k], isFollowup) == Some(w);
    WriteIsAbout(p, relations[k], isFollowup, e);
    AssignmentTiers(relations[k], isFollowup);
    forall i | 0 <= i < |relations| && About(p, relations[i], e)
      ensures AssignedConfidence(relations[i], isFollowup) <= m
    {
      WriteIsAbout(p, relations[i], isFollowup, e);
      LogForContents(p, relations, isFollowup, WriteFor(p, relations[i], isFollowup).value);
    }
    SurestDecides(p, relations, isFollowup, e, m, k);
  }

  lemma SurestDecides(p: Placement, relations: seq<Relation>, isFollowup: bool, e: Edge, m: real, k: nat)
    requires k < |relations| && About(p, relations[k], e) && AssignedConfidence(relations[k], isFollowup) == m
    requires forall i :: 0 <= i < |relations| && About(p, relations[i], e) ==>
               AssignedConfidence(relations[i], isFollowup) <= m
    ensures m == Surest(p, relations, isFollowup, e)
  {
    AssignmentTiers(relations[k], isFollowup);
    if i :| 0 <= i < |relations| && About(p, relations[i], e) && relations[i].confidence >= 0.85 {
      AssignmentTiers(relations[i], isFollowup);
    }
    if i :| 0 <= i < |relations| && About(p, relations[i], e) && relations[i].confidence >= 0.5 {
      AssignmentTiers(relations[i], isFollowup);
    }
  }

  /** One answer on a graph with unique triples, for an edge it adds: the version is the number of relations
      about it, the confidence what the surest of them is worth. */
  lemma AnswerDeterminesEdge(g: Graph, entities: seq<Entity>, relations: seq<Relation>, isFollowup: bool,
                             supply: seq<Id>, e: Edge)
    requires |supply| == |entities| && UniqueTriples(g.edges)
    requires e in Written(g, entities, relations, isFollowup, supply).edges
    requires forall o :: o in g.edges ==> !SameTriple(o, e)
    ensures var p := PlacedAll(g.concepts, entities, supply);
            && e.version == |Filter(relations, AboutTest(p, e))|
            && e.confidence == Surest(p, relations, isFollowup, e)
  {
    var a := Answer(entities, relations, isFollowup, supply);
    var p := PlacedAll(g.concepts, entities, supply);
    assert [a][..0] == [];
    assert FullLog(g, [a]) == LogFor(p, relations, isFollowup);
    RunDeterminesEdge(g, [a], e);
    LogCounts(p, relations, isFollowup, e);
    LargestIsSurest(p, relations, isFollowup, e, e.confidence);
  }

  lemma LoggedEdge(edges: seq<Edge>, log: seq<EdgeWrite>, o: Edge) returns (later: Edge)
    requires UniqueTriples(edges) && o in edges
    ensures later in Logged(edges, log)
    ensures var n := CountIn(log, o.source, o.target, o.relation);
            && later == o.(version := o.version + n, confidence := later.confidence)
            && (n == 0 ==> later.confidence == o.confidence)
            && (n > 0 ==> exists m :: LargestIn(log, o.source, o.target, o.relation, m)
                                      && later.confidence == Max(o.confidence, m))
  {
    FirstIsOnly(edges, o);
    LogDeterminesEdge(edges, log, o.source, o.target, o.relation);
    FirstEdgeIsTriple(Logged(edges, log), o.source, o.target, o.relation);
    later := FirstEdge(Logged(edges, log), o.source, o.target, o.relation).value;
  }

  /** An edge that was there already: each relation about it adds one version, and its confidence rises to
      what the surest of them is worth, or stays if it was higher. */
  lemma AnswerRaisesEdge(g: Graph, entities: seq<Entity>, relations: seq<Relation>, isFollowup: bool, supply: seq<Id>,
                         o: Edge)
    returns (later: Edge)
    requires |supply| == |entities| && UniqueTriples(g.edges) && o in g.edges
    ensures later in Written(g, entities, relations, isFollowup, supply).edges
    ensures var p := PlacedAll(g.concepts, entities, supply);
            var count, surest := |Filter(relations, AboutTest(p, o))|, Surest(p, relations, isFollowup, o);
            later == o.(version := o.version + count,
                        confidence := if count > 0 && surest > o.confidence then surest else o.confidence)
  {
    var p := PlacedAll(g.concepts, entities, supply);
    var log := LogFor(p, relations, isFollowup);
    later := LoggedEdge(g.edges, log, o);
    LogCounts(p, relations, isFollowup, o);
    if m :| LargestIn(log, o.source, o.target, o.relation, m) && later.confidence == Max(o.confidence, m) {
      LargestIsSurest(p, relations, isFollowup, o, m);
    }
  }

  lemma FirstIsOnly(edges: seq<Edge>, o: Edge)
    requires UniqueTriples(edges) && o in edges
    ensures FirstEdge(edges, o.source, o.target, o.relation) == Some(o)
  {
    FirstEdgeIsTriple(edges, o.source, o.target, o.relation);
    var first := FirstEdge(edges, o.source, o.target, o.relation).value;
    var i :| 0 <= i < |edges| && edges[i] == o;
    var j :| 0 <= j < |edges| && edges[j] == first;
    assert SameTriple(edges[i], edges[j]);
  }

  /** An upsert sets every stored copy of the triple to the same confidence and version, and touches no other
      edge. */
  lemma UpsertSetsEveryCopy(edges: seq<Edge>, w: EdgeWrite)
    ensures forall i :: 0 <= i < |edges| ==>
              var e, later := edges[i], Upserted(edges, w)[i];
              if IsTriple(e, w.source, w.target, w.relation) then
                exists first ::
                  && first in edges && IsTriple(first, w.source, w.target, w.relation)
                  && later == e.(confidence := if w.confidence > first.confidence then w.confidence
                                               else first.confidence,
                                 version := first.version + 1)
              else later == e
  {
    FirstEdgeIsTriple(edges, w.source, w.target, w.relation);
  }
}
