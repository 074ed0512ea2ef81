/** The gate and the writer together: what runs of answers keep true of the graph. */
module ConsistencyTheorems {
  import opened Common
  import opened GraphWriter
  import opened GraphTheorems
  import opened AnswerProcessor
  import B = BoundedSearch
  import D = GapDetector
  import R = GapReports

  /** Edge e runs from a concept labelled s to a concept labelled t. */
  ghost predicate Between(g: Graph, e: Edge, s: string, t: string) {
    Named(g.concepts, e.source, s) && Named(g.concepts, e.target, t)
  }

  /** No two edges between the same labels carry different relations. */
  ghost predicate Consistent(g: Graph) {
    forall e, f, s, t :: e in g.edges && f in g.edges && Between(g, e, s, t) && Between(g, f, s, t) ==>
        e.relation == f.relation
  }

  ghost predicate AtLeast(edges: seq<Edge>, confidence: real) {
    forall e :: e in edges ==> e.confidence >= confidence
  }

  /** The answer does not contradict itself on ends that will be known when it is written. */
  ghost predicate Agrees(g: Graph, entities: seq<Entity>, relations: seq<Relation>) {
    forall i, j :: 0 <= i < |relations| && 0 <= j < |relations|
      && relations[i].source == relations[j].source && relations[i].target == relations[j].target
      && Known(g, entities, relations[i].source) && Known(g, entities, relations[i].target)
      ==> relations[i].relationType == relations[j].relationType
  }

  lemma {:induction false} TextOfIsName(concepts: seq<Concept>, id: Id, text: string)
    requires UniqueIds(concepts)
    ensures TextOf(concepts, id) == Some(text) <==> Named(concepts, id, text)
  {
    if concepts != [] {
      TextOfIsName(concepts[1..], id, text);
      if Named(concepts, id, text) && concepts[0].id != id {
        var i :| 0 <= i < |concepts| && concepts[i].id == id && concepts[i].text == text;
        assert concepts[1..][i - 1] == concepts[i];
      }
      if Named(concepts[1..], id, text) {
        var i :| 0 <= i < |concepts| - 1 && concepts[1..][i].id == id && concepts[1..][i].text == text;
        assert concepts[i + 1].id == id && concepts[i + 1].text == text;
      }
    }
  }

  /** Where an edge between s and t comes from: the graph before, or a relation between s and t. */
  lemma OriginBetween(g: Graph, entities: seq<Entity>, relations: seq<Relation>, supply: seq<Id>, e: Edge, s: string,
                      t: string)
    returns (present: bool, o: Edge, i: nat)
    requires |supply| == |entities| && WellFormed(g) && FreshFor(g.concepts, supply)
    requires var g' := Written(g, entities, relations, false, supply); e in g'.edges && Between(g', e, s, t)
    ensures present ==> o in g.edges && SameTriple(o, e) && Between(g, o, s, t)
    ensures !present ==>
            i < |relations| && relations[i].source == s && relations[i].target == t
            && relations[i].relationType == e.relation
            && Known(g, entities, s) && Known(g, entities, t)
  {
    var p := PlacedAll(g.concepts, entities, supply);
    var log := LogFor(p, relations, false);
    PlacedAllKeeps(g.concepts, entities, supply);
    EdgeOrigin(g.edges, log, e);
    o, i := e, 0;
    present := exists o :: o in g.edges && SameTriple(o, e);
    if present {
      o :| o in g.edges && SameTriple(o, e);
      EvolvesKeepsNames(g.concepts, p.concepts, e.source, s);
      EvolvesKeepsNames(g.concepts, p.concepts, e.target, t);
    } else {
      var w :| w in log && IsWriteOf(w, e.source, e.target, e.relation);
      i := LogEndsAreNamed(g, entities, relations, false, supply, w);
      NameIsUnique(p.concepts, e.source, s, relations[i].source);
      NameIsUnique(p.concepts, e.target, t, relations[i].target);
    }
  }

  /** A relation whose ends are known has its edge afterwards. */
  lemma RelationIsWritten(g: Graph, entities: seq<Entity>, relations: seq<Relation>, supply: seq<Id>, i: nat)
    returns (e: Edge)
    requires |supply| == |entities| && WellFormed(g) && FreshFor(g.concepts, supply)
    requires i < |relations| && Known(g, entities, relations[i].source) && Known(g, entities, relations[i].target)
    ensures var g' := Written(g, entities, relations, false, supply);
            e in g'.edges && Between(g', e, relations[i].source, relations[i].target)
            && e.relation == relations[i].relationType
  {
    var p := PlacedAll(g.concepts, entities, supply);
    ResolvedIdIsNamed(g, entities, supply, relations[i].source);
    ResolvedIdIsNamed(g, entities, supply, relations[i].target);
    var w := WriteFor(p, relations[i], false).value;
    LogForContents(p, relations, false, w);
    e := WrittenEdgeExists(g.edges, LogFor(p, relations, false), w);
  }

  /** The gate rules out that an old edge and a new relation disagree on the same labels. */
  lemma GateSeparates(g: Graph, relations: seq<Relation>, o: Edge, i: nat)
    requires UniqueIds(g.concepts) && AtLeast(g.edges, INFERRED_CONFIDENCE) && Passes(g, relations)
    requires o in g.edges && i < |relations| && Between(g, o, relations[i].source, relations[i].target)
    ensures o.relation == relations[i].relationType
  {
    TextOfIsName(g.concepts, o.source, relations[i].source);
    TextOfIsName(g.concepts, o.target, relations[i].target);
    assert relations[i] in relations;
    assert !Contradicts(g, o, relations[i]);
  }

  /** An accepted answer keeps a consistent graph consistent exactly when it agrees with itself. */
  lemma GateKeepsConsistency(g: Graph, entities: seq<Entity>, relations: seq<Relation>, supply: seq<Id>)
    requires |supply| == |entities| && WellFormed(g) && FreshFor(g.concepts, supply)
    requires Consistent(g) && AtLeast(g.edges, INFERRED_CONFIDENCE) && Passes(g, relations)
    ensures Consistent(Written(g, entities, relations, false, supply)) <==> Agrees(g, entities, relations)
  {
    var g' := Written(g, entities, relations, false, supply);
    if Agrees(g, entities, relations) {
      forall e, f, s, t | e in g'.edges && f in g'.edges && Between(g', e, s, t) && Between(g', f, s, t)
        ensures e.relation == f.relation
      {
        var oldE, oe, i := OriginBetween(g, entities, relations, supply, e, s, t);
        var oldF, of, j := OriginBetween(g, entities, relations, supply, f, s, t);
        if oldE && !oldF {
          GateSeparates(g, relations, oe, j);
        } else if !oldE && oldF {
          GateSeparates(g, relations, of, i);
        }
      }
    }
    if Consistent(g') {
      forall i, j | 0 <= i < |relations| && 0 <= j < |relations|
          && relations[i].source == relations[j].source && relations[i].target == relations[j].target
          && Known(g, entities, relations[i].source) && Known(g, entities, relations[i].target)
        ensures relations[i].relationType == relations[j].relationType
      {
        var e := RelationIsWritten(g, entities, relations, supply, i);
        var f := RelationIsWritten(g, entities, relations, supply, j);
        assert Between(g', e, relations[i].source, relations[i].target)
               && Between(g', f, relations[i].source, relations[i].target);
      }
    }
  }

  /** What the gate looks for, in labels: no edge above 0.5 between the labels of a relation says
      anything else. */
  lemma PassesMeansNoRival(g: Graph, relations: seq<Relation>)
    requires UniqueIds(g.concepts)
    ensures Passes(g, relations) <==>
            forall e, r :: e in g.edges && r in relations && Between(g, e, r.source, r.target) && e.confidence > 0.5 ==>
              e.relation == r.relationType
  {
    forall e, r | e in g.edges && r in relations
      ensures Contradicts(g, e, r) <==>
              Between(g, e, r.source, r.target) && e.confidence > 0.5 && e.relation != r.relationType
    {
      TextOfIsName(g.concepts, e.source, r.source);
      TextOfIsName(g.concepts, e.target, r.target);
    }
  }

  /** An edge of the graph is still there after a write, between the same labels. */
  lemma EdgeSurvives(g: Graph, entities: seq<Entity>, relations: seq<Relation>, supply: seq<Id>, e: Edge, s: string,
                     t: string)
    returns (later: Edge)
    requires |supply| == |entities| && WellFormed(g) && FreshFor(g.concepts, supply)
    requires e in g.edges && Between(g, e, s, t)
    ensures var g' := Written(g, entities, relations, false, supply);
            later in g'.edges && SameTriple(later, e) && Between(g', later, s, t)
  {
    var p := PlacedAll(g.concepts, entities, supply);
    var log := LogFor(p, relations, false);
    PlacedAllKeeps(g.concepts, entities, supply);
    EvolvesKeepsNames(g.concepts, p.concepts, e.source, s);
    EvolvesKeepsNames(g.concepts, p.concepts, e.target, t);
    LogDeterminesEdge(g.edges, log, e.source, e.target, e.relation);
    FirstEdgeIsTriple(g.edges, e.source, e.target, e.relation);
    FirstEdgeIsTriple(Logged(g.edges, log), e.source, e.target, e.relation);
    later := FirstEdge(Logged(g.edges, log), e.source, e.target, e.relation).value;
  }

  /** A refusal is justified: writing a refused answer would leave two relations between the same labels. */
  lemma RefusalIsJustified(g: Graph, entities: seq<Entity>, relations: seq<Relation>, supply: seq<Id>)
    requires |supply| == |entities| && WellFormed(g) && FreshFor(g.concepts, supply) && !Passes(g, relations)
    ensures !Consistent(Written(g, entities, relations, false, supply))
  {
    var r, e :| r in relations && e in g.edges && Contradicts(g, e, r);
    TextOfIsName(g.concepts, e.source, r.source);
    TextOfIsName(g.concepts, e.target, r.target);
    var i :| 0 <= i < |relations| && relations[i] == r;
    NamedIsKnown(g, entities, e.source, r.source);
    NamedIsKnown(g, entities, e.target, r.target);
    var f := RelationIsWritten(g, entities, relations, supply, i);
    var later := EdgeSurvives(g, entities, relations, supply, e, r.source, r.target);
    assert later.relation != f.relation;
  }

  lemma NamedIsKnown(g: Graph, entities: seq<Entity>, id: Id, text: string)
    requires Named(g.concepts, id, text)
    ensures Known(g, entities, text)
  {
  }

  /** On a good graph, writing an answer keeps it consistent exactly when the gate lets the answer pass
      and the answer agrees with itself: no accepted answer contradicts the graph, no refused one would
      have been harmless. */
  lemma GateIsExact(g: Graph, entities: seq<Entity>, relations: seq<Relation>, supply: seq<Id>)
    requires |supply| == |entities| && FreshFor(g.concepts, supply)
    requires WellFormed(g) && Consistent(g) && AtLeast(g.edges, INFERRED_CONFIDENCE)
    ensures Consistent(Written(g, entities, relations, false, supply)) <==>
            Passes(g, relations) && Agrees(g, entities, relations)
  {
    if Passes(g, relations) {
      GateKeepsConsistency(g, entities, relations, supply);
    } else {
      RefusalIsJustified(g, entities, relations, supply);
    }
  }

  /** The same for the verdict: an unambiguous answer of confidence 0.5 or more is either written, or
      writing it would break consistency, whatever else it says. */
  lemma ConflictIsJustified(g: Graph, x: Extraction, supply: seq<Id>)
    requires |supply| == |x.entities| && WellFormed(g) && FreshFor(g.concepts, supply)
    requires !x.isAmbiguous && x.overallConfidence >= 0.5
    ensures Answered(g, x, supply) == Written(g, x.entities, x.relations, false, supply)
            || (Answered(g, x, supply) == g && !Consistent(Written(g, x.entities, x.relations, false, supply)))
    ensures Consistent(Written(g, x.entities, x.relations, false, supply)) ==> Accepted(g, x)
  {
    if !Passes(g, x.relations) {
      RefusalIsJustified(g, x.entities, x.relations, supply);
    }
  }

  /** The gate compares an answer with the stored graph only: on an empty graph it accepts an answer
      that contradicts itself, and the write leaves the graph inconsistent. */
  lemma SelfContradictionPassesGate()
    ensures var g, entities := Graph([], []), [Entity("order", 0.9), Entity("kitchen", 0.9)];
            var relations := [Relation("order", "kitchen", "feeds", 0.9), Relation("order", "kitchen", "blocks", 0.9)];
            Accepted(g, Extraction(false, 0.9, entities, relations))
            && !Consistent(Written(g, entities, relations, false, ["concept-a", "concept-b"]))
  {
    var g, entities, supply :=
        Graph([], []), [Entity("order", 0.9), Entity("kitchen", 0.9)], ["concept-a", "concept-b"];
    var relations := [Relation("order", "kitchen", "feeds", 0.9), Relation("order", "kitchen", "blocks", 0.9)];
    assert entities[0].text == "order" && entities[1].text == "kitchen";
    assert supply[0] != supply[1] by {
      assert "concept-a"[8] != "concept-b"[8];
    }
    assert FreshFor(g.concepts, supply);
    assert relations[0].relationType != relations[1].relationType by {
      assert "feeds"[0] != "blocks"[0];
    }
    assert Known(g, entities, relations[0].source) && Known(g, entities, relations[0].target);
    assert !Agrees(g, entities, relations);
    GateKeepsConsistency(g, entities, relations, supply);
  }

  // ---------- confidence ----------

  lemma UpsertedAtLeast(edges: seq<Edge>, w: EdgeWrite, confidence: real)
    requires AtLeast(edges, confidence) && w.confidence >= confidence
    ensures AtLeast(Upserted(edges, w), confidence)
  {
    FirstEdgeIsTriple(edges, w.source, w.target, w.relation);
  }

  lemma {:induction false} LoggedAtLeast(edges: seq<Edge>, log: seq<EdgeWrite>, confidence: real)
    requires AtLeast(edges, confidence) && forall w :: w in log ==> w.confidence >= confidence
    ensures AtLeast(Logged(edges, log), confidence)
  {
    if log != [] {
      LoggedAtLeast(edges, log[..|log| - 1], confidence);
      UpsertedAtLeast(Logged(edges, log[..|log| - 1]), log[|log| - 1], confidence);
    }
  }

  lemma WrittenAtLeast(g: Graph, entities: seq<Entity>, relations: seq<Relation>, isFollowup: bool, supply: seq<Id>)
    requires |supply| == |entities| && AtLeast(g.edges, INFERRED_CONFIDENCE)
    ensures AtLeast(Written(g, entities, relations, isFollowup, supply).edges, INFERRED_CONFIDENCE)
  {
    var p := PlacedAll(g.concepts, entities, supply);
    var log := LogFor(p, relations, isFollowup);
    forall w | w in log
      ensures w.confidence >= INFERRED_CONFIDENCE
    {
      LogForContents(p, relations, isFollowup, w);
    }
    LoggedAtLeast(g.edges, log, INFERRED_CONFIDENCE);
  }

  // ---------- runs of answers ----------

  datatype Submission = Submission(x: Extraction, supply: seq<Id>)

  ghost predicate Supplied(submission: Submission) {
    |submission.supply| == |submission.x.entities|
  }

  ghost function AnswerAll(g: Graph, submissions: seq<Submission>): Graph
    requires forall a :: a in submissions ==> Supplied(a)
    decreases |submissions|
  {
    if submissions == [] then g else
      var n := |submissions| - 1;
      assert Supplied(submissions[n]);
      Answered(AnswerAll(g, submissions[..n]), submissions[n].x, submissions[n].supply)
  }

  /** Each answer is given fresh ids, and does not contradict itself on the graph it meets. */
  ghost predicate GoodRun(g: Graph, submissions: seq<Submission>)
    requires forall a :: a in submissions ==> Supplied(a)
  {
    forall n :: 0 <= n < |submissions| ==>
      var before := AnswerAll(g, submissions[..n]);
      && FreshFor(before.concepts, submissions[n].supply)
      && (Accepted(before, submissions[n].x) ==>
            Agrees(before, submissions[n].x.entities, submissions[n].x.relations))
  }

  ghost predicate GoodGraph(g: Graph) {
    WellFormed(g) && Consistent(g) && AtLeast(g.edges, INFERRED_CONFIDENCE)
  }

  /** Over any such run, on any good graph: no two edges between the same labels ever disagree, and no
      edge falls below 0.6. */
  lemma {:induction false} AnswersStayConsistent(g: Graph, submissions: seq<Submission>)
    requires forall a :: a in submissions ==> Supplied(a)
    requires GoodGraph(g) && GoodRun(g, submissions)
    ensures GoodGraph(AnswerAll(g, submissions))
  {
    if submissions != [] {
      var n := |submissions| - 1;
      assert Supplied(submissions[n]);
      forall k | 0 <= k < n
        ensures var before := AnswerAll(g, submissions[..n][..k]);
                FreshFor(before.concepts, submissions[..n][k].supply) &&
                (Accepted(before, submissions[..n][k].x) ==>
                 Agrees(before, submissions[..n][k].x.entities, submissions[..n][k].x.relations))
      {
        assert submissions[..n][..k] == submissions[..k];
      }
      AnswersStayConsistent(g, submissions[..n]);
      var before, x := AnswerAll(g, submissions[..n]), submissions[n].x;
      assert FreshFor(before.concepts, submissions[n].supply);
      if Accepted(before, x) {
        GateKeepsConsistency(before, x.entities, x.relations, submissions[n].supply);
        WrittenKeeps(before, x.entities, x.relations, false, submissions[n].supply);
        WrittenAtLeast(before, x.entities, x.relations, false, submissions[n].supply);
      }
    }
  }

  /** In particular from any concepts without edges, such as those of a new agent type. */
  lemma AnswersFromNoEdges(concepts: seq<Concept>, submissions: seq<Submission>)
    requires forall a :: a in submissions ==> Supplied(a)
    requires UniqueIds(concepts) && GoodRun(Graph(concepts, []), submissions)
    ensures Consistent(AnswerAll(Graph(concepts, []), submissions))
    ensures AtLeast(AnswerAll(Graph(concepts, []), submissions).edges, INFERRED_CONFIDENCE)
  {
    AnswersStayConsistent(Graph(concepts, []), submissions);
  }

  /** The edge rows the gap detector loads, in any order. */
  ghost predicate LoadedFrom(records: seq<B.EdgeRecord>, edges: seq<Edge>) {
    forall r :: r in records ==> exists e :: e in edges && r == B.EdgeRecord(e.source, e.target, e.confidence)
  }

  /** After any such run the gap detector finds no low-confidence gap. */
  lemma NoLowConfidenceGaps(g: Graph, submissions: seq<Submission>, concepts: D.Concepts, records: seq<B.EdgeRecord>,
                            outgoing: D.Grouped, incoming: D.Grouped,
                            orphans: seq<D.KnowledgeGap>, low: seq<D.KnowledgeGap>, unexplored: seq<D.KnowledgeGap>)
    requires forall a :: a in submissions ==> Supplied(a)
    requires GoodGraph(g) && GoodRun(g, submissions)
    requires LoadedFrom(records, AnswerAll(g, submissions).edges)
    requires R.Classes(concepts, records, outgoing, incoming, orphans, low, unexplored)
    ensures low == []
  {
    AnswersStayConsistent(g, submissions);
    assert R.AllStrong(records);
    R.NoGapsMeansFullyExplored(concepts, records, outgoing, incoming, orphans, low, unexplored);
  }
}
