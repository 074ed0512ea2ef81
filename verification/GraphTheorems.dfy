/** What every sequence of writes keeps. */
module GraphTheorems {
  import opened Common
  import opened GraphWriter

  // ---------- well-formed graphs ----------

  ghost predicate HasId(concepts: seq<Concept>, id: Id) {
    exists i :: 0 <= i < |concepts| && concepts[i].id == id
  }

  /** Ids are a primary key and, as generated, never empty. */
  ghost predicate UniqueIds(concepts: seq<Concept>) {
    && (forall i, j :: 0 <= i < j < |concepts| ==> concepts[i].id != concepts[j].id)
    && (forall i :: 0 <= i < |concepts| ==> concepts[i].id != "")
  }

  ghost predicate UniqueTexts(concepts: seq<Concept>) {
    forall i, j :: 0 <= i < j < |concepts| ==> concepts[i].text != concepts[j].text
  }

  ghost predicate SameTriple(a: Edge, b: Edge) {
    a.source == b.source && a.target == b.target && a.relation == b.relation
  }

  ghost predicate UniqueTriples(edges: seq<Edge>) {
    forall i, j :: 0 <= i < j < |edges| ==> !SameTriple(edges[i], edges[j])
  }

  ghost predicate WellFormed(g: Graph) {
    && UniqueIds(g.concepts)
    && forall e :: e in g.edges ==> HasId(g.concepts, e.source) && HasId(g.concepts, e.target)
  }

  /** Newly generated ids: non-empty, distinct and unused. */
  ghost predicate FreshFor(concepts: seq<Concept>, supply: seq<Id>) {
    && Distinct(supply)
    && forall id :: id in supply ==> id != "" && !HasId(concepts, id)
  }

  predicate Named(concepts: seq<Concept>, id: Id, text: string) {
    exists i :: 0 <= i < |concepts| && concepts[i].id == id && concepts[i].text == text
  }

  lemma NameIsUnique(concepts: seq<Concept>, id: Id, a: string, b: string)
    requires UniqueIds(concepts) && Named(concepts, id, a) && Named(concepts, id, b)
    ensures a == b
  {
  }

  // ---------- concepts ----------

  /** Concepts stay where they are with id, text and namespace; confidence never falls. */
  ghost predicate Evolves(concepts: seq<Concept>, later: seq<Concept>) {
    && |concepts| <= |later|
    && forall i :: 0 <= i < |concepts| ==>
         later[i] == concepts[i].(confidence := later[i].confidence) && later[i].confidence >= concepts[i].confidence
  }

  lemma EvolvesKeepsNames(concepts: seq<Concept>, later: seq<Concept>, id: Id, text: string)
    requires Evolves(concepts, later)
    ensures Named(concepts, id, text) ==> Named(later, id, text)
    ensures HasId(concepts, id) ==> HasId(later, id)
    ensures UniqueIds(later) && HasId(concepts, id) && Named(later, id, text) ==> Named(concepts, id, text)
  {
    if Named(concepts, id, text) {
      var i :| 0 <= i < |concepts| && concepts[i].id == id && concepts[i].text == text;
      assert later[i].id == id && later[i].text == text;
    }
    if HasId(concepts, id) {
      var i :| 0 <= i < |concepts| && concepts[i].id == id;
      assert later[i].id == id;
    }
  }

  lemma {:induction false} FirstWithTextIsIt(concepts: seq<Concept>, text: string)
    ensures match FirstWithText(concepts, text)
            case None => forall i :: 0 <= i < |concepts| ==> concepts[i].text != text
            case Some(c) => c in concepts && c.text == text && Named(concepts, c.id, text)
  {
    if concepts != [] && concepts[0].text != text {
      FirstWithTextIsIt(concepts[1..], text);
      assert concepts == [concepts[0]] + concepts[1..];
      if FirstWithText(concepts, text).Some? {
        var c := FirstWithText(concepts, text).value;
        var i :| 0 <= i < |concepts| && concepts[i] == c;
      }
    }
  }

  /** No ids but those of the earlier table and the extra ones. */
  ghost predicate IdsWithin(later: seq<Concept>, concepts: seq<Concept>, extra: set<Id>) {
    forall x {:trigger HasId(later, x)} :: HasId(later, x) ==> HasId(concepts, x) || x in extra
  }

  /** Appending a concept under an unused id. */
  lemma AppendKeeps(concepts: seq<Concept>, c: Concept)
    requires UniqueIds(concepts) && c.id != "" && !HasId(concepts, c.id)
    requires forall i :: 0 <= i < |concepts| ==> concepts[i].text != c.text
    ensures Evolves(concepts, concepts + [c]) && UniqueIds(concepts + [c]) && Named(concepts + [c], c.id, c.text)
    ensures UniqueTexts(concepts) ==> UniqueTexts(concepts + [c])
    ensures IdsWithin(concepts + [c], concepts, {c.id})
  {
    assert (concepts + [c])[|concepts|] == c;
    forall x | HasId(concepts + [c], x) && x != c.id
      ensures HasId(concepts, x)
    {
      var j :| 0 <= j < |concepts| + 1 && (concepts + [c])[j].id == x;
      assert concepts[j].id == x;
    }
  }

  /** Raising one concept's confidence. */
  lemma RaiseKeeps(concepts: seq<Concept>, k: nat, confidence: real)
    requires UniqueIds(concepts) && k < |concepts| && confidence > concepts[k].confidence
    ensures Raised(concepts, concepts[k].id, confidence) == concepts[k := concepts[k].(confidence := confidence)]
    ensures var later := Raised(concepts, concepts[k].id, confidence);
            Evolves(concepts, later) && UniqueIds(later) && (UniqueTexts(concepts) ==> UniqueTexts(later))
    ensures IdsWithin(Raised(concepts, concepts[k].id, confidence), concepts, {})
  {
    var later := concepts[k := concepts[k].(confidence := confidence)];
    assert Raised(concepts, concepts[k].id, confidence) == later;
    forall x | HasId(later, x)
      ensures HasId(concepts, x)
    {
      var j :| 0 <= j < |later| && later[j].id == x;
      assert concepts[j].id == x;
    }
  }

  /** Re-confirming a concept. */
  lemma MatchKeeps(concepts: seq<Concept>, c: Concept, confidence: real)
    requires UniqueIds(concepts) && c in concepts && Named(concepts, c.id, c.text)
    ensures var later := if confidence > c.confidence then Raised(concepts, c.id, confidence) else concepts;
            && Evolves(concepts, later) && UniqueIds(later) && |later| == |concepts|
            && Named(later, c.id, c.text)
            && (UniqueTexts(concepts) ==> UniqueTexts(later))
            && IdsWithin(later, concepts, {})
  {
    if confidence > c.confidence {
      var k :| 0 <= k < |concepts| && concepts[k] == c;
      RaiseKeeps(concepts, k, confidence);
      EvolvesKeepsNames(concepts, Raised(concepts, c.id, confidence), c.id, c.text);
    }
  }

  /** One entity: the concept table evolves and the returned id names a concept of that text. */
  lemma PlacedKeeps(concepts: seq<Concept>, entity: Entity, supply: Id)
    requires UniqueIds(concepts) && supply != "" && !HasId(concepts, supply)
    ensures var (later, id) := Placed(concepts, entity, supply);
            && Evolves(concepts, later) && UniqueIds(later)
            && Named(later, id, entity.text)
            && (UniqueTexts(concepts) ==> UniqueTexts(later))
            && IdsWithin(later, concepts, {supply})
            && |later| == |concepts| + if FirstWithText(concepts, entity.text).None? then 1 else 0
  {
    FirstWithTextIsIt(concepts, entity.text);
    var (later, id) := Placed(concepts, entity, supply);
    match FirstWithText(concepts, entity.text)
    case None =>
      var c := Concept(supply, entity.text, Task, entity.confidence);
      AppendKeeps(concepts, c);
      assert later == concepts + [c] && id == c.id;
    case Some(c) =>
      MatchKeeps(concepts, c, entity.confidence);
      assert id == c.id;
  }

  /** Only concept k differs, the first with the entity's label: it has the larger confidence. */
  ghost predicate RaisedAt(concepts: seq<Concept>, later: seq<Concept>, k: nat, entity: Entity) {
    && k < |concepts| && concepts[k].text == entity.text
    && (forall i :: 0 <= i < k ==> concepts[i].text != entity.text)
    && later == concepts[k := concepts[k].(confidence := Max(concepts[k].confidence, entity.confidence))]
  }

  /** An entity whose label is new adds one task concept; otherwise only the first concept of that
      label changes, to the larger of the two confidences. */
  lemma PlacedIsMax(concepts: seq<Concept>, entity: Entity, supply: Id)
    requires UniqueIds(concepts)
    ensures var (later, id) := Placed(concepts, entity, supply);
            if forall i :: 0 <= i < |concepts| ==> concepts[i].text != entity.text then
              id == supply && later == concepts + [Concept(supply, entity.text, Task, entity.confidence)]
            else
              exists k: nat :: RaisedAt(concepts, later, k, entity) && id == concepts[k].id
  {
    FirstWithTextIsIt(concepts, entity.text);
    var first := FirstWithText(concepts, entity.text);
    if first.Some? {
      var k := FirstTextAt(concepts, entity.text);
      if entity.confidence > first.value.confidence {
        RaiseKeeps(concepts, k, entity.confidence);
      } else {
        assert concepts == concepts[k := concepts[k]];
      }
      assert RaisedAt(concepts, Placed(concepts, entity, supply).0, k, entity);
    }
  }

  lemma {:induction false} FirstTextAt(concepts: seq<Concept>, text: string) returns (k: nat)
    requires FirstWithText(concepts, text).Some?
    ensures k < |concepts| && concepts[k] == FirstWithText(concepts, text).value && concepts[k].text == text
    ensures forall i :: 0 <= i < k ==> concepts[i].text != text
  {
    if concepts[0].text == text {
      k := 0;
    } else {
      var j := FirstTextAt(concepts[1..], text);
      k := j + 1;
    }
  }

  lemma EvolvesTransitive(a: seq<Concept>, b: seq<Concept>, c: seq<Concept>)
    requires Evolves(a, b) && Evolves(b, c)
    ensures Evolves(a, c)
  {
  }

  /** The name table covers exactly the entities' texts and is right about each. */
  ghost predicate TextsOk(concepts: seq<Concept>, entities: seq<Entity>, textToId: map<string, Id>) {
    && (forall t :: t in textToId <==> exists i :: 0 <= i < |entities| && entities[i].text == t)
    && (forall t :: t in textToId ==> Named(concepts, textToId[t], t))
  }

  lemma TextsGrow(concepts: seq<Concept>, later: seq<Concept>, entities: seq<Entity>, textToId: map<string, Id>, id: Id)
    requires entities != [] && TextsOk(concepts, entities[..|entities| - 1], textToId)
    requires Evolves(concepts, later) && Named(later, id, entities[|entities| - 1].text)
    ensures TextsOk(later, entities, textToId[entities[|entities| - 1].text := id])
  {
    var n := |entities| - 1;
    var textToId' := textToId[entities[n].text := id];
    forall t
      ensures t in textToId' <==> exists i :: 0 <= i < |entities| && entities[i].text == t
      ensures t in textToId' ==> Named(later, textToId'[t], t)
    {
      if t in textToId {
        EvolvesKeepsNames(concepts, later, textToId[t], t);
        var i :| 0 <= i < n && entities[..n][i].text == t;
        assert entities[i].text == t;
      }
      if t != entities[n].text && exists i :: 0 <= i < |entities| && entities[i].text == t {
        var i :| 0 <= i < |entities| && entities[i].text == t;
        assert entities[..n][i].text == t;
      }
    }
  }

  ghost predicate PlacementOk(concepts: seq<Concept>, entities: seq<Entity>, supply: seq<Id>, p: Placement) {
    && Evolves(concepts, p.concepts) && UniqueIds(p.concepts)
    && TextsOk(p.concepts, entities, p.textToId)
    && (UniqueTexts(concepts) ==> UniqueTexts(p.concepts))
    && IdsWithin(p.concepts, concepts, SetOf(supply))
    && |p.concepts| == |concepts| + p.created
  }

  /** All entities of an answer. */
  lemma {:induction false} PlacedAllKeeps(concepts: seq<Concept>, entities: seq<Entity>, supply: seq<Id>)
    requires |supply| == |entities| && UniqueIds(concepts) && FreshFor(concepts, supply)
    ensures PlacementOk(concepts, entities, supply, PlacedAll(concepts, entities, supply))
  {
    if entities != [] {
      var n := |entities| - 1;
      assert forall id :: id in supply[..n] ==> id in supply;
      PlacedAllKeeps(concepts, entities[..n], supply[..n]);
      var before := PlacedAll(concepts, entities[..n], supply[..n]);
      assert supply == supply[..n] + [supply[n]];
      assert supply[n] in supply && supply[n] !in supply[..n];
      assert !HasId(before.concepts, supply[n]);
      PlacedKeeps(before.concepts, entities[n], supply[n]);
      PlacementGrows(concepts, entities, supply, before);
    }
  }

  lemma PlacementGrows(concepts: seq<Concept>, entities: seq<Entity>, supply: seq<Id>, before: Placement)
    requires |supply| == |entities| > 0
    requires PlacementOk(concepts, entities[..|entities| - 1], supply[..|entities| - 1], before)
    requires supply[|entities| - 1] != "" && !HasId(before.concepts, supply[|entities| - 1])
    ensures var n := |entities| - 1;
            var (later, id) := Placed(before.concepts, entities[n], supply[n]);
            var created := if FirstWithText(before.concepts, entities[n].text).None? then 1 else 0;
            PlacementOk(concepts, entities, supply,
                        Placement(later, before.textToId[entities[n].text := id], before.created + created))
  {
    var n := |entities| - 1;
    PlacedKeeps(before.concepts, entities[n], supply[n]);
    var (later, id) := Placed(before.concepts, entities[n], supply[n]);
    EvolvesTransitive(concepts, before.concepts, later);
    TextsGrow(before.concepts, later, entities, before.textToId, id);
  }

  // ---------- resolving relation ends ----------

  /** An end is known when the answer names it as an entity or the graph already has it. */
  ghost predicate Known(g: Graph, entities: seq<Entity>, text: string) {
    || (exists i :: 0 <= i < |entities| && entities[i].text == text)
    || (exists i :: 0 <= i < |g.concepts| && g.concepts[i].text == text)
  }

  lemma ResolvedIdIsNamed(g: Graph, entities: seq<Entity>, supply: seq<Id>, text: string)
    requires |supply| == |entities| && UniqueIds(g.concepts) && FreshFor(g.concepts, supply)
    ensures var p := PlacedAll(g.concepts, entities, supply);
            && (ResolvedId(p, text).Some? <==> Known(g, entities, text))
            && (ResolvedId(p, text).Some? ==> Named(p.concepts, ResolvedId(p, text).value, text))
  {
    PlacedAllKeeps(g.concepts, entities, supply);
    var p := PlacedAll(g.concepts, entities, supply);
    FirstWithTextIsIt(p.concepts, text);
    if text in p.textToId {
      assert Named(p.concepts, p.textToId[text], text);
    } else {
      assert forall i :: 0 <= i < |entities| ==> entities[i].text != text;
      if exists i :: 0 <= i < |g.concepts| && g.concepts[i].text == text {
        var i :| 0 <= i < |g.concepts| && g.concepts[i].text == text;
        assert p.concepts[i].text == text;
      }
      OnlyEntitiesAreAdded(g.concepts, entities, supply, text);
    }
  }

  lemma {:induction false} OnlyEntitiesAreAdded(concepts: seq<Concept>, entities: seq<Entity>, supply: seq<Id>,
                                                text: string)
    requires |supply| == |entities|
    requires forall i :: 0 <= i < |entities| ==> entities[i].text != text
    ensures (exists i ::
             0 <= i < |PlacedAll(concepts, entities, supply).concepts|
             && PlacedAll(concepts, entities, supply).concepts[i].text == text)
            ==> exists i :: 0 <= i < |concepts| && concepts[i].text == text
  {
    if entities != [] {
      var n := |entities| - 1;
      OnlyEntitiesAreAdded(concepts, entities[..n], supply[..n], text);
      var before, after :=
          PlacedAll(concepts, entities[..n], supply[..n]).concepts, PlacedAll(concepts, entities, supply).concepts;
      if exists i :: 0 <= i < |after| && after[i].text == text {
        var i :| 0 <= i < |after| && after[i].text == text;
        assert before[i].text == text;
      }
    }
  }

  // ---------- edges ----------

  /** What writing w does to the edge of any triple. */
  lemma {:induction false} UpsertedEdge(edges: seq<Edge>, w: EdgeWrite, source: Id, target: Id, relation: string)
    ensures FirstEdge(Upserted(edges, w), source, target, relation) ==
            if w.source == source && w.target == target && w.relation == relation then
              match FirstEdge(edges, source, target, relation)
              case None => Some(Edge(source, target, relation, w.confidence, 1))
              case Some(e) => Some(e.(confidence := Max(e.confidence, w.confidence), version := e.version + 1))
            else FirstEdge(edges, source, target, relation)
  {
    FirstEdgeIsTriple(edges, w.source, w.target, w.relation);
    FirstEdgeIsTriple(edges, source, target, relation);
    match FirstEdge(edges, w.source, w.target, w.relation)
    case None => FirstEdgeAppend(edges, Edge(w.source, w.target, w.relation, w.confidence, 1), source, target,
                                 relation);
    case Some(e) => FirstEdgeBumped(edges, w, Max(e.confidence, w.confidence), e.version + 1, source, target, relation);
  }

  lemma {:induction false} FirstEdgeAppend(edges: seq<Edge>, e: Edge, source: Id, target: Id, relation: string)
    ensures FirstEdge(edges + [e], source, target, relation) ==
            if FirstEdge(edges, source, target, relation).Some? then FirstEdge(edges, source, target, relation)
            else if IsTriple(e, source, target, relation) then Some(e) else None
  {
    if edges == [] {
      assert [] + [e] == [e];
    } else {
      FirstEdgeAppend(edges[1..], e, source, target, relation);
      assert (edges + [e])[1..] == edges[1..] + [e];
    }
  }

  lemma {:induction false} FirstEdgeBumped(edges: seq<Edge>, w: EdgeWrite, confidence: real, version: int, source: Id,
                                           target: Id, relation: string)
    ensures FirstEdge(Bumped(edges, w, confidence, version), source, target, relation) ==
            match FirstEdge(edges, source, target, relation)
            case None => None
            case Some(e) =>
              if IsTriple(e, w.source, w.target, w.relation) then Some(e.(confidence := confidence, version := version))
              else Some(e)
  {
    if edges != [] {
      FirstEdgeBumped(edges[1..], w, confidence, version, source, target, relation);
      assert Bumped(edges, w, confidence, version)[1..] == Bumped(edges[1..], w, confidence, version);
    }
  }

  predicate IsWriteOf(w: EdgeWrite, source: Id, target: Id, relation: string) {
    w.source == source && w.target == target && w.relation == relation
  }

  function CountIn(log: seq<EdgeWrite>, source: Id, target: Id, relation: string): nat {
    if log == [] then 0 else
      CountIn(log[..|log| - 1], source, target, relation)
      + if IsWriteOf(log[|log| - 1], source, target, relation) then 1 else 0
  }

  /** m is the largest confidence the log assigns to the triple. */
  ghost predicate LargestIn(log: seq<EdgeWrite>, source: Id, target: Id, relation: string, m: real) {
    && (forall w :: w in log && IsWriteOf(w, source, target, relation) ==> w.confidence <= m)
    && (exists w :: w in log && IsWriteOf(w, source, target, relation) && w.confidence == m)
  }

  /** After any sequence of edge writes: a triple that was absent has an edge exactly when it was
      written, its version is the number of times, its confidence the largest ever assigned; an edge
      that was present adds that number and keeps the larger confidence. */
  lemma {:induction false} LogDeterminesEdge(edges: seq<Edge>, log: seq<EdgeWrite>, source: Id, target: Id,
                                             relation: string)
    ensures var was, now, n :=
            FirstEdge(edges, source, target, relation), FirstEdge(Logged(edges, log), source, target, relation),
            CountIn(log, source, target, relation);
            && (now.Some? <==> was.Some? || n > 0)
            && (n == 0 ==> now == was)
            && (n > 0 ==> IsTriple(now.value, source, target, relation))
            && (n > 0 && was.None? ==>
                now.value.version == n && LargestIn(log, source, target, relation, now.value.confidence))
            && (n > 0 && was.Some? ==>
                  && now.value.version == was.value.version + n
                  && exists m ::
                      LargestIn(log, source, target, relation, m)
                      && now.value.confidence == Max(was.value.confidence, m))
  {
    if log != [] {
      var k := |log| - 1;
      var init, w := log[..k], log[k];
      LogDeterminesEdge(edges, init, source, target, relation);
      UpsertedEdge(Logged(edges, init), w, source, target, relation);
      assert log == init + [w];
      var was, mid, now :=
          FirstEdge(edges, source, target, relation), FirstEdge(Logged(edges, init), source, target, relation),
          FirstEdge(Logged(edges, log), source, target, relation);
      FirstEdgeIsTriple(Logged(edges, init), source, target, relation);
      if !IsWriteOf(w, source, target, relation) {
        forall m | LargestIn(init, source, target, relation, m)
          ensures LargestIn(log, source, target, relation, m)
        {
        }
      } else if CountIn(init, source, target, relation) == 0 {
        NotCounted(init, source, target, relation);
        assert LargestIn(log, source, target, relation, w.confidence);
      } else {
        var m :| LargestIn(init, source, target, relation, m) &&
                 if was.None? then mid.value.confidence == m else mid.value.confidence == Max(was.value.confidence, m);
        LargestGrows(init, w, source, target, relation, m);
      }
    }
  }

  lemma LargestGrows(init: seq<EdgeWrite>, w: EdgeWrite, source: Id, target: Id, relation: string, m: real)
    requires LargestIn(init, source, target, relation, m) && IsWriteOf(w, source, target, relation)
    ensures LargestIn(init + [w], source, target, relation, Max(m, w.confidence))
  {
    var v :| v in init && IsWriteOf(v, source, target, relation) && v.confidence == m;
    assert v in init + [w] && w in init + [w];
  }

  lemma {:induction false} NotCounted(log: seq<EdgeWrite>, source: Id, target: Id, relation: string)
    ensures CountIn(log, source, target, relation) == 0 <==>
            forall w :: w in log ==> !IsWriteOf(w, source, target, relation)
  {
    if log != [] {
      var k := |log| - 1;
      NotCounted(log[..k], source, target, relation);
      assert log == log[..k] + [log[k]];
    }
  }

  lemma {:induction false} FirstEdgeIsTriple(edges: seq<Edge>, source: Id, target: Id, relation: string)
    ensures match FirstEdge(edges, source, target, relation)
            case None => forall e :: e in edges ==> !IsTriple(e, source, target, relation)
            case Some(e) => e in edges && IsTriple(e, source, target, relation)
  {
    if edges != [] {
      FirstEdgeIsTriple(edges[1..], source, target, relation);
      assert edges == [edges[0]] + edges[1..];
    }
  }

  /** Edges stay where they are with their triple; confidence and version never fall. */
  ghost predicate EdgesEvolve(edges: seq<Edge>, later: seq<Edge>) {
    && |edges| <= |later|
    && forall i :: 0 <= i < |edges| ==>
         SameTriple(edges[i], later[i]) && later[i].confidence >= edges[i].confidence
         && later[i].version >= edges[i].version
  }

  lemma UpsertedKeeps(edges: seq<Edge>, w: EdgeWrite)
    requires UniqueTriples(edges)
    ensures UniqueTriples(Upserted(edges, w)) && EdgesEvolve(edges, Upserted(edges, w))
  {
    FirstEdgeIsTriple(edges, w.source, w.target, w.relation);
    var later := Upserted(edges, w);
    match FirstEdge(edges, w.source, w.target, w.relation)
    case None =>
      forall i | 0 <= i < |edges|
        ensures !SameTriple(later[i], later[|edges|])
      {
        assert edges[i] in edges;
      }
    case Some(e) =>
      var k :| 0 <= k < |edges| && edges[k] == e;
      forall i, j | 0 <= i < j < |later|
        ensures !SameTriple(later[i], later[j])
      {
        assert SameTriple(edges[i], later[i]) && SameTriple(edges[j], later[j]);
      }
      forall i | 0 <= i < |edges| && IsTriple(edges[i], w.source, w.target, w.relation)
        ensures i == k
      {
        assert SameTriple(edges[i], edges[k]);
      }
  }

  /** Any sequence of writes keeps at most one edge per triple and lowers no edge. */
  lemma {:induction false} LoggedKeeps(edges: seq<Edge>, log: seq<EdgeWrite>)
    requires UniqueTriples(edges)
    ensures UniqueTriples(Logged(edges, log)) && EdgesEvolve(edges, Logged(edges, log))
  {
    if log != [] {
      LoggedKeeps(edges, log[..|log| - 1]);
      UpsertedKeeps(Logged(edges, log[..|log| - 1]), log[|log| - 1]);
    }
  }

  /** Every edge afterwards was there before or was written. */
  lemma EdgeOrigin(edges: seq<Edge>, log: seq<EdgeWrite>, e: Edge)
    requires e in Logged(edges, log)
    ensures (exists o :: o in edges && SameTriple(o, e))
            || (exists w :: w in log && IsWriteOf(w, e.source, e.target, e.relation))
  {
    LogDeterminesEdge(edges, log, e.source, e.target, e.relation);
    FirstEdgeIsTriple(Logged(edges, log), e.source, e.target, e.relation);
    FirstEdgeIsTriple(edges, e.source, e.target, e.relation);
    NotCounted(log, e.source, e.target, e.relation);
    if FirstEdge(edges, e.source, e.target, e.relation).Some? {
      assert SameTriple(FirstEdge(edges, e.source, e.target, e.relation).value, e);
    }
  }

  /** Every written triple has its edge afterwards. */
  lemma WrittenEdgeExists(edges: seq<Edge>, log: seq<EdgeWrite>, w: EdgeWrite) returns (e: Edge)
    requires w in log
    ensures e in Logged(edges, log) && IsTriple(e, w.source, w.target, w.relation)
  {
    LogDeterminesEdge(edges, log, w.source, w.target, w.relation);
    NotCounted(log, w.source, w.target, w.relation);
    FirstEdgeIsTriple(Logged(edges, log), w.source, w.target, w.relation);
    e := FirstEdge(Logged(edges, log), w.source, w.target, w.relation).value;
  }

  // ---------- whole answers ----------

  lemma {:induction false} LogForContents(p: Placement, relations: seq<Relation>, isFollowup: bool, w: EdgeWrite)
    ensures w in LogFor(p, relations, isFollowup) <==>
            exists i :: 0 <= i < |relations| && WriteFor(p, relations[i], isFollowup) == Some(w)
  {
    if relations != [] {
      var n := |relations| - 1;
      LogForContents(p, relations[..n], isFollowup, w);
      AskedStep(p, relations, isFollowup, w);
    }
  }

  lemma AskedStep(p: Placement, relations: seq<Relation>, isFollowup: bool, w: EdgeWrite)
    requires relations != []
    ensures var n := |relations| - 1;
            (exists i :: 0 <= i < |relations| && WriteFor(p, relations[i], isFollowup) == Some(w)) <==>
            (exists i :: 0 <= i < n && WriteFor(p, relations[..n][i], isFollowup) == Some(w))
            || WriteFor(p, relations[n], isFollowup) == Some(w)
  {
    var n := |relations| - 1;
    if i :| 0 <= i < n && WriteFor(p, relations[..n][i], isFollowup) == Some(w) {
      assert relations[i] == relations[..n][i];
    }
    if i :| 0 <= i < n && WriteFor(p, relations[i], isFollowup) == Some(w) {
      assert relations[..n][i] == relations[i];
    }
  }

  function Skipped(p: Placement, relations: seq<Relation>, isFollowup: bool): nat {
    if relations == [] then 0 else
      var n := |relations| - 1;
      Skipped(p, relations[..n], isFollowup) + if WriteFor(p, relations[n], isFollowup).None? then 1 else 0
  }

  /** Every relation is written or skipped for an unknown end. */
  lemma {:induction false} RelationsAreAccountedFor(p: Placement, relations: seq<Relation>, isFollowup: bool)
    ensures |LogFor(p, relations, isFollowup)| + Skipped(p, relations, isFollowup) == |relations|
  {
    if relations != [] {
      RelationsAreAccountedFor(p, relations[..|relations| - 1], isFollowup);
    }
  }

  /** One answer: the graph stays well-formed, unique texts and unique triples survive, and nothing loses confidence. */
  lemma WrittenKeeps(g: Graph, entities: seq<Entity>, relations: seq<Relation>, isFollowup: bool, supply: seq<Id>)
    requires |supply| == |entities| && WellFormed(g) && FreshFor(g.concepts, supply)
    ensures var g' := Written(g, entities, relations, isFollowup, supply);
            && WellFormed(g') && Evolves(g.concepts, g'.concepts)
            && (UniqueTexts(g.concepts) ==> UniqueTexts(g'.concepts))
            && (UniqueTriples(g.edges) ==> UniqueTriples(g'.edges) && EdgesEvolve(g.edges, g'.edges))
  {
    PlacedAllKeeps(g.concepts, entities, supply);
    var p := PlacedAll(g.concepts, entities, supply);
    var log := LogFor(p, relations, isFollowup);
    var g' := Written(g, entities, relations, isFollowup, supply);
    forall e | e in g'.edges
      ensures HasId(g'.concepts, e.source) && HasId(g'.concepts, e.target)
    {
      EdgeOrigin(g.edges, log, e);
      if exists o :: o in g.edges && SameTriple(o, e) {
        var o :| o in g.edges && SameTriple(o, e);
        EvolvesKeepsNames(g.concepts, p.concepts, e.source, "");
        EvolvesKeepsNames(g.concepts, p.concepts, e.target, "");
      } else {
        var w :| w in log && IsWriteOf(w, e.source, e.target, e.relation);
        var i := LogEndsAreNamed(g, entities, relations, isFollowup, supply, w);
      }
    }
    if UniqueTriples(g.edges) {
      LoggedKeeps(g.edges, log);
    }
  }

  lemma LogEndsAreNamed(g: Graph, entities: seq<Entity>, relations: seq<Relation>, isFollowup: bool, supply: seq<Id>,
                        w: EdgeWrite) returns (i: nat)
    requires |supply| == |entities| && UniqueIds(g.concepts) && FreshFor(g.concepts, supply)
    requires w in LogFor(PlacedAll(g.concepts, entities, supply), relations, isFollowup)
    ensures var p := PlacedAll(g.concepts, entities, supply);
            && i < |relations| && WriteFor(p, relations[i], isFollowup) == Some(w)
            && Named(p.concepts, w.source, relations[i].source) && Named(p.concepts, w.target, relations[i].target)
            && HasId(p.concepts, w.source) && HasId(p.concepts, w.target)
            && Known(g, entities, relations[i].source) && Known(g, entities, relations[i].target)
            && w.relation == relations[i].relationType && w.confidence == AssignedConfidence(relations[i], isFollowup)
  {
    var p := PlacedAll(g.concepts, entities, supply);
    LogForContents(p, relations, isFollowup, w);
    i :| 0 <= i < |relations| && WriteFor(p, relations[i], isFollowup) == Some(w);
    ResolvedIdIsNamed(g, entities, supply, relations[i].source);
    ResolvedIdIsNamed(g, entities, supply, relations[i].target);
  }

  /** The name table is a cache: every label in it resolves as a lookup in the table would. */
  lemma {:induction false} NamesAreLookups(concepts: seq<Concept>, entities: seq<Entity>, supply: seq<Id>)
    requires |supply| == |entities|
    ensures var p := PlacedAll(concepts, entities, supply);
            NamesLookup(p.concepts, p.textToId)
  {
    if entities != [] {
      var n := |entities| - 1;
      NamesAreLookups(concepts, entities[..n], supply[..n]);
      var before := PlacedAll(concepts, entities[..n], supply[..n]);
      var p := PlacedAll(concepts, entities, supply);
      forall t | t in p.textToId
        ensures FirstWithText(p.concepts, t).Some? && p.textToId[t] == FirstWithText(p.concepts, t).value.id
      {
        PlacedLookup(before.concepts, entities[n], supply[n], t);
      }
    }
  }

  ghost predicate LookupKept(concepts: seq<Concept>, later: seq<Concept>, t: string) {
    FirstWithText(concepts, t).Some? ==>
      FirstWithText(later, t).Some? && FirstWithText(later, t).value.id == FirstWithText(concepts, t).value.id
  }

  lemma PlacedLookup(concepts: seq<Concept>, entity: Entity, supply: Id, t: string)
    ensures var (later, id) := Placed(concepts, entity, supply);
            && LookupKept(concepts, later, t)
            && (t == entity.text ==> FirstWithText(later, t).Some? && FirstWithText(later, t).value.id == id)
  {
    match FirstWithText(concepts, entity.text)
    case None => FirstWithTextAppend(concepts, Concept(supply, entity.text, Task, entity.confidence), t);
    case Some(c) => RaisedLookup(concepts, c.id, entity.confidence, t);
  }

  lemma {:induction false} FirstWithTextAppend(concepts: seq<Concept>, c: Concept, t: string)
    ensures FirstWithText(concepts + [c], t) ==
            if FirstWithText(concepts, t).Some? then FirstWithText(concepts, t)
            else if c.text == t then Some(c) else None
  {
    if concepts == [] {
      assert [] + [c] == [c];
    } else {
      FirstWithTextAppend(concepts[1..], c, t);
      assert (concepts + [c])[1..] == concepts[1..] + [c];
    }
  }

  /** So an end of a relation resolves to the first concept of its label, if there is one. */
  lemma EndsResolveByLabel(concepts: seq<Concept>, entities: seq<Entity>, supply: seq<Id>, text: string)
    requires |supply| == |entities|
    ensures var p := PlacedAll(concepts, entities, supply);
            ResolvedId(p, text) ==
            match FirstWithText(p.concepts, text) case None => None case Some(c) => Some(c.id)
  {
    NamesAreLookups(concepts, entities, supply);
  }

  // ---------- re-confirming ----------

  /** Later rows answer every label lookup with the same id. */
  ghost predicate SameLookups(concepts: seq<Concept>, later: seq<Concept>) {
    forall t {:trigger FirstWithText(later, t)} ::
      && (FirstWithText(later, t).Some? <==> FirstWithText(concepts, t).Some?)
      && (FirstWithText(later, t).Some? ==> FirstWithText(later, t).value.id == FirstWithText(concepts, t).value.id)
  }

  lemma {:induction false} RaisedLookup(concepts: seq<Concept>, id: Id, confidence: real, text: string)
    ensures FirstWithText(Raised(concepts, id, confidence), text).Some? <==> FirstWithText(concepts, text).Some?
    ensures FirstWithText(concepts, text).Some? ==>
              FirstWithText(Raised(concepts, id, confidence), text).value.id == FirstWithText(concepts, text).value.id
  {
    if concepts != [] {
      RaisedLookup(concepts[1..], id, confidence, text);
      assert Raised(concepts, id, confidence)[1..] == Raised(concepts[1..], id, confidence);
    }
  }

  ghost predicate EntitiesKnown(concepts: seq<Concept>, entities: seq<Entity>) {
    forall e :: e in entities ==> FirstWithText(concepts, e.text).Some?
  }

  /** The name table agrees with the lookups. */
  ghost predicate NamesLookup(concepts: seq<Concept>, textToId: map<string, Id>) {
    forall t :: t in textToId ==> FirstWithText(concepts, t).Some? && textToId[t] == FirstWithText(concepts, t).value.id
  }

  /** Entities create no concept exactly when all their labels are known, and then change no lookup. */
  lemma {:induction false} KnownEntitiesCreateNothing(concepts: seq<Concept>, entities: seq<Entity>, supply: seq<Id>)
    requires |supply| == |entities|
    ensures var p := PlacedAll(concepts, entities, supply);
            && |p.concepts| == |concepts| + p.created
            && (p.created == 0 <==> EntitiesKnown(concepts, entities))
            && (p.created == 0 ==> SameLookups(concepts, p.concepts) && NamesLookup(concepts, p.textToId))
  {
    if entities != [] {
      var n := |entities| - 1;
      KnownEntitiesCreateNothing(concepts, entities[..n], supply[..n]);
      assert entities == entities[..n] + [entities[n]];
      var before := PlacedAll(concepts, entities[..n], supply[..n]);
      var first := FirstWithText(before.concepts, entities[n].text);
      if before.created == 0 && first.Some? {
        forall t
          ensures FirstWithText(Raised(before.concepts, first.value.id, entities[n].confidence), t).Some? <==>
                  FirstWithText(before.concepts, t).Some?
          ensures FirstWithText(before.concepts, t).Some? ==>
                    FirstWithText(Raised(before.concepts, first.value.id, entities[n].confidence), t).value.id ==
                        FirstWithText(before.concepts, t).value.id
        {
          RaisedLookup(before.concepts, first.value.id, entities[n].confidence, t);
        }
      }
    }
  }

  /** The graph has an edge for the relation, or does not know one of its ends. */
  ghost predicate RelationKnown(g: Graph, r: Relation) {
    var source, target := FirstWithText(g.concepts, r.source), FirstWithText(g.concepts, r.target);
    source.Some? && target.Some? ==> FirstEdge(g.edges, source.value.id, target.value.id, r.relationType).Some?
  }

  /** Everything the answer says is in the graph already, as far as it would be written. */
  ghost predicate AlreadyKnown(g: Graph, entities: seq<Entity>, relations: seq<Relation>) {
    EntitiesKnown(g.concepts, entities) && forall r :: r in relations ==> RelationKnown(g, r)
  }

  ghost predicate TripleExists(edges: seq<Edge>, w: EdgeWrite) {
    FirstEdge(edges, w.source, w.target, w.relation).Some?
  }

  /** Writes create no edge exactly when every triple written exists already. */
  lemma {:induction false} KnownTriplesCreateNothing(edges: seq<Edge>, log: seq<EdgeWrite>)
    ensures |Logged(edges, log)| >= |edges|
    ensures |Logged(edges, log)| == |edges| <==> forall w :: w in log ==> TripleExists(edges, w)
  {
    if log != [] {
      var k := |log| - 1;
      var init, w := log[..k], log[k];
      KnownTriplesCreateNothing(edges, init);
      assert log == init + [w];
      LogDeterminesEdge(edges, init, w.source, w.target, w.relation);
      NotCounted(init, w.source, w.target, w.relation);
      var mid := Logged(edges, init);
      assert |Logged(edges, log)| == |mid| + if TripleExists(mid, w) then 0 else 1;
      if |mid| == |edges| {
        forall v | v in init && IsWriteOf(v, w.source, w.target, w.relation)
          ensures TripleExists(edges, w)
        {
          assert TripleExists(edges, v);
        }
        assert TripleExists(mid, w) <==> TripleExists(edges, w);
      } else {
        var v :| v in init && !TripleExists(edges, v);
        assert v in log;
      }
    }
  }

  /** A write creates no concept and no edge exactly when everything in the answer is already known. */
  lemma KnownAnswerCreatesNothing(g: Graph, entities: seq<Entity>, relations: seq<Relation>, isFollowup: bool,
                                  supply: seq<Id>)
    requires |supply| == |entities|
    ensures var g' := Written(g, entities, relations, isFollowup, supply);
            |g'.concepts| == |g.concepts| && |g'.edges| == |g.edges| <==> AlreadyKnown(g, entities, relations)
  {
    var p := PlacedAll(g.concepts, entities, supply);
    var log := LogFor(p, relations, isFollowup);
    KnownEntitiesCreateNothing(g.concepts, entities, supply);
    KnownTriplesCreateNothing(g.edges, log);
    if p.created == 0 {
      forall r | r in relations
        ensures WriteFor(p, r, isFollowup).Some? ==> WriteFor(p, r, isFollowup).value in log
        ensures WriteFor(p, r, isFollowup).None? || TripleExists(g.edges, WriteFor(p, r, isFollowup).value) <==>
                RelationKnown(g, r)
      {
        KnownRelation(g, p, r, isFollowup);
        if WriteFor(p, r, isFollowup).Some? {
          var i :| 0 <= i < |relations| && relations[i] == r;
          LogForContents(p, relations, isFollowup, WriteFor(p, r, isFollowup).value);
        }
      }
      forall w | w in log
        ensures exists r :: r in relations && WriteFor(p, r, isFollowup) == Some(w)
      {
        LogForContents(p, relations, isFollowup, w);
        var i :| 0 <= i < |relations| && WriteFor(p, relations[i], isFollowup) == Some(w);
        assert relations[i] in relations;
      }
    }
  }

  lemma KnownRelation(g: Graph, p: Placement, r: Relation, isFollowup: bool)
    requires SameLookups(g.concepts, p.concepts) && NamesLookup(g.concepts, p.textToId)
    ensures WriteFor(p, r, isFollowup).None? || TripleExists(g.edges, WriteFor(p, r, isFollowup).value) <==>
            RelationKnown(g, r)
  {
  }

  // ---------- runs ----------

  datatype Answer = Answer(entities: seq<Entity>, relations: seq<Relation>, isFollowup: bool, supply: seq<Id>)

  ghost predicate Supplied(a: Answer) {
    |a.supply| == |a.entities|
  }

  ghost function WriteAll(g: Graph, answers: seq<Answer>): Graph
    requires forall a :: a in answers ==> Supplied(a)
    decreases |answers|
  {
    if answers == [] then g else
      var n := |answers| - 1;
      var before := WriteAll(g, answers[..n]);
      assert Supplied(answers[n]);
      Written(before, answers[n].entities, answers[n].relations, answers[n].isFollowup, answers[n].supply)
  }

  /** The edge writes of the whole run. */
  ghost function FullLog(g: Graph, answers: seq<Answer>): seq<EdgeWrite>
    requires forall a :: a in answers ==> Supplied(a)
    decreases |answers|
  {
    if answers == [] then [] else
      var n := |answers| - 1;
      var a := answers[n];
      assert Supplied(a);
      FullLog(g, answers[..n])
      + LogFor(PlacedAll(WriteAll(g, answers[..n]).concepts, a.entities, a.supply), a.relations, a.isFollowup)
  }

  /** Every answer of the run is supplied with ids that are new when it is written. */
  ghost predicate FreshRun(g: Graph, answers: seq<Answer>)
    requires forall a :: a in answers ==> Supplied(a)
    decreases |answers|
  {
    answers != [] ==>
      var n := |answers| - 1;
      && FreshRun(g, answers[..n])
      && FreshFor(WriteAll(g, answers[..n]).concepts, answers[n].supply)
  }

  lemma {:induction false} LoggedConcat(edges: seq<Edge>, a: seq<EdgeWrite>, b: seq<EdgeWrite>)
    ensures Logged(edges, a + b) == Logged(Logged(edges, a), b)
  {
    if b == [] {
      assert a + b == a;
    } else {
      var k := |b| - 1;
      LoggedConcat(edges, a, b[..k]);
      assert (a + b)[..|a + b| - 1] == a + b[..k];
    }
  }

  /** The run as a whole applies its full log, so LogDeterminesEdge gives every edge's version and
      confidence after the run. */
  lemma {:induction false} RunAppliesLog(g: Graph, answers: seq<Answer>)
    requires forall a :: a in answers ==> Supplied(a)
    ensures WriteAll(g, answers).edges == Logged(g.edges, FullLog(g, answers))
  {
    if answers != [] {
      var n := |answers| - 1;
      var a := answers[n];
      RunAppliesLog(g, answers[..n]);
      assert Supplied(a);
      LoggedConcat(g.edges, FullLog(g, answers[..n]),
                   LogFor(PlacedAll(WriteAll(g, answers[..n]).concepts, a.entities, a.supply), a.relations,
                          a.isFollowup));
    }
  }

  /** Every edge a run added: its version is the number of times its triple was written in the whole
      run, its confidence the largest ever assigned to it. */
  lemma RunDeterminesEdge(g: Graph, answers: seq<Answer>, e: Edge)
    requires forall a :: a in answers ==> Supplied(a)
    requires UniqueTriples(g.edges) && e in WriteAll(g, answers).edges
    requires forall o :: o in g.edges ==> !SameTriple(o, e)
    ensures e.version == CountIn(FullLog(g, answers), e.source, e.target, e.relation)
    ensures LargestIn(FullLog(g, answers), e.source, e.target, e.relation, e.confidence)
  {
    var log := FullLog(g, answers);
    RunAppliesLog(g, answers);
    FirstEdgeIsTriple(g.edges, e.source, e.target, e.relation);
    LogDeterminesEdge(g.edges, log, e.source, e.target, e.relation);
    LoggedKeeps(g.edges, log);
    FirstEdgeIsTriple(Logged(g.edges, log), e.source, e.target, e.relation);
    var first := FirstEdge(Logged(g.edges, log), e.source, e.target, e.relation).value;
    var i :| 0 <= i < |Logged(g.edges, log)| && Logged(g.edges, log)[i] == e;
    var j :| 0 <= j < |Logged(g.edges, log)| && Logged(g.edges, log)[j] == first;
    assert SameTriple(Logged(g.edges, log)[i], Logged(g.edges, log)[j]);
    assert i == j;
  }

  /** Over any run of writes with fresh ids: unique texts and unique triples survive, nothing loses confidence. */
  lemma {:induction false} RunKeeps(g: Graph, answers: seq<Answer>)
    requires forall a :: a in answers ==> Supplied(a)
    requires WellFormed(g) && UniqueTexts(g.concepts) && UniqueTriples(g.edges) && FreshRun(g, answers)
    ensures var g' := WriteAll(g, answers);
            && WellFormed(g') && UniqueTexts(g'.concepts) && UniqueTriples(g'.edges)
            && Evolves(g.concepts, g'.concepts) && EdgesEvolve(g.edges, g'.edges)
  {
    if answers != [] {
      var n := |answers| - 1;
      var a := answers[n];
      assert Supplied(a);
      RunKeeps(g, answers[..n]);
      var before := WriteAll(g, answers[..n]);
      assert FreshFor(before.concepts, a.supply);
      WrittenKeeps(before, a.entities, a.relations, a.isFollowup, a.supply);
      EvolvesTransitive(g.concepts, before.concepts, WriteAll(g, answers).concepts);
    }
  }
}
