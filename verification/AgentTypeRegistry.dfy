/** Creating an agent type, with compensation on failure: src/core/agent_type_service.py:22-114. */
module AgentTypeRegistry {
  import opened Common
  import opened GraphWriter
  import opened GraphTheorems
  import opened Readiness

  const APPRENTICE := "apprentice"

  datatype AgentRow = AgentRow(id: Id, name: string, goal: string, taskBoundary: string, topics: seq<string>,
                               topology: string, participants: seq<string>)

  datatype RegistryError = AlreadyExists | CreationFailed

  /** One zero-confidence task concept per topic. */
  function RootConcepts(topics: seq<string>, ids: seq<Id>): (r: seq<Concept>)
    requires |ids| == |topics|
    ensures |r| == |topics|
  {
    seq(|topics|, i requires 0 <= i < |topics| => Concept(ids[i], topics[i], Task, 0.0))
  }

  predicate HasName(rows: seq<AgentRow>, name: string) {
    exists i :: 0 <= i < |rows| && rows[i].name == name
  }

  /** DELETE of the concept of that id. */
  function WithoutConcept(concepts: seq<Concept>, id: Id): seq<Concept> {
    if concepts == [] then [] else
      (if concepts[0].id == id then [] else [concepts[0]]) + WithoutConcept(concepts[1..], id)
  }

  function WithoutRow(rows: seq<AgentRow>, id: Id): seq<AgentRow> {
    if rows == [] then [] else
      (if rows[0].id == id then [] else [rows[0]]) + WithoutRow(rows[1..], id)
  }

  lemma {:induction false} DeletingOne(before: seq<Concept>, c: Concept, after: seq<Concept>)
    requires !HasId(before, c.id) && !HasId(after, c.id)
    ensures WithoutConcept(before + [c] + after, c.id) == before + after
  {
    if before == [] {
      assert [] + [c] + after == [c] + after;
      DeletingNone(after, c.id);
      assert ([c] + after)[1..] == after;
    } else {
      forall i | 0 <= i < |before| - 1
        ensures before[1..][i].id != c.id
      {
        assert before[i + 1].id != c.id;
      }
      DeletingOne(before[1..], c, after);
      assert (before + [c] + after)[1..] == before[1..] + [c] + after;
    }
  }

  lemma {:induction false} DeletingNone(concepts: seq<Concept>, id: Id)
    requires !HasId(concepts, id)
    ensures WithoutConcept(concepts, id) == concepts
  {
    if concepts != [] {
      forall i | 0 <= i < |concepts| - 1
        ensures concepts[1..][i].id != id
      {
        assert concepts[i + 1].id != id;
      }
      DeletingNone(concepts[1..], id);
      assert concepts[0].id != id;
    }
  }

  lemma {:induction false} DeletingLastRow(rows: seq<AgentRow>, row: AgentRow)
    requires forall i :: 0 <= i < |rows| ==> rows[i].id != row.id
    ensures WithoutRow(rows + [row], row.id) == rows
  {
    if rows == [] {
      assert [] + [row] == [row];
    } else {
      DeletingLastRow(rows[1..], row);
      assert (rows + [row])[1..] == rows[1..] + [row];
    }
  }

  /** The agent table, the concept graph of each agent type and the state keys. */
  class Registry {
    var rows: seq<AgentRow>
    var graphs: map<string, seq<Concept>>
    var keys: StateKeys

    constructor ()
      ensures rows == [] && graphs == map[] && keys == map[]
    {
      rows, graphs, keys := [], map[], map[];
    }

    function ConceptsOf(name: string): seq<Concept>
      reads this
    {
      if name in graphs then graphs[name] else []
    }

    ghost predicate OthersKept(was: map<string, seq<Concept>>, wasKeys: StateKeys, name: string)
      reads this
    {
      && (forall n :: n != name ==> (n in graphs <==> n in was) && (n in was ==> graphs[n] == was[n]))
      && (forall k :: k !in {(name, PhaseKey), (name, LearningRateKey), (name, ReadinessScoreKey)} ==>
            (k in keys <==> k in wasKeys) && (k in wasKeys ==> keys[k] == wasKeys[k]))
    }

    /** The guarded part, agent_type_service.py:65-87. The call number failAt raises and has no effect:
        0 is the schema, 1..n the concepts, then the three keys; a larger number means no failure. */
    method Populate(row: AgentRow, rootIds: seq<Id>, failAt: nat) returns (created: seq<Id>, failed: bool)
      requires |rootIds| == |row.topics|
      modifies this`graphs, this`keys
      ensures failed <==> failAt <= |row.topics| + 3
      ensures created <= rootIds && (!failed ==> created == rootIds)
      ensures ConceptsOf(row.name) == old(ConceptsOf(row.name)) + RootConcepts(row.topics, rootIds)[..|created|]
      ensures !failed ==> keys == old(keys)[(row.name, PhaseKey) := Word(APPRENTICE)]
                                           [(row.name, LearningRateKey) := Number(1.0)]
                                           [(row.name, ReadinessScoreKey) := Number(0.0)]
      ensures OthersKept(old(graphs), old(keys), row.name)
    {
      created := [];
      var n := |row.topics|;
      if failAt == 0 {
        return created, true;
      }
      graphs := graphs[row.name := ConceptsOf(row.name)];
      for i := 0 to n
        invariant i < failAt && created == rootIds[..i]
        invariant row.name in graphs
                  && graphs[row.name] == old(ConceptsOf(row.name)) + RootConcepts(row.topics, rootIds)[..i]
        invariant keys == old(keys)
        invariant forall m :: m != row.name ==>
                  (m in graphs <==> m in old(graphs)) && (m in old(graphs) ==> graphs[m] == old(graphs)[m])
      {
        if failAt == i + 1 {
          return created, true;
        }
        graphs := graphs[row.name := graphs[row.name] + [Concept(rootIds[i], row.topics[i], Task, 0.0)]];
        created := created + [rootIds[i]];
      }
      if failAt == n + 1 {
        return created, true;
      }
      keys := keys[(row.name, PhaseKey) := Word(APPRENTICE)];
      if failAt == n + 2 {
        return created, true;
      }
      keys := keys[(row.name, LearningRateKey) := Number(1.0)];
      if failAt == n + 3 {
        return created, true;
      }
      keys := keys[(row.name, ReadinessScoreKey) := Number(0.0)];
      return created, false;
    }

    /** agent_type_service.py:88-98: deletes the keys, the concepts created so far and the row. */
    method Compensate(row: AgentRow, created: seq<Id>, ghost before: seq<Concept>, ghost rootIds: seq<Id>,
                      ghost rowsBefore: seq<AgentRow>)
      requires |rootIds| == |row.topics| && created <= rootIds
      requires FreshFor(before, rootIds)
      requires ConceptsOf(row.name) == before + RootConcepts(row.topics, rootIds)[..|created|]
      requires rows == rowsBefore + [row] && forall i :: 0 <= i < |rowsBefore| ==> rowsBefore[i].id != row.id
      modifies this
      ensures rows == rowsBefore
      ensures ConceptsOf(row.name) == before
      ensures (row.name, PhaseKey) !in keys && (row.name, LearningRateKey) !in keys
              && (row.name, ReadinessScoreKey) !in keys
      ensures OthersKept(old(graphs), old(keys), row.name)
    {
      keys := keys - {(row.name, PhaseKey), (row.name, LearningRateKey), (row.name, ReadinessScoreKey)};
      ghost var roots := RootConcepts(row.topics, rootIds)[..|created|];
      assert roots[0..] == roots;
      for i := 0 to |created|
        invariant ConceptsOf(row.name) == before + roots[i..]
        invariant rows == old(rows)
        invariant keys ==
                  old(keys) - {(row.name, PhaseKey), (row.name, LearningRateKey), (row.name, ReadinessScoreKey)}
        invariant forall m :: m != row.name ==>
                  (m in graphs <==> m in old(graphs)) && (m in old(graphs) ==> graphs[m] == old(graphs)[m])
      {
        NextRootIsAlone(before, row.topics, rootIds, |created|, i);
        assert before + roots[i..] == before + [roots[i]] + roots[i + 1..];
        DeletingOne(before, roots[i], roots[i + 1..]);
        graphs := graphs[row.name := WithoutConcept(ConceptsOf(row.name), created[i])];
      }
      DeletingLastRow(rowsBefore, row);
      rows := WithoutRow(rows, row.id);
    }

    /** A failed creation restores the agent table and the concept set and leaves no state key; a
        successful one adds exactly one row and one fresh task concept per topic. */
    method CreateAgentType(row: AgentRow, rootIds: seq<Id>, failAt: nat) returns (r: Result<AgentRow, RegistryError>)
      requires |rootIds| == |row.topics| && FreshFor(ConceptsOf(row.name), rootIds)
      requires forall i :: 0 <= i < |rows| ==> rows[i].id != row.id
      modifies this
      ensures r == Err(AlreadyExists) <==> exists i :: 0 <= i < |old(rows)| && old(rows)[i].name == row.name
      ensures r == if HasName(old(rows), row.name) then Err(AlreadyExists)
                   else if failAt <= |row.topics| + 3 then Err(CreationFailed) else Ok(row)
      ensures r == Err(AlreadyExists) ==> rows == old(rows) && graphs == old(graphs) && keys == old(keys)
      ensures r == Err(CreationFailed) ==>
                && rows == old(rows)
                && ConceptsOf(row.name) == old(ConceptsOf(row.name))
                && (row.name, PhaseKey) !in keys && (row.name, LearningRateKey) !in keys
                && (row.name, ReadinessScoreKey) !in keys
      ensures r.Ok? ==>
                && rows == old(rows) + [row]
                && ConceptsOf(row.name) == old(ConceptsOf(row.name)) + RootConcepts(row.topics, rootIds)
                && ConceptsOf(row.name)[|old(ConceptsOf(row.name))|..] ==
                   seq(|row.topics|, i requires 0 <= i < |row.topics| => Concept(rootIds[i], row.topics[i], Task, 0.0))
                && keys == old(keys)[(row.name, PhaseKey) := Word(APPRENTICE)]
                                    [(row.name, LearningRateKey) := Number(1.0)]
                                    [(row.name, ReadinessScoreKey) := Number(0.0)]
      ensures OthersKept(old(graphs), old(keys), row.name)
    {
      if HasName(rows, row.name) {
        return Err(AlreadyExists);
      }
      ghost var rowsBefore, before := rows, ConceptsOf(row.name);
      rows := rows + [row];
      var created, failed := Populate(row, rootIds, failAt);
      if failed {
        Compensate(row, created, before, rootIds, rowsBefore);
        return Err(CreationFailed);
      }
      assert RootConcepts(row.topics, rootIds)[..|created|] == RootConcepts(row.topics, rootIds);
      return Ok(row);
    }
  }

  /** Neither the earlier concepts nor the later roots share the id of root i. */
  lemma NextRootIsAlone(before: seq<Concept>, topics: seq<string>, rootIds: seq<Id>, n: nat, i: nat)
    requires |rootIds| == |topics| && i < n <= |topics| && FreshFor(before, rootIds)
    ensures var roots := RootConcepts(topics, rootIds)[..n];
            roots[i].id == rootIds[i] && !HasId(before, rootIds[i]) && !HasId(roots[i + 1..], rootIds[i])
  {
    var roots := RootConcepts(topics, rootIds)[..n];
    assert rootIds[i] in rootIds;
    var later := roots[i + 1..];
    forall k | 0 <= k < |later|
      ensures later[k].id != rootIds[i]
    {
      assert later[k].id == rootIds[i + 1 + k];
    }
  }

  /** A new agent type starts at score 0, and all its concepts are task concepts, to be covered. */
  lemma FreshTypeScoresZero(topics: seq<string>, rootIds: seq<Id>)
    requires |rootIds| == |topics|
    ensures RawScore(Graph(RootConcepts(topics, rootIds), [])) == 0.0
    ensures TaskIds(RootConcepts(topics, rootIds)) == SetOf(rootIds)
    ensures forall c :: c in RootConcepts(topics, rootIds) ==> c.confidence == 0.0
  {
    var roots := RootConcepts(topics, rootIds);
    forall id | id in rootIds
      ensures id in TaskIds(roots)
    {
      var i :| 0 <= i < |rootIds| && rootIds[i] == id;
      assert roots[i] in roots && roots[i].id == id;
    }
    assert TouchedIds([]) * TaskIds(roots) == {};
  }

  /** The concept table of a new agent type is well-formed, and has unique labels exactly when no
      topic is listed twice. */
  lemma RootsAreWellFormed(topics: seq<string>, rootIds: seq<Id>)
    requires |rootIds| == |topics| && FreshFor([], rootIds)
    ensures WellFormed(Graph(RootConcepts(topics, rootIds), []))
    ensures UniqueTexts(RootConcepts(topics, rootIds)) <==> Distinct(topics)
  {
    var roots := RootConcepts(topics, rootIds);
    forall i | 0 <= i < |roots|
      ensures roots[i].id == rootIds[i] && roots[i].id != ""
    {
      assert rootIds[i] in rootIds;
    }
    if UniqueTexts(roots) {
      forall i, j | 0 <= i < j < |topics|
        ensures topics[i] != topics[j]
      {
        assert roots[i].text == topics[i] && roots[j].text == topics[j];
      }
    }
  }
}
