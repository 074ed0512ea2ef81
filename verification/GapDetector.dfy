/** Gap detection over one graph snapshot: src/apprentice/gap_detector.py:28-189. */
module GapDetector {
  import opened Common
  import opened BoundedSearch

  const LOW_CONFIDENCE_THRESHOLD := 0.4
  const UNEXPLORED_OUTGOING_EDGE_TARGET := 2
  const MAX_DEPTH := 3

  datatype ConceptRecord = ConceptRecord(id: Id, text: string, namespace: Namespace)

  datatype GapKind = Orphan | LowConfidence | Unexplored

  datatype KnowledgeGap = KnowledgeGap(
    conceptId: Id, text: string, kind: GapKind, severity: real, breadth: nat, priority: real, namespace: Namespace)

  datatype GapReport = GapReport(
    gaps: seq<KnowledgeGap>, totalNodes: nat, orphanCount: nat, lowConfidenceCount: nat, unexploredCount: nat)

  type Concepts = Dict<Id, ConceptRecord>
  type Grouped = Dict<Id, seq<EdgeRecord>>

  /** Every key has its record. */
  ghost predicate Recorded(concepts: Concepts) {
    forall x :: x in concepts.keys ==> x in concepts.vals && concepts.vals[x].id == x
  }

  ghost predicate ValidConcepts(concepts: Concepts) {
    && concepts.Valid()
    && forall x :: x in concepts.vals ==> concepts.vals[x].id == x
  }

  /** A query result: both ends of every edge are concepts. */
  ghost predicate Snapshot(concepts: Concepts, edges: seq<EdgeRecord>) {
    && ValidConcepts(concepts)
    && forall e :: e in edges ==> e.sourceId in concepts.vals && e.targetId in concepts.vals
  }

  // ---------- grouping ----------

  ghost function Leaving(x: Id): EdgeRecord -> bool {
    (e: EdgeRecord) => e.sourceId == x
  }

  ghost function Entering(x: Id): EdgeRecord -> bool {
    (e: EdgeRecord) => e.targetId == x
  }

  ghost predicate GroupedBy(grouped: Grouped, edges: seq<EdgeRecord>, group: Id -> EdgeRecord -> bool) {
    && grouped.Valid()
    && (forall x :: Outgoing(grouped, x) == Filter(edges, group(x)))
    && (forall x :: x in grouped.vals ==> grouped.vals[x] != [])
  }

  ghost function SourceOf(): EdgeRecord -> Id {
    (e: EdgeRecord) => e.sourceId
  }

  ghost function TargetOf(): EdgeRecord -> Id {
    (e: EdgeRecord) => e.targetId
  }

  /** Adding an edge to the list of its key groups the longer sequence. */
  lemma GroupingGrows(grouped: Grouped, edges: seq<EdgeRecord>, e: EdgeRecord, key: Id, group: Id -> EdgeRecord -> bool)
    requires GroupedBy(grouped, edges, group) && forall x :: group(x)(e) <==> x == key
    ensures GroupedBy(grouped.Set(key, grouped.GetOr(key, []) + [e]), edges + [e], group)
  {
    var later := grouped.Set(key, grouped.GetOr(key, []) + [e]);
    forall x
      ensures Outgoing(later, x) == Filter(edges + [e], group(x))
    {
      FilterAppend(edges, e, group(x));
    }
  }

  /** gap_detector.py:91-95 */
  method GroupOutgoingEdges(edges: seq<EdgeRecord>) returns (grouped: Grouped)
    ensures GroupedBy(grouped, edges, Leaving)
    ensures grouped.keys == FirstSeen(edges, SourceOf())
  {
    grouped := Dict([], map[]);
    for i := 0 to |edges|
      invariant GroupedBy(grouped, edges[..i], Leaving)
      invariant grouped.keys == FirstSeen(edges[..i], SourceOf())
    {
      var e := edges[i];
      assert edges[..i + 1] == edges[..i] + [e];
      FirstSeenGrows(edges[..i], e, SourceOf());
      GroupingGrows(grouped, edges[..i], e, e.sourceId, Leaving);
      grouped := grouped.Set(e.sourceId, grouped.GetOr(e.sourceId, []) + [e]);
    }
    assert edges[..|edges|] == edges;
  }

  /** gap_detector.py:98-102 */
  method GroupIncomingEdges(edges: seq<EdgeRecord>) returns (grouped: Grouped)
    ensures GroupedBy(grouped, edges, Entering)
    ensures grouped.keys == FirstSeen(edges, TargetOf())
  {
    grouped := Dict([], map[]);
    for i := 0 to |edges|
      invariant GroupedBy(grouped, edges[..i], Entering)
      invariant grouped.keys == FirstSeen(edges[..i], TargetOf())
    {
      var e := edges[i];
      assert edges[..i + 1] == edges[..i] + [e];
      FirstSeenGrows(edges[..i], e, TargetOf());
      GroupingGrows(grouped, edges[..i], e, e.targetId, Entering);
      grouped := grouped.Set(e.targetId, grouped.GetOr(e.targetId, []) + [e]);
    }
    assert edges[..|edges|] == edges;
  }

  // ---------- the three gap classes ----------

  predicate IsOrphan(outgoing: Grouped, incoming: Grouped, x: Id) {
    Outgoing(outgoing, x) == [] && Outgoing(incoming, x) == []
  }

  /** gap_detector.py:215-218 */
  function GapNamespace(value: Namespace): Namespace {
    if value.Other? then Task else value
  }

  function OrphanGap(c: ConceptRecord): KnowledgeGap {
    KnowledgeGap(c.id, c.text, Orphan, 1.0, 0, 0.0, GapNamespace(c.namespace))
  }

  ghost function OrphanTest(outgoing: Grouped, incoming: Grouped): Id -> bool {
    x => IsOrphan(outgoing, incoming, x)
  }

  ghost function OrphanOf(concepts: Concepts): Id -> KnowledgeGap {
    x => if x in concepts.vals then OrphanGap(concepts.vals[x]) else OrphanGap(ConceptRecord(x, "", Other("")))
  }

  /** gap_detector.py:105-125 */
  method FindOrphanNodes(concepts: Concepts, outgoing: Grouped, incoming: Grouped) returns (gaps: seq<KnowledgeGap>)
    requires Recorded(concepts)
    ensures Mapped(gaps, Filter(concepts.keys, OrphanTest(outgoing, incoming)), OrphanOf(concepts))
  {
    gaps := [];
    for i := 0 to |concepts.keys|
      invariant Mapped(gaps, Filter(concepts.keys[..i], OrphanTest(outgoing, incoming)), OrphanOf(concepts))
    {
      var x := concepts.keys[i];
      MappedFilterStep(gaps, concepts.keys, i, OrphanTest(outgoing, incoming), OrphanOf(concepts));
      var c := concepts.vals[x];
      if Outgoing(outgoing, c.id) == [] && Outgoing(incoming, c.id) == [] {
        gaps := gaps + [OrphanGap(c)];
      }
    }
    assert concepts.keys[..|concepts.keys|] == concepts.keys;
  }

  function Weighted(severity: real, breadth: nat): real {
    severity * breadth as real
  }

  function Priority(severity: real, breadth: nat): real {
    Round3(Weighted(severity, breadth))
  }

  function LowEdges(edges: seq<EdgeRecord>): seq<EdgeRecord> {
    if edges == [] then [] else
      (if edges[0].confidence < LOW_CONFIDENCE_THRESHOLD then [edges[0]] else []) + LowEdges(edges[1..])
  }

  lemma {:induction false} LowEdgesAreLow(edges: seq<EdgeRecord>, e: EdgeRecord)
    ensures e in LowEdges(edges) <==> e in edges && e.confidence < LOW_CONFIDENCE_THRESHOLD
  {
    if edges != [] {
      LowEdgesAreLow(edges[1..], e);
      assert edges == [edges[0]] + edges[1..];
    }
  }

  function MinConfidence(edges: seq<EdgeRecord>): real
    requires edges != []
  {
    if |edges| == 1 then edges[0].confidence else
      var rest := MinConfidence(edges[1..]);
      if edges[0].confidence < rest then edges[0].confidence else rest
  }

  /** The least confidence is a lower bound that some edge attains. */
  lemma {:induction false} MinConfidenceIsLeast(edges: seq<EdgeRecord>) returns (k: nat)
    requires edges != []
    ensures forall i :: 0 <= i < |edges| ==> MinConfidence(edges) <= edges[i].confidence
    ensures k < |edges| && edges[k].confidence == MinConfidence(edges)
  {
    if |edges| == 1 {
      k := 0;
    } else {
      var j := MinConfidenceIsLeast(edges[1..]);
      assert forall i :: 0 < i < |edges| ==> edges[i] == edges[1..][i - 1];
      k := if edges[0].confidence < MinConfidence(edges[1..]) then 0 else j + 1;
    }
  }

  ghost function LowTest(outgoing: Grouped): Id -> bool {
    x => LowEdges(Outgoing(outgoing, x)) != []
  }

  /** How far the weakest edge is from certain. */
  function Weakness(edges: seq<EdgeRecord>): real
    requires edges != []
  {
    Round3(1.0 - MinConfidence(edges))
  }

  function LowGap(c: ConceptRecord, severity: real, breadth: nat): KnowledgeGap {
    KnowledgeGap(c.id, c.text, LowConfidence, severity, breadth, Priority(severity, breadth), GapNamespace(c.namespace))
  }

  ghost function LowSeverity(outgoing: Grouped, x: Id): real {
    var low := LowEdges(Outgoing(outgoing, x));
    if low == [] then 0.0 else Weakness(low)
  }

  ghost function LowOf(concepts: Concepts, outgoing: Grouped): Id -> KnowledgeGap {
    x => var c := if x in concepts.vals then concepts.vals[x] else ConceptRecord(x, "", Other(""));
         LowGap(c, LowSeverity(outgoing, x), DependentCount(outgoing, x, MAX_DEPTH))
  }

  /** gap_detector.py:138-151 */
  method RateLowConfidence(concepts: Concepts, outgoing: Grouped, x: Id, lowEdges: seq<EdgeRecord>)
    returns (gap: KnowledgeGap)
    requires x in concepts.vals && lowEdges == LowEdges(Outgoing(outgoing, x)) && lowEdges != []
    ensures gap == LowOf(concepts, outgoing)(x)
  {
    var severity := Weakness(lowEdges);
    var breadth := CountDependentConcepts(x, outgoing, MAX_DEPTH);
    gap := LowGap(concepts.vals[x], severity, breadth);
  }

  /** gap_detector.py:134-151: the turn of the i-th source. */
  method AddLowConfidence(concepts: Concepts, outgoing: Grouped, i: nat, gaps: seq<KnowledgeGap>)
    returns (gaps': seq<KnowledgeGap>)
    requires i < |outgoing.keys| && outgoing.keys[i] in outgoing.vals && outgoing.keys[i] in concepts.vals
    requires Mapped(gaps, Filter(outgoing.keys[..i], LowTest(outgoing)), LowOf(concepts, outgoing))
    ensures Mapped(gaps', Filter(outgoing.keys[..i + 1], LowTest(outgoing)), LowOf(concepts, outgoing))
  {
    var x := outgoing.keys[i];
    MappedFilterStep(gaps, outgoing.keys, i, LowTest(outgoing), LowOf(concepts, outgoing));
    var lowEdges := LowEdges(outgoing.vals[x]);
    if lowEdges == [] {
      return gaps;
    }
    var gap := RateLowConfidence(concepts, outgoing, x, lowEdges);
    return gaps + [gap];
  }

  /** gap_detector.py:128-153: one gap per source concept, rated by its weakest low edge. */
  method FindLowConfidenceEdges(concepts: Concepts, outgoing: Grouped) returns (gaps: seq<KnowledgeGap>)
    requires forall x :: x in outgoing.keys ==> x in outgoing.vals && x in concepts.vals
    ensures Mapped(gaps, Filter(outgoing.keys, LowTest(outgoing)), LowOf(concepts, outgoing))
  {
    gaps := [];
    for i := 0 to |outgoing.keys|
      invariant Mapped(gaps, Filter(outgoing.keys[..i], LowTest(outgoing)), LowOf(concepts, outgoing))
    {
      gaps := AddLowConfidence(concepts, outgoing, i, gaps);
    }
    assert outgoing.keys[..|outgoing.keys|] == outgoing.keys;
  }

  predicate IsUnexplored(concepts: Concepts, outgoing: Grouped, incoming: Grouped, x: Id) {
    && x in concepts.vals && concepts.vals[x].namespace == Task
    && !IsOrphan(outgoing, incoming, x)
    && |Outgoing(outgoing, x)| < UNEXPLORED_OUTGOING_EDGE_TARGET
  }

  ghost function UnexploredTest(concepts: Concepts, outgoing: Grouped, incoming: Grouped): Id -> bool {
    x => IsUnexplored(concepts, outgoing, incoming, x)
  }

  function UnexploredSeverity(outgoingCount: nat): real {
    0.5 + 0.5 * (1.0 - outgoingCount as real / UNEXPLORED_OUTGOING_EDGE_TARGET as real)
  }

  function UnexploredGap(c: ConceptRecord, outgoingCount: nat, reach: nat): KnowledgeGap {
    var severity := UnexploredSeverity(outgoingCount);
    var breadth := if reach > 1 then reach else 1;
    KnowledgeGap(c.id, c.text, Unexplored, Round3(severity), breadth, Priority(severity, breadth), Task)
  }

  ghost function UnexploredOf(concepts: Concepts, outgoing: Grouped): Id -> KnowledgeGap {
    x => var c := if x in concepts.vals then concepts.vals[x] else ConceptRecord(x, "", Other(""));
         UnexploredGap(c, |Outgoing(outgoing, x)|, DependentCount(outgoing, x, MAX_DEPTH))
  }

  /** gap_detector.py:170-187 */
  method RateUnexplored(concepts: Concepts, outgoing: Grouped, x: Id, outgoingCount: nat) returns (gap: KnowledgeGap)
    requires x in concepts.vals && outgoingCount == |Outgoing(outgoing, x)|
    ensures gap == UnexploredOf(concepts, outgoing)(x)
  {
    var c := concepts.vals[x];
    var severity := UnexploredSeverity(outgoingCount);
    var reach := CountDependentConcepts(x, outgoing, MAX_DEPTH);
    var breadth := if reach > 1 then reach else 1;
    gap := KnowledgeGap(c.id, c.text, Unexplored, Round3(severity), breadth, Priority(severity, breadth), Task);
  }

  /** gap_detector.py:163-188: the turn of the i-th concept. */
  method AddUnexplored(concepts: Concepts, outgoing: Grouped, incoming: Grouped, i: nat, gaps: seq<KnowledgeGap>)
    returns (gaps': seq<KnowledgeGap>)
    requires i < |concepts.keys| && concepts.keys[i] in concepts.vals
    requires concepts.vals[concepts.keys[i]].id == concepts.keys[i]
    requires Mapped(gaps, Filter(concepts.keys[..i], UnexploredTest(concepts, outgoing, incoming)),
                    UnexploredOf(concepts, outgoing))
    ensures Mapped(gaps', Filter(concepts.keys[..i + 1], UnexploredTest(concepts, outgoing, incoming)),
                   UnexploredOf(concepts, outgoing))
  {
    MappedFilterStep(gaps, concepts.keys, i, UnexploredTest(concepts, outgoing, incoming),
                     UnexploredOf(concepts, outgoing));
    var c := concepts.vals[concepts.keys[i]];
    if c.namespace != Task {
      return gaps;
    }
    var outgoingCount := |Outgoing(outgoing, c.id)|;
    if outgoingCount == 0 && Outgoing(incoming, c.id) == [] {
      return gaps;
    }
    if outgoingCount >= UNEXPLORED_OUTGOING_EDGE_TARGET {
      return gaps;
    }
    var gap := RateUnexplored(concepts, outgoing, c.id, outgoingCount);
    return gaps + [gap];
  }

  /** gap_detector.py:156-189 */
  method FindUnexploredBranches(concepts: Concepts, outgoing: Grouped, incoming: Grouped)
    returns (gaps: seq<KnowledgeGap>)
    requires Recorded(concepts)
    ensures Mapped(gaps, Filter(concepts.keys, UnexploredTest(concepts, outgoing, incoming)),
                   UnexploredOf(concepts, outgoing))
  {
    gaps := [];
    for i := 0 to |concepts.keys|
      invariant Mapped(gaps, Filter(concepts.keys[..i], UnexploredTest(concepts, outgoing, incoming)),
                       UnexploredOf(concepts, outgoing))
    {
      gaps := AddUnexplored(concepts, outgoing, incoming, i, gaps);
    }
    assert concepts.keys[..|concepts.keys|] == concepts.keys;
  }
}
