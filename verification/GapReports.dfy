/** The prioritised gap report: src/apprentice/gap_detector.py:28-48. */
module GapReports {
  import opened Common
  import opened BoundedSearch
  import opened GapDetector

  // ---------- stable sort by descending priority ----------

  ghost predicate Descending(s: seq<KnowledgeGap>) {
    forall i, j :: 0 <= i < j < |s| ==> s[i].priority >= s[j].priority
  }

  function Insert(g: KnowledgeGap, s: seq<KnowledgeGap>): seq<KnowledgeGap> {
    if s == [] || g.priority >= s[0].priority then [g] + s else [s[0]] + Insert(g, s[1..])
  }

  /** Python's list sort with reverse=True: descending, equal priorities keep their order. */
  function SortByPriority(s: seq<KnowledgeGap>): seq<KnowledgeGap> {
    if s == [] then [] else Insert(s[0], SortByPriority(s[1..]))
  }

  ghost function HasPriority(p: real): KnowledgeGap -> bool {
    (g: KnowledgeGap) => g.priority == p
  }

  lemma {:induction false} InsertKeepsElements(g: KnowledgeGap, s: seq<KnowledgeGap>)
    ensures multiset(Insert(g, s)) == multiset(s) + multiset{g}
  {
    if s != [] && g.priority < s[0].priority {
      InsertKeepsElements(g, s[1..]);
      assert s == [s[0]] + s[1..];
    }
  }

  lemma {:induction false} InsertKeepsOrder(g: KnowledgeGap, s: seq<KnowledgeGap>)
    requires Descending(s)
    ensures Descending(Insert(g, s))
    ensures Insert(g, s)[0].priority == if s == [] || g.priority >= s[0].priority then g.priority else s[0].priority
  {
    if s != [] && g.priority < s[0].priority {
      InsertKeepsOrder(g, s[1..]);
    }
  }

  lemma SwapEmpty<T>(a: seq<T>, b: seq<T>, rest: seq<T>)
    requires a == [] || b == []
    ensures a + (b + rest) == b + (a + rest)
  {
  }

  lemma {:induction false} InsertIsStable(g: KnowledgeGap, s: seq<KnowledgeGap>, p: real)
    requires Descending(s)
    ensures Filter(Insert(g, s), HasPriority(p)) == (if g.priority == p then [g] else []) + Filter(s, HasPriority(p))
  {
    if s == [] || g.priority >= s[0].priority {
      FilterPrepend(g, s, HasPriority(p));
    } else {
      InsertIsStable(g, s[1..], p);
      assert s == [s[0]] + s[1..];
      FilterPrepend(s[0], s[1..], HasPriority(p));
      FilterPrepend(s[0], Insert(g, s[1..]), HasPriority(p));
      SwapEmpty(if s[0].priority == p then [s[0]] else [], if g.priority == p then [g] else [],
                Filter(s[1..], HasPriority(p)));
    }
  }

  /** The sort is a descending permutation that keeps the order within every priority. */
  lemma {:induction false} SortIsStable(s: seq<KnowledgeGap>)
    ensures Descending(SortByPriority(s))
    ensures multiset(SortByPriority(s)) == multiset(s)
    ensures forall p :: Filter(SortByPriority(s), HasPriority(p)) == Filter(s, HasPriority(p))
  {
    if s != [] {
      var rest := SortByPriority(s[1..]);
      SortIsStable(s[1..]);
      InsertKeepsOrder(s[0], rest);
      InsertKeepsElements(s[0], rest);
      assert s == [s[0]] + s[1..];
      forall p
        ensures Filter(SortByPriority(s), HasPriority(p)) == Filter(s, HasPriority(p))
      {
        InsertIsStable(s[0], rest, p);
        FilterPrepend(s[0], s[1..], HasPriority(p));
      }
    }
  }

  /** Order and stability leave no freedom: two such arrangements are the same sequence. */
  lemma {:induction false} StableOrderIsUnique(a: seq<KnowledgeGap>, b: seq<KnowledgeGap>)
    requires Descending(a) && Descending(b)
    requires forall p :: Filter(a, HasPriority(p)) == Filter(b, HasPriority(p))
    ensures a == b
  {
    if a == [] {
      if b != [] {
        TopIsShared(b, a);
      }
    } else {
      TopIsShared(a, b);
      TopIsShared(b, a);
      HeadsAgree(a, b, a[0].priority);
      forall p
        ensures Filter(a[1..], HasPriority(p)) == Filter(b[1..], HasPriority(p))
      {
        TailsAgree(a, b, p);
      }
      StableOrderIsUnique(a[1..], b[1..]);
      assert a == [a[0]] + a[1..] && b == [b[0]] + b[1..];
    }
  }

  lemma TopIsShared(a: seq<KnowledgeGap>, b: seq<KnowledgeGap>)
    requires a != [] && Descending(b)
    requires Filter(a, HasPriority(a[0].priority)) == Filter(b, HasPriority(a[0].priority))
    ensures b != [] && a[0].priority <= b[0].priority
  {
    FilterContents(a, HasPriority(a[0].priority));
    FilterContents(b, HasPriority(a[0].priority));
    assert a[0] in Filter(b, HasPriority(a[0].priority));
    var i :| 0 <= i < |b| && b[i] == a[0];
  }

  lemma TailsAgree(a: seq<KnowledgeGap>, b: seq<KnowledgeGap>, p: real)
    requires |a| > 0 && |b| > 0 && a[0] == b[0]
    requires Filter(a, HasPriority(p)) == Filter(b, HasPriority(p))
    ensures Filter(a[1..], HasPriority(p)) == Filter(b[1..], HasPriority(p))
  {
    FilterTail(a, HasPriority(p));
    FilterTail(b, HasPriority(p));
  }

  lemma HeadsAgree(a: seq<KnowledgeGap>, b: seq<KnowledgeGap>, top: real)
    requires |a| > 0 && |b| > 0 && a[0].priority == top == b[0].priority
    requires Filter(a, HasPriority(top)) == Filter(b, HasPriority(top))
    ensures a[0] == b[0]
  {
    assert a == [a[0]] + a[1..] && b == [b[0]] + b[1..];
    FilterPrepend(a[0], a[1..], HasPriority(top));
    FilterPrepend(b[0], b[1..], HasPriority(top));
    assert Filter(a, HasPriority(top))[0] == a[0];
    assert Filter(b, HasPriority(top))[0] == b[0];
  }

  // ---------- the report ----------

  /** The three gap classes of a snapshot, in the order in which they were collected. */
  ghost predicate Classes(concepts: Concepts, edges: seq<EdgeRecord>, outgoing: Grouped, incoming: Grouped,
                          orphans: seq<KnowledgeGap>, low: seq<KnowledgeGap>, unexplored: seq<KnowledgeGap>) {
    && GroupedBy(outgoing, edges, Leaving) && outgoing.keys == FirstSeen(edges, SourceOf())
    && GroupedBy(incoming, edges, Entering)
    && Mapped(orphans, Filter(concepts.keys, OrphanTest(outgoing, incoming)), OrphanOf(concepts))
    && Mapped(low, Filter(outgoing.keys, LowTest(outgoing)), LowOf(concepts, outgoing))
    && Mapped(unexplored, Filter(concepts.keys, UnexploredTest(concepts, outgoing, incoming)),
              UnexploredOf(concepts, outgoing))
  }

  /** The report of three classes: their stable sort and their counts. */
  function ReportOf(concepts: Concepts, orphans: seq<KnowledgeGap>, low: seq<KnowledgeGap>,
                    unexplored: seq<KnowledgeGap>): GapReport
  {
    GapReport(SortByPriority(orphans + low + unexplored), |concepts.keys|, |orphans|, |low|, |unexplored|)
  }

  method DetectGaps(concepts: Concepts, edges: seq<EdgeRecord>) returns (report: GapReport)
    requires Snapshot(concepts, edges)
    ensures exists outgoing, incoming, orphans, low, unexplored ::
              Classes(concepts, edges, outgoing, incoming, orphans, low, unexplored)
              && report == ReportOf(concepts, orphans, low, unexplored)
    ensures report.gaps == [] <==> FullyExplored(concepts, edges)
    ensures report.lowConfidenceCount == 0 <==> AllStrong(edges)
  {
    var outgoing := GroupOutgoingEdges(edges);
    var incoming := GroupIncomingEdges(edges);
    SourcesAreConcepts(concepts, edges, outgoing);
    var orphans := FindOrphanNodes(concepts, outgoing, incoming);
    var lowConfidence := FindLowConfidenceEdges(concepts, outgoing);
    var unexplored := FindUnexploredBranches(concepts, outgoing, incoming);
    var allGaps := orphans + lowConfidence + unexplored;
    report := GapReport(SortByPriority(allGaps), |concepts.keys|, |orphans|, |lowConfidence|, |unexplored|);
    assert Classes(concepts, edges, outgoing, incoming, orphans, lowConfidence, unexplored);
    NoGapsMeansFullyExplored(concepts, edges, outgoing, incoming, orphans, lowConfidence, unexplored);
  }

  lemma SourcesAreConcepts(concepts: Concepts, edges: seq<EdgeRecord>, outgoing: Grouped)
    requires Snapshot(concepts, edges) && GroupedBy(outgoing, edges, Leaving)
    ensures forall x :: x in outgoing.vals ==> x in concepts.vals
  {
    forall x | x in outgoing.vals
      ensures x in concepts.vals
    {
      var e := outgoing.vals[x][0];
      FilterContents(edges, Leaving(x));
      assert e in Outgoing(outgoing, x);
    }
  }

  // ---------- what the report means ----------

  predicate Touches(e: EdgeRecord, x: Id) {
    e.sourceId == x || e.targetId == x
  }

  ghost predicate Linked(edges: seq<EdgeRecord>, x: Id) {
    exists e :: e in edges && Touches(e, x)
  }

  lemma OrphansHaveNoEdge(edges: seq<EdgeRecord>, outgoing: Grouped, incoming: Grouped, x: Id)
    requires GroupedBy(outgoing, edges, Leaving) && GroupedBy(incoming, edges, Entering)
    ensures IsOrphan(outgoing, incoming, x) <==> !Linked(edges, x)
  {
    FilterContents(edges, Leaving(x));
    FilterContents(edges, Entering(x));
    if Linked(edges, x) {
      var e :| e in edges && Touches(e, x);
      assert e in Outgoing(outgoing, x) || e in Outgoing(incoming, x);
    }
    if Outgoing(outgoing, x) != [] {
      var e := Outgoing(outgoing, x)[0];
      assert e in Filter(edges, Leaving(x)) && Touches(e, x);
    }
    if Outgoing(incoming, x) != [] {
      var e := Outgoing(incoming, x)[0];
      assert e in Filter(edges, Entering(x)) && Touches(e, x);
    }
  }

  lemma LowSourcesHaveLowEdge(edges: seq<EdgeRecord>, outgoing: Grouped, x: Id)
    requires GroupedBy(outgoing, edges, Leaving)
    ensures LowTest(outgoing)(x) <==> HasWeakEdge(edges, x)
    ensures LowTest(outgoing)(x) ==> x in outgoing.keys
  {
    FilterContents(edges, Leaving(x));
    var out := Outgoing(outgoing, x);
    if LowEdges(out) != [] {
      var e := LowEdges(out)[0];
      LowEdgesAreLow(out, e);
      assert e in edges && e.sourceId == x;
    }
    if e :| e in edges && e.sourceId == x && e.confidence < LOW_CONFIDENCE_THRESHOLD {
      LowEdgesAreLow(out, e);
    }
  }

  ghost predicate AllLinked(concepts: Concepts, edges: seq<EdgeRecord>) {
    forall x :: x in concepts.keys ==> Linked(edges, x)
  }

  ghost predicate AllStrong(edges: seq<EdgeRecord>) {
    forall e :: e in edges ==> e.confidence >= 0.4
  }

  ghost predicate Branches(concepts: Concepts, edges: seq<EdgeRecord>, x: Id) {
    x in concepts.vals && concepts.vals[x].namespace == Task ==>
        |Filter(edges, Leaving(x))| >= 2
  }

  ghost predicate AllBranched(concepts: Concepts, edges: seq<EdgeRecord>) {
    forall x :: x in concepts.keys ==> Branches(concepts, edges, x)
  }

  /** Nothing to ask about: every concept has an edge, no edge is weak, every task concept has at
      least two outgoing edges. */
  ghost predicate FullyExplored(concepts: Concepts, edges: seq<EdgeRecord>) {
    AllLinked(concepts, edges) && AllStrong(edges) && AllBranched(concepts, edges)
  }

  ghost predicate NoneOf<T>(s: seq<T>, p: T -> bool) {
    forall x :: x in s ==> !p(x)
  }

  lemma MappedIsEmpty<A, B>(r: seq<B>, s: seq<A>, p: A -> bool, f: A -> B)
    requires Mapped(r, Filter(s, p), f)
    ensures r == [] <==> NoneOf(s, p)
  {
    FilterContents(s, p);
    if NoneOf(s, p) {
      EmptyFilter(s, p);
    } else {
      var x :| x in s && p(x);
      assert x in Filter(s, p);
    }
  }

  /** The report is empty exactly on a fully explored graph. */
  lemma NoGapsMeansFullyExplored(concepts: Concepts, edges: seq<EdgeRecord>, outgoing: Grouped, incoming: Grouped,
                                 orphans: seq<KnowledgeGap>, low: seq<KnowledgeGap>, unexplored: seq<KnowledgeGap>)
    requires Classes(concepts, edges, outgoing, incoming, orphans, low, unexplored)
    ensures SortByPriority(orphans + low + unexplored) == [] <==> FullyExplored(concepts, edges)
    ensures low == [] <==> AllStrong(edges)
  {
    SortedIsEmpty(orphans, low, unexplored);
    MappedIsEmpty(orphans, concepts.keys, OrphanTest(outgoing, incoming), OrphanOf(concepts));
    MappedIsEmpty(low, outgoing.keys, LowTest(outgoing), LowOf(concepts, outgoing));
    MappedIsEmpty(unexplored, concepts.keys, UnexploredTest(concepts, outgoing, incoming),
                  UnexploredOf(concepts, outgoing));
    NoLowGaps(edges, outgoing);
    NoOrphans(concepts, edges, outgoing, incoming);
    if AllLinked(concepts, edges) {
      NoUnexplored(concepts, edges, outgoing, incoming);
    }
  }

  lemma SortedIsEmpty(orphans: seq<KnowledgeGap>, low: seq<KnowledgeGap>, unexplored: seq<KnowledgeGap>)
    ensures SortByPriority(orphans + low + unexplored) == [] <==> orphans == [] && low == [] && unexplored == []
  {
    var all := orphans + low + unexplored;
    SortIsStable(all);
    assert |multiset(SortByPriority(all))| == |multiset(all)|;
    assert |all| == |orphans| + |low| + |unexplored|;
  }

  lemma NoOrphans(concepts: Concepts, edges: seq<EdgeRecord>, outgoing: Grouped, incoming: Grouped)
    requires GroupedBy(outgoing, edges, Leaving) && GroupedBy(incoming, edges, Entering)
    ensures NoneOf(concepts.keys, OrphanTest(outgoing, incoming)) <==> AllLinked(concepts, edges)
  {
    forall x
      ensures OrphanTest(outgoing, incoming)(x) <==> !Linked(edges, x)
    {
      OrphansHaveNoEdge(edges, outgoing, incoming, x);
    }
  }

  lemma NoUnexplored(concepts: Concepts, edges: seq<EdgeRecord>, outgoing: Grouped, incoming: Grouped)
    requires AllLinked(concepts, edges)
    requires GroupedBy(outgoing, edges, Leaving) && GroupedBy(incoming, edges, Entering)
    ensures NoneOf(concepts.keys, UnexploredTest(concepts, outgoing, incoming)) <==> AllBranched(concepts, edges)
  {
    forall x | x in concepts.keys
      ensures UnexploredTest(concepts, outgoing, incoming)(x) <==> !Branches(concepts, edges, x)
    {
      OrphansHaveNoEdge(edges, outgoing, incoming, x);
      assert Outgoing(outgoing, x) == Filter(edges, Leaving(x));
    }
  }

  ghost predicate HasWeakEdge(edges: seq<EdgeRecord>, x: Id) {
    exists e :: e in edges && e.sourceId == x && e.confidence < 0.4
  }

  lemma NoneIsWeak(edges: seq<EdgeRecord>, keys: seq<Id>, low: Id -> bool)
    requires forall x :: low(x) <==> HasWeakEdge(edges, x)
    requires forall x :: low(x) ==> x in keys
    ensures NoneOf(keys, low) <==> AllStrong(edges)
  {
    forall e | e in edges && e.confidence < LOW_CONFIDENCE_THRESHOLD
      ensures low(e.sourceId)
    {
      assert HasWeakEdge(edges, e.sourceId);
    }
  }

  lemma NoLowGaps(edges: seq<EdgeRecord>, outgoing: Grouped)
    requires GroupedBy(outgoing, edges, Leaving)
    ensures NoneOf(outgoing.keys, LowTest(outgoing)) <==> AllStrong(edges)
  {
    forall x
      ensures LowTest(outgoing)(x) <==> HasWeakEdge(edges, x)
      ensures LowTest(outgoing)(x) ==> x in outgoing.keys
    {
      LowSourcesHaveLowEdge(edges, outgoing, x);
    }
    NoneIsWeak(edges, outgoing.keys, LowTest(outgoing));
  }

  /** Each task concept with fewer than two outgoing edges is in exactly one of the two classes, and
      in neither otherwise unless it has no edge at all. */
  lemma UnderexploredIsClassified(concepts: Concepts, edges: seq<EdgeRecord>, outgoing: Grouped, incoming: Grouped,
                                  x: Id)
    requires Snapshot(concepts, edges) && x in concepts.keys && concepts.vals[x].namespace == Task
    requires GroupedBy(outgoing, edges, Leaving) && GroupedBy(incoming, edges, Entering)
    ensures var orphan, unexplored := IsOrphan(outgoing, incoming, x), IsUnexplored(concepts, outgoing, incoming, x);
            && !(orphan && unexplored)
            && (orphan || unexplored <==> |Filter(edges, Leaving(x))| < 2)
            && (orphan <==> !Linked(edges, x))
  {
    OrphansHaveNoEdge(edges, outgoing, incoming, x);
    assert Outgoing(outgoing, x) == Filter(edges, Leaving(x));
  }

  // ---------- urgency ----------

  lemma ReachIsPositive(outgoing: Grouped, x: Id)
    requires Outgoing(outgoing, x) != []
    ensures DependentCount(outgoing, x, MAX_DEPTH) >= 1
  {
    var v := Outgoing(outgoing, x)[0].targetId;
    assert Steps(outgoing, x, v);
    WalkBegins(outgoing, x, v);
    assert Dependent(outgoing, x, MAX_DEPTH, v);
    DependentsAreReached(outgoing, x, MAX_DEPTH, v);
    assert v in Dependents(outgoing, x, MAX_DEPTH);
  }

  lemma PriorityIsAtLeastSeverity(severity: real, floor: int, breadth: nat)
    requires 0 <= floor && floor as real / 1000.0 <= severity && breadth >= 1
    ensures Priority(severity, breadth) >= floor as real / 1000.0
  {
    WeightedIsAtLeast(severity, breadth);
    RoundsUpTo(Weighted(severity, breadth), floor);
  }

  lemma WeightedIsAtLeast(severity: real, breadth: nat)
    requires 0.0 <= severity && breadth >= 1
    ensures severity <= Weighted(severity, breadth)
  {
    Scaling(severity, breadth as real);
  }

  lemma RoundsUpTo(x: real, floor: int)
    requires floor as real / 1000.0 <= x
    ensures Round3(x) >= floor as real / 1000.0
  {
    RoundingIsMonotone(floor as real, x * 1000.0);
    assert RoundHalfEven(floor as real) == floor;
  }

  lemma Scaling(x: real, n: real)
    requires 0.0 <= x && 1.0 <= n
    ensures x <= x * n
  {
    assert 0.0 <= x * (n - 1.0);
  }

  /** A weak edge makes its source a gap of priority at least 0.6. */
  lemma LowGapsAreUrgent(concepts: Concepts, outgoing: Grouped, x: Id)
    requires LowTest(outgoing)(x)
    ensures LowOf(concepts, outgoing)(x).priority >= 0.6
    ensures LowOf(concepts, outgoing)(x).breadth >= 1
  {
    var low := LowEdges(Outgoing(outgoing, x));
    var k := MinConfidenceIsLeast(low);
    LowEdgesAreLow(Outgoing(outgoing, x), low[k]);
    RoundsUpTo(1.0 - MinConfidence(low), 600);
    ReachIsPositive(outgoing, x);
    PriorityIsAtLeastSeverity(LowSeverity(outgoing, x), 600, DependentCount(outgoing, x, MAX_DEPTH));
  }

  /** An unexplored task concept is a gap of priority at least 0.75. */
  lemma UnexploredGapsAreUrgent(concepts: Concepts, outgoing: Grouped, incoming: Grouped, x: Id)
    requires IsUnexplored(concepts, outgoing, incoming, x)
    ensures UnexploredOf(concepts, outgoing)(x).priority >= 0.75
  {
    var reach := DependentCount(outgoing, x, MAX_DEPTH);
    var severity := UnexploredSeverity(|Outgoing(outgoing, x)|);
    assert |Outgoing(outgoing, x)| == 0 || |Outgoing(outgoing, x)| == 1;
    PriorityIsAtLeastSeverity(severity, 750, if reach > 1 then reach else 1);
  }

  /** A concept without outgoing edges is the most severe case, one with a single edge less so. */
  lemma UnexploredSeverityIsGraded(outgoingCount: nat)
    requires outgoingCount < UNEXPLORED_OUTGOING_EDGE_TARGET
    ensures Round3(UnexploredSeverity(outgoingCount)) == if outgoingCount == 0 then 1.0 else 0.75
  {
    assert RoundHalfEven(1000.0) == 1000 && RoundHalfEven(750.0) == 750;
    assert UnexploredSeverity(0) == 1.0 && UnexploredSeverity(1) == 0.75;
  }

  ghost predicate Urgent(g: KnowledgeGap) {
    if g.kind == Orphan then g.priority == 0.0 else g.priority >= 0.6
  }

  lemma OrphansAreIdle(concepts: Concepts, outgoing: Grouped, incoming: Grouped, orphans: seq<KnowledgeGap>,
                       g: KnowledgeGap)
    requires Mapped(orphans, Filter(concepts.keys, OrphanTest(outgoing, incoming)), OrphanOf(concepts)) && g in orphans
    ensures Urgent(g)
  {
    var x := MappedOrigin(orphans, concepts.keys, OrphanTest(outgoing, incoming), OrphanOf(concepts), g);
  }

  lemma LowAreUrgent(concepts: Concepts, outgoing: Grouped, low: seq<KnowledgeGap>, g: KnowledgeGap)
    requires Mapped(low, Filter(outgoing.keys, LowTest(outgoing)), LowOf(concepts, outgoing)) && g in low
    ensures Urgent(g)
  {
    var x := MappedOrigin(low, outgoing.keys, LowTest(outgoing), LowOf(concepts, outgoing), g);
    LowGapsAreUrgent(concepts, outgoing, x);
  }

  lemma UnexploredAreUrgent(concepts: Concepts, outgoing: Grouped, incoming: Grouped, unexplored: seq<KnowledgeGap>,
                            g: KnowledgeGap)
    requires Mapped(unexplored, Filter(concepts.keys, UnexploredTest(concepts, outgoing, incoming)),
                    UnexploredOf(concepts, outgoing))
    requires g in unexplored
    ensures Urgent(g)
  {
    var x :=
        MappedOrigin(unexplored, concepts.keys, UnexploredTest(concepts, outgoing, incoming),
                     UnexploredOf(concepts, outgoing), g);
    UnexploredGapsAreUrgent(concepts, outgoing, incoming, x);
  }

  lemma GapsAreUrgent(concepts: Concepts, edges: seq<EdgeRecord>, outgoing: Grouped, incoming: Grouped,
                      orphans: seq<KnowledgeGap>, low: seq<KnowledgeGap>, unexplored: seq<KnowledgeGap>,
                      g: KnowledgeGap)
    requires Classes(concepts, edges, outgoing, incoming, orphans, low, unexplored)
    requires g in orphans + low + unexplored
    ensures Urgent(g)
  {
    if g in orphans {
      OrphansAreIdle(concepts, outgoing, incoming, orphans, g);
    } else if g in low {
      LowAreUrgent(concepts, outgoing, low, g);
    } else {
      UnexploredAreUrgent(concepts, outgoing, incoming, unexplored, g);
    }
  }

  /** In the report every orphan follows every other gap. */
  lemma OrphansComeLast(concepts: Concepts, edges: seq<EdgeRecord>, outgoing: Grouped, incoming: Grouped,
                        orphans: seq<KnowledgeGap>, low: seq<KnowledgeGap>, unexplored: seq<KnowledgeGap>,
                        i: nat, j: nat)
    requires Classes(concepts, edges, outgoing, incoming, orphans, low, unexplored)
    ensures var gaps := SortByPriority(orphans + low + unexplored);
            i < j < |gaps| && gaps[i].kind == Orphan ==> gaps[j].kind == Orphan
  {
    var all := orphans + low + unexplored;
    var gaps := SortByPriority(all);
    if i < j < |gaps| {
      SortIsStable(all);
      assert gaps[i] in multiset(gaps) && gaps[j] in multiset(gaps);
      GapsAreUrgent(concepts, edges, outgoing, incoming, orphans, low, unexplored, gaps[i]);
      GapsAreUrgent(concepts, edges, outgoing, incoming, orphans, low, unexplored, gaps[j]);
    }
  }

  /** With non-negative edge confidences a low-confidence severity lies in [0.6, 1]. */
  lemma LowSeverityInUnit(outgoing: Grouped, x: Id)
    requires LowTest(outgoing)(x)
    requires forall e :: e in Outgoing(outgoing, x) ==> 0.0 <= e.confidence
    ensures 0.6 <= LowSeverity(outgoing, x) <= 1.0
  {
    var low := LowEdges(Outgoing(outgoing, x));
    var k := MinConfidenceIsLeast(low);
    LowEdgesAreLow(Outgoing(outgoing, x), low[k]);
    RoundsUpTo(1.0 - MinConfidence(low), 600);
    RoundsDownTo(1.0 - MinConfidence(low), 1000);
  }

  lemma RoundsDownTo(x: real, ceiling: int)
    requires x <= ceiling as real / 1000.0
    ensures Round3(x) <= ceiling as real / 1000.0
  {
    RoundingIsMonotone(x * 1000.0, ceiling as real);
    assert RoundHalfEven(ceiling as real) == ceiling;
  }
}
