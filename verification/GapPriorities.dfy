/** What decides a gap's place in the report: src/apprentice/gap_detector.py:38-39, 112-187. */
module GapPriorities {
  import opened Common
  import opened BoundedSearch
  import opened GapDetector
  import opened GapReports

  // ---------- the numbers of one gap ----------

  /** An orphan has full severity and, having no reach, priority 0. */
  lemma OrphanIsRated(concepts: Concepts, x: Id)
    requires x in concepts.vals
    ensures var c, g := concepts.vals[x], OrphanOf(concepts)(x);
            && g.conceptId == c.id && g.text == c.text && g.kind == Orphan
            && g.severity == 1.0 && g.breadth == 0 && g.priority == 0.0
            && g.namespace == (if c.namespace == Coordination then Coordination else Task)
  {
  }

  /** Edge e is the weakest edge that leaves x, and it is low. */
  ghost predicate IsWeakest(outgoing: Grouped, x: Id, e: EdgeRecord) {
    && e in Outgoing(outgoing, x) && e.confidence < 0.4
    && forall f :: f in Outgoing(outgoing, x) ==> e.confidence <= f.confidence
  }

  /** The weakest edge sets the severity: its rounded distance from certainty. */
  lemma WeakestSetsSeverity(outgoing: Grouped, x: Id) returns (e: EdgeRecord)
    requires LowTest(outgoing)(x)
    ensures IsWeakest(outgoing, x, e) && LowSeverity(outgoing, x) == Round3(1.0 - e.confidence)
  {
    var out := Outgoing(outgoing, x);
    var low := LowEdges(out);
    var k := MinConfidenceIsLeast(low);
    e := low[k];
    LowEdgesAreLow(out, e);
    forall f | f in out
      ensures e.confidence <= f.confidence
    {
      LowEdgesAreLow(out, f);
      if f in low {
        var i :| 0 <= i < |low| && low[i] == f;
      }
    }
  }

  /** A priority is the rounded product of severity and breadth. */
  lemma PriorityIsProduct(severity: real, breadth: nat)
    ensures Priority(severity, breadth) == Round3(severity * breadth as real)
  {
  }

  /** A low-confidence gap of a concept: what it is about, and a priority that is the rounded product of
      severity and breadth. */
  lemma LowGapIsRated(c: ConceptRecord, severity: real, breadth: nat)
    ensures var g := LowGap(c, severity, breadth);
            && g.conceptId == c.id && g.text == c.text && g.kind == LowConfidence
            && g.severity == severity && g.breadth == breadth
            && g.priority == Round3(severity * breadth as real)
            && g.namespace == (if c.namespace == Coordination then Coordination else Task)
    ensures severity >= 0.6 ==> Rated(LowGap(c, severity, breadth))
  {
    PriorityIsProduct(severity, breadth);
  }

  /** An unexplored gap: severity 1 without outgoing edges and 0.75 with one, a breadth of at least 1, and a
      priority that is the rounded product of both. */
  lemma UnexploredGapIsRated(c: ConceptRecord, outgoingCount: nat, reach: nat)
    requires outgoingCount < 2
    ensures var g := UnexploredGap(c, outgoingCount, reach);
            && g.conceptId == c.id && g.text == c.text && g.kind == Unexplored && g.namespace == Task
            && g.severity == (if outgoingCount == 0 then 1.0 else 0.75)
            && g.breadth == (if reach == 0 then 1 else reach)
            && g.priority == Priority(g.severity, g.breadth)
            && Rated(g)
  {
    UnexploredSeverityIsGraded(outgoingCount);
    assert UnexploredSeverity(0) == 1.0 && UnexploredSeverity(1) == 0.75;
    PriorityIsProduct(UnexploredSeverity(outgoingCount), UnexploredGap(c, outgoingCount, reach).breadth);
  }

  /** The gap of a concept with a low edge: severity from the weakest edge (WeakestSetsSeverity), breadth the
      reach within three steps. LowGapIsRated says what that makes of it. */
  lemma LowIsRated(concepts: Concepts, outgoing: Grouped, x: Id)
    requires x in concepts.vals
    ensures LowOf(concepts, outgoing)(x) ==
            LowGap(concepts.vals[x], LowSeverity(outgoing, x), DependentCount(outgoing, x, 3))
  {
  }

  /** The gap of an unexplored concept: severity from its outgoing edges, breadth from its reach within three
      steps. UnexploredGapIsRated says what that makes of it. */
  lemma UnexploredIsRated(concepts: Concepts, outgoing: Grouped, incoming: Grouped, x: Id)
    requires IsUnexplored(concepts, outgoing, incoming, x)
    ensures |Outgoing(outgoing, x)| < 2
    ensures UnexploredOf(concepts, outgoing)(x) ==
            UnexploredGap(concepts.vals[x], |Outgoing(outgoing, x)|, DependentCount(outgoing, x, 3))
  {
  }

  /** A low-confidence gap of the report comes from a concept with a low edge: its severity is the rounded
      distance of the weakest edge from certainty, its breadth the number of concepts within three steps,
      its priority their rounded product. */
  lemma LowIsExplained(concepts: Concepts, outgoing: Grouped, low: seq<KnowledgeGap>, g: KnowledgeGap)
    returns (x: Id, e: EdgeRecord)
    requires forall x :: x in outgoing.keys ==> x in concepts.vals
    requires Mapped(low, Filter(outgoing.keys, LowTest(outgoing)), LowOf(concepts, outgoing)) && g in low
    ensures x in concepts.vals && IsWeakest(outgoing, x, e) && IsReach(outgoing, x, 3, g.breadth)
    ensures g.conceptId == concepts.vals[x].id && g.text == concepts.vals[x].text
    ensures g.severity == Round3(1.0 - e.confidence)
    ensures g.priority == Priority(g.severity, g.breadth)
  {
    x := MappedOrigin(low, outgoing.keys, LowTest(outgoing), LowOf(concepts, outgoing), g);
    e := WeakestSetsSeverity(outgoing, x);
    LowIsRated(concepts, outgoing, x);
    CountIsReach(outgoing, x, 3);
    LowGapIsRated(concepts.vals[x], LowSeverity(outgoing, x), DependentCount(outgoing, x, 3));
  }

  /** An unexplored gap of the report comes from a task concept with at most one outgoing edge. */
  lemma UnexploredIsExplained(concepts: Concepts, outgoing: Grouped, incoming: Grouped, unexplored: seq<KnowledgeGap>,
                              g: KnowledgeGap)
    returns (x: Id, reach: nat)
    requires Mapped(unexplored, Filter(concepts.keys, UnexploredTest(concepts, outgoing, incoming)),
                    UnexploredOf(concepts, outgoing))
    requires g in unexplored
    ensures IsUnexplored(concepts, outgoing, incoming, x) && IsReach(outgoing, x, 3, reach)
    ensures g.conceptId == concepts.vals[x].id && g.text == concepts.vals[x].text
    ensures g.severity == if Outgoing(outgoing, x) == [] then 1.0 else 0.75
    ensures g.breadth == if reach == 0 then 1 else reach
    ensures g.priority == Priority(g.severity, g.breadth)
  {
    x := MappedOrigin(unexplored, concepts.keys, UnexploredTest(concepts, outgoing, incoming),
                      UnexploredOf(concepts, outgoing), g);
    reach := DependentCount(outgoing, x, 3);
    CountIsReach(outgoing, x, 3);
    UnexploredIsRated(concepts, outgoing, incoming, x);
    UnexploredGapIsRated(concepts.vals[x], |Outgoing(outgoing, x)|, reach);
  }

  // ---------- the order of the report ----------

  lemma Round3Grows(x: real, y: real)
    requires x + 0.001 < y
    ensures Round3(x) < Round3(y)
  {
    RoundingIsMonotone(x * 1000.0, y * 1000.0);
    RoundingIsMonotone(y * 1000.0, y * 1000.0);
  }

  lemma ProductGrows(severity: real, less: nat, more: nat)
    requires severity > 0.001 && less < more
    ensures severity * less as real + 0.001 < severity * more as real
  {
    assert severity * (more as real - less as real) >= severity * 1.0;
  }

  /** At equal severity more reach means strictly more priority. */
  lemma MoreReachIsMoreUrgent(severity: real, less: nat, more: nat)
    requires severity >= 0.001 && less < more
    ensures Priority(severity, less) < Priority(severity, more)
  {
    PriorityIsProduct(severity, less);
    PriorityIsProduct(severity, more);
    if severity > 0.001 {
      ProductGrows(severity, less, more);
      Round3Grows(severity * less as real, severity * more as real);
    } else {
      assert RoundHalfEven(less as real) == less && RoundHalfEven(more as real) == more;
      assert severity * less as real * 1000.0 == less as real && severity * more as real * 1000.0 == more as real;
    }
  }

  /** A gap that is not an orphan: severe, and its priority is the product of its numbers. */
  ghost predicate Rated(g: KnowledgeGap) {
    if g.kind == Orphan then g.breadth == 0
    else g.severity >= 0.6 && g.priority == Priority(g.severity, g.breadth)
  }

  lemma LowIsSevere(outgoing: Grouped, x: Id)
    requires LowTest(outgoing)(x)
    ensures LowSeverity(outgoing, x) >= 0.6
  {
    var e := WeakestSetsSeverity(outgoing, x);
    RoundsUpTo(1.0 - e.confidence, 600);
  }

  lemma LowIsWellRated(concepts: Concepts, outgoing: Grouped, low: seq<KnowledgeGap>, g: KnowledgeGap)
    requires forall x :: x in outgoing.keys ==> x in concepts.vals
    requires Mapped(low, Filter(outgoing.keys, LowTest(outgoing)), LowOf(concepts, outgoing)) && g in low
    ensures g.kind == LowConfidence && Rated(g)
  {
    var x := MappedOrigin(low, outgoing.keys, LowTest(outgoing), LowOf(concepts, outgoing), g);
    LowIsRated(concepts, outgoing, x);
    LowIsSevere(outgoing, x);
    LowGapIsRated(concepts.vals[x], LowSeverity(outgoing, x), DependentCount(outgoing, x, 3));
  }

  lemma UnexploredIsWellRated(concepts: Concepts, outgoing: Grouped, incoming: Grouped, unexplored: seq<KnowledgeGap>,
                              g: KnowledgeGap)
    requires Mapped(unexplored, Filter(concepts.keys, UnexploredTest(concepts, outgoing, incoming)),
                    UnexploredOf(concepts, outgoing))
    requires g in unexplored
    ensures g.kind == Unexplored && Rated(g)
  {
    var x := MappedOrigin(unexplored, concepts.keys, UnexploredTest(concepts, outgoing, incoming),
                          UnexploredOf(concepts, outgoing), g);
    UnexploredIsRated(concepts, outgoing, incoming, x);
    UnexploredGapIsRated(concepts.vals[x], |Outgoing(outgoing, x)|, DependentCount(outgoing, x, 3));
  }

  lemma OrphanIsWellRated(concepts: Concepts, outgoing: Grouped, incoming: Grouped, orphans: seq<KnowledgeGap>,
                          g: KnowledgeGap)
    requires Mapped(orphans, Filter(concepts.keys, OrphanTest(outgoing, incoming)), OrphanOf(concepts)) && g in orphans
    ensures g.kind == Orphan && Rated(g)
  {
    var x := MappedOrigin(orphans, concepts.keys, OrphanTest(outgoing, incoming), OrphanOf(concepts), g);
  }

  /** Every gap is rated, and its kind names its class. */
  lemma GapIsRated(concepts: Concepts, edges: seq<EdgeRecord>, outgoing: Grouped, incoming: Grouped,
                   orphans: seq<KnowledgeGap>, low: seq<KnowledgeGap>, unexplored: seq<KnowledgeGap>, g: KnowledgeGap)
    requires Classes(concepts, edges, outgoing, incoming, orphans, low, unexplored)
    requires Snapshot(concepts, edges) && g in orphans + low + unexplored
    ensures Rated(g)
    ensures g in orphans <==> g.kind == Orphan
    ensures g in low <==> g.kind == LowConfidence
    ensures g in unexplored <==> g.kind == Unexplored
  {
    SourcesAreConcepts(concepts, edges, outgoing);
    if g in orphans {
      OrphanIsWellRated(concepts, outgoing, incoming, orphans, g);
    }
    if g in low {
      LowIsWellRated(concepts, outgoing, low, g);
    }
    if g in unexplored {
      UnexploredIsWellRated(concepts, outgoing, incoming, unexplored, g);
    }
  }

  lemma ReachOrders(a: KnowledgeGap, b: KnowledgeGap)
    requires Rated(a) && Rated(b) && a.kind == b.kind && a.severity == b.severity && a.priority >= b.priority
    ensures a.breadth >= b.breadth
  {
    if a.kind != Orphan && a.breadth < b.breadth {
      MoreReachIsMoreUrgent(a.severity, a.breadth, b.breadth);
    }
  }

  lemma SortedIsOrdered(all: seq<KnowledgeGap>, i: nat, j: nat)
    requires i < j < |SortByPriority(all)|
    ensures var gaps := SortByPriority(all);
            gaps[i] in all && gaps[j] in all && gaps[i].priority >= gaps[j].priority
  {
    var gaps := SortByPriority(all);
    SortIsStable(all);
    assert gaps[i] in multiset(gaps) && gaps[j] in multiset(gaps);
  }

  /** In the report, of two gaps of one kind and severity the one with more reach comes first. */
  lemma MoreReachComesFirst(concepts: Concepts, edges: seq<EdgeRecord>, outgoing: Grouped, incoming: Grouped,
                            orphans: seq<KnowledgeGap>, low: seq<KnowledgeGap>, unexplored: seq<KnowledgeGap>,
                            i: nat, j: nat)
    requires Classes(concepts, edges, outgoing, incoming, orphans, low, unexplored) && Snapshot(concepts, edges)
    requires i < j < |ReportOf(concepts, orphans, low, unexplored).gaps|
    ensures var gaps := ReportOf(concepts, orphans, low, unexplored).gaps;
            gaps[i].kind == gaps[j].kind && gaps[i].severity == gaps[j].severity ==> gaps[i].breadth >= gaps[j].breadth
  {
    var gaps := ReportOf(concepts, orphans, low, unexplored).gaps;
    SortedIsOrdered(orphans + low + unexplored, i, j);
    GapIsRated(concepts, edges, outgoing, incoming, orphans, low, unexplored, gaps[i]);
    GapIsRated(concepts, edges, outgoing, incoming, orphans, low, unexplored, gaps[j]);
    if gaps[i].kind == gaps[j].kind && gaps[i].severity == gaps[j].severity {
      ReachOrders(gaps[i], gaps[j]);
    }
  }

  function Rank(kind: GapKind): nat {
    match kind
    case Orphan => 0
    case LowConfidence => 1
    case Unexplored => 2
  }

  ghost predicate Ranked(gaps: seq<KnowledgeGap>) {
    forall i, j :: 0 <= i < j < |gaps| ==> Rank(gaps[i].kind) <= Rank(gaps[j].kind)
  }

  lemma {:induction false} FilterRanked(gaps: seq<KnowledgeGap>, p: KnowledgeGap -> bool)
    requires Ranked(gaps)
    ensures Ranked(Filter(gaps, p))
  {
    if gaps != [] {
      var n := |gaps| - 1;
      FilterRanked(gaps[..n], p);
      FilterContents(gaps[..n], p);
      var kept := Filter(gaps[..n], p);
      forall i | 0 <= i < |kept|
        ensures Rank(kept[i].kind) <= Rank(gaps[n].kind)
      {
        assert kept[i] in kept;
        var k :| 0 <= k < n && gaps[..n][k] == kept[i];
      }
    }
  }

  /** Two elements that pass a test keep their order when everything else is dropped. */
  lemma {:induction false} FilterKeepsPair<T>(s: seq<T>, p: T -> bool, i: nat, j: nat) returns (k: nat, l: nat)
    requires i < j < |s| && p(s[i]) && p(s[j])
    ensures k < l < |Filter(s, p)| && Filter(s, p)[k] == s[i] && Filter(s, p)[l] == s[j]
  {
    var n := |s| - 1;
    if j < n {
      k, l := FilterKeepsPair(s[..n], p, i, j);
    } else {
      l := |Filter(s[..n], p)|;
      FilterContents(s[..n], p);
      assert s[..n][i] in Filter(s[..n], p);
      k :| 0 <= k < l && Filter(s[..n], p)[k] == s[i];
    }
  }

  lemma StableKeepsRank(all: seq<KnowledgeGap>, i: nat, j: nat)
    requires Ranked(all) && i < j < |SortByPriority(all)|
    ensures var gaps := SortByPriority(all);
            gaps[i].priority == gaps[j].priority ==> Rank(gaps[i].kind) <= Rank(gaps[j].kind)
  {
    var gaps := SortByPriority(all);
    if gaps[i].priority == gaps[j].priority {
      var p := gaps[i].priority;
      SortIsStable(all);
      FilterRanked(all, HasPriority(p));
      var k, l := FilterKeepsPair(gaps, HasPriority(p), i, j);
    }
  }

  ghost predicate AllOf(gaps: seq<KnowledgeGap>, kind: GapKind) {
    forall g :: g in gaps ==> g.kind == kind
  }

  lemma ClassesAreRanked(orphans: seq<KnowledgeGap>, low: seq<KnowledgeGap>, unexplored: seq<KnowledgeGap>)
    requires AllOf(orphans, Orphan) && AllOf(low, LowConfidence) && AllOf(unexplored, Unexplored)
    ensures Ranked(orphans + low + unexplored)
  {
    var all := orphans + low + unexplored;
    forall i | 0 <= i < |all|
      ensures Rank(all[i].kind) == if i < |orphans| then 0 else if i < |orphans| + |low| then 1 else 2
    {
      assert all[i] in if i < |orphans| then orphans else if i < |orphans| + |low| then low else unexplored;
    }
  }

  /** Equal priorities: orphans before low-confidence gaps before unexplored ones. */
  lemma ClassBreaksTies(concepts: Concepts, edges: seq<EdgeRecord>, outgoing: Grouped, incoming: Grouped,
                        orphans: seq<KnowledgeGap>, low: seq<KnowledgeGap>, unexplored: seq<KnowledgeGap>,
                        i: nat, j: nat)
    requires Classes(concepts, edges, outgoing, incoming, orphans, low, unexplored) && Snapshot(concepts, edges)
    requires i < j < |ReportOf(concepts, orphans, low, unexplored).gaps|
    ensures var gaps := ReportOf(concepts, orphans, low, unexplored).gaps;
            gaps[i].priority == gaps[j].priority ==> Rank(gaps[i].kind) <= Rank(gaps[j].kind)
  {
    forall g | g in orphans + low + unexplored
      ensures g in orphans <==> g.kind == Orphan
      ensures g in low <==> g.kind == LowConfidence
      ensures g in unexplored <==> g.kind == Unexplored
    {
      GapIsRated(concepts, edges, outgoing, incoming, orphans, low, unexplored, g);
    }
    ClassesAreRanked(orphans, low, unexplored);
    StableKeepsRank(orphans + low + unexplored, i, j);
  }
}
