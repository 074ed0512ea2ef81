/** Bounds and monotonicity of the readiness score, before rounding. */
module ReadinessTheorems {
  import opened Common
  import opened GraphWriter
  import opened GraphTheorems
  import opened Readiness

  ghost predicate UnitConfidences(edges: seq<Edge>) {
    forall e :: e in edges ==> 0.0 <= e.confidence <= 1.0
  }

  ghost predicate AtMost(edges: seq<Edge>, bound: real) {
    forall e :: e in edges ==> e.confidence <= bound
  }

  // ---------- components ----------

  lemma SubsetCardinality<T>(a: set<T>, b: set<T>)
    requires a <= b
    ensures |a| <= |b|
    ensures |a| == |b| <==> a == b
  {
    var rest := b - a;
    assert b == a + rest;
    assert |b| == |a| + |rest|;
    if |rest| == 0 {
      assert rest == {};
    }
  }

  lemma QuotientInUnit(a: nat, b: nat)
    requires a <= b && b > 0
    ensures 0.0 <= a as real / b as real <= 1.0
    ensures a as real / b as real == 1.0 <==> a == b
  {
    var q := a as real / b as real;
    var n := b as real;
    assert q * n == a as real;
    assert (1.0 - q) * n == n - a as real;
    assert (q - 1.0) * n == a as real - n;
    assert (-q) * n == -(a as real);
  }

  /** Coverage is a share, full exactly when there are task concepts and all of them are touched. */
  lemma CoverageInUnit(touched: set<Id>, tasks: set<Id>)
    ensures 0.0 <= CoverageOf(touched, tasks) <= 1.0
    ensures CoverageOf(touched, tasks) == 1.0 <==> tasks != {} && tasks <= touched
  {
    if tasks != {} {
      SubsetCardinality(touched * tasks, tasks);
      assert |tasks| > 0;
      QuotientInUnit(|touched * tasks|, |tasks|);
    }
  }

  /** What coverage counts: the share of task concepts that are an end of some edge. */
  lemma CoverageCountsEnds(g: Graph) returns (tasks: set<Id>, covered: set<Id>)
    ensures forall id :: id in tasks <==> IsTask(g.concepts, id)
    ensures forall id :: id in covered <==>
              IsTask(g.concepts, id) && exists e :: e in g.edges && (e.source == id || e.target == id)
    ensures NodeCoverage(g) == if |tasks| == 0 then 0.0 else |covered| as real / |tasks| as real
  {
    tasks := TaskIds(g.concepts);
    covered := TouchedIds(g.edges) * tasks;
    forall id
      ensures id in tasks <==> IsTask(g.concepts, id)
    {
      TaskIdsAreTasks(g.concepts, id);
    }
    assert tasks == {} <==> |tasks| == 0;
  }

  lemma CoverageIsMonotone(touched: set<Id>, more: set<Id>, tasks: set<Id>)
    requires touched <= more
    ensures CoverageOf(touched, tasks) <= CoverageOf(more, tasks)
  {
    if tasks != {} {
      SubsetCardinality(touched * tasks, more * tasks);
      assert |tasks| > 0;
      DivisionIsMonotone(|touched * tasks| as real, |more * tasks| as real, |tasks| as real);
    }
  }

  lemma DivisionIsMonotone(a: real, b: real, d: real)
    requires a <= b && d > 0.0
    ensures a / d <= b / d
  {
    var p, q := a / d, b / d;
    assert p * d == a && q * d == b;
    assert (q - p) * d == b - a;
  }

  /** Density is capped at one, which five edges per concept reach. */
  lemma DensityInUnit(g: Graph)
    ensures 0.0 <= EdgeDensity(g) <= 1.0
    ensures EdgeDensity(g) == 1.0 <==> |g.concepts| > 0 && |g.edges| >= 5 * |g.concepts|
    ensures forall k: int :: |g.concepts| > 0 && 0 <= k <= 10 ==>
            (EdgeDensity(g) >= k as real / 10.0 <==> 2 * |g.edges| >= k * |g.concepts|)
  {
    if |g.concepts| > 0 {
      var q := |g.edges| as real / |g.concepts| as real;
      assert q * |g.concepts| as real == |g.edges| as real;
      Share(|g.edges|, |g.concepts|, 10);
      forall k: int | 0 <= k <= 10
        ensures EdgeDensity(g) >= k as real / 10.0 <==> 2 * |g.edges| >= k * |g.concepts|
      {
        Share(|g.edges|, |g.concepts|, k);
      }
    }
  }

  lemma Share(edges: nat, concepts: nat, k: int)
    requires concepts > 0
    ensures edges as real / concepts as real / EDGE_DENSITY_CAP >= k as real / 10.0 <==> 2 * edges >= k * concepts
  {
    var q := edges as real / concepts as real;
    var n := concepts as real;
    assert q * n == edges as real;
    if q >= k as real / 2.0 {
      assert (q - k as real / 2.0) * n >= 0.0;
    } else {
      assert (k as real / 2.0 - q) * n > 0.0;
    }
    assert (k * concepts) as real == k as real * n;
  }

  /** n * x by repeated addition. */
  function Times(n: nat, x: real): real {
    if n == 0 then 0.0 else Times(n - 1, x) + x
  }

  lemma {:induction false} TimesIsProduct(n: nat, x: real)
    ensures Times(n, x) == n as real * x
  {
    if n > 0 {
      TimesIsProduct(n - 1, x);
      assert n as real * x == (n - 1) as real * x + x;
    }
  }

  lemma {:induction false} SumWithin(edges: seq<Edge>, high: real)
    requires forall e :: e in edges ==> 0.0 <= e.confidence <= high
    ensures 0.0 <= SumConfidence(edges) <= Times(|edges|, high)
    ensures SumConfidence(edges) == Times(|edges|, high) <==> forall e :: e in edges ==> e.confidence == high
  {
    if edges != [] {
      var n := |edges| - 1;
      assert edges == edges[..n] + [edges[n]];
      SumWithin(edges[..n], high);
    }
  }

  lemma QuotientWithin(sum: real, n: real, high: real)
    requires n > 0.0 && 0.0 <= sum <= n * high
    ensures 0.0 <= sum / n <= high
    ensures sum / n == high <==> sum == n * high
  {
    var q := sum / n;
    assert q * n == sum;
    assert (high - q) * n == n * high - sum;
  }

  /** The mean lies between the bounds, and on the upper one exactly when every edge does. */
  lemma MeanWithin(g: Graph, high: real)
    requires g.edges != [] && forall e :: e in g.edges ==> 0.0 <= e.confidence <= high
    ensures 0.0 <= ConfidenceMean(g) <= high
    ensures ConfidenceMean(g) == high <==> forall e :: e in g.edges ==> e.confidence == high
  {
    SumWithin(g.edges, high);
    TimesIsProduct(|g.edges|, high);
    QuotientWithin(SumConfidence(g.edges), |g.edges| as real, high);
  }

  lemma MeanAtMost(g: Graph, high: real)
    requires 0.0 <= high && forall e :: e in g.edges ==> 0.0 <= e.confidence <= high
    ensures 0.0 <= ConfidenceMean(g) <= high
  {
    if g.edges != [] {
      MeanWithin(g, high);
    }
  }

  // ---------- bounds ----------

  /** Every task concept is an end of an edge, there are five edges per concept, every edge is certain. */
  ghost predicate Saturated(g: Graph) {
    && TaskIds(g.concepts) != {} && TaskIds(g.concepts) <= TouchedIds(g.edges)
    && |g.edges| >= 5 * |g.concepts|
    && forall e :: e in g.edges ==> e.confidence == 1.0
  }

  /** The score lies in [0, 1] and is 1 exactly on a saturated graph. */
  lemma ScoreInUnit(g: Graph)
    requires UnitConfidences(g.edges)
    ensures 0.0 <= RawScore(g) <= 1.0
    ensures RawScore(g) == 1.0 <==> Saturated(g)
  {
    CoverageInUnit(TouchedIds(g.edges), TaskIds(g.concepts));
    DensityInUnit(g);
    MeanAtMost(g, 1.0);
    if g.edges != [] {
      MeanWithin(g, 1.0);
    }
    if Saturated(g) {
      var x :| x in TaskIds(g.concepts);
      assert g.edges != [] && g.concepts != [];
    }
  }

  /** Rounding keeps the reported score in [0, 1]. */
  lemma RoundedInUnit(x: real)
    requires 0.0 <= x <= 1.0
    ensures 0.0 <= Round4(x) <= 1.0
  {
    RoundingIsMonotone(0.0, x * 10000.0);
    RoundingIsMonotone(x * 10000.0, 10000.0);
    assert RoundHalfEven(0.0) == 0 && RoundHalfEven(10000.0) == 10000;
  }

  /** No edge above 0.9 keeps the score at or below 0.975; a score of 0.80 then forces five edges to
      every two concepts and nine sixteenths of all task concepts covered. */
  lemma WriterBound(g: Graph)
    requires UnitConfidences(g.edges) && AtMost(g.edges, DIRECT_HIGH_CONFIDENCE)
    ensures RawScore(g) <= 0.975
    ensures RawScore(g) >= 0.80 ==> 2 * |g.edges| >= 5 * |g.concepts| && NodeCoverage(g) >= 0.5625
  {
    CoverageInUnit(TouchedIds(g.edges), TaskIds(g.concepts));
    DensityInUnit(g);
    MeanAtMost(g, DIRECT_HIGH_CONFIDENCE);
    if |g.concepts| > 0 && RawScore(g) >= 0.80 {
      assert EdgeDensity(g) >= 5 as real / 10.0;
    }
  }

  lemma {:induction false} LoggedAtMost(edges: seq<Edge>, log: seq<EdgeWrite>)
    requires UnitConfidences(edges) && AtMost(edges, DIRECT_HIGH_CONFIDENCE)
    requires forall w :: w in log ==> INFERRED_CONFIDENCE <= w.confidence <= DIRECT_HIGH_CONFIDENCE
    ensures UnitConfidences(Logged(edges, log)) && AtMost(Logged(edges, log), DIRECT_HIGH_CONFIDENCE)
  {
    if log != [] {
      var before, w := Logged(edges, log[..|log| - 1]), log[|log| - 1];
      LoggedAtMost(edges, log[..|log| - 1]);
      FirstEdgeIsTriple(before, w.source, w.target, w.relation);
    }
  }

  /** Over any run of writes from a graph without edges the unrounded score is at most 0.975, and
      0.80 forces the same density and coverage. */
  lemma {:induction false} WriterRunBound(concepts: seq<Concept>, answers: seq<Answer>)
    requires forall a :: a in answers ==> Supplied(a)
    ensures var g := WriteAll(Graph(concepts, []), answers);
            && UnitConfidences(g.edges) && AtMost(g.edges, DIRECT_HIGH_CONFIDENCE)
            && RawScore(g) <= 0.975
            && (RawScore(g) >= 0.80 ==> 2 * |g.edges| >= 5 * |g.concepts| && NodeCoverage(g) >= 0.5625)
  {
    if answers != [] {
      var n := |answers| - 1;
      var a := answers[n];
      assert Supplied(a);
      WriterRunBound(concepts, answers[..n]);
      var before := WriteAll(Graph(concepts, []), answers[..n]);
      var p := PlacedAll(before.concepts, a.entities, a.supply);
      forall w | w in LogFor(p, a.relations, a.isFollowup)
        ensures INFERRED_CONFIDENCE <= w.confidence <= DIRECT_HIGH_CONFIDENCE
      {
        LogForContents(p, a.relations, a.isFollowup, w);
      }
      LoggedAtMost(before.edges, LogFor(p, a.relations, a.isFollowup));
    }
    WriterBound(WriteAll(Graph(concepts, []), answers));
  }

  // ---------- monotonicity ----------

  lemma {:induction false} SumGrowsPointwise(edges: seq<Edge>, later: seq<Edge>)
    requires |edges| == |later| && forall i :: 0 <= i < |edges| ==> edges[i].confidence <= later[i].confidence
    ensures SumConfidence(edges) <= SumConfidence(later)
  {
    if edges != [] {
      SumGrowsPointwise(edges[..|edges| - 1], later[..|later| - 1]);
    }
  }

  lemma SameIds(g: Graph, later: Graph)
    requires Evolves(g.concepts, later.concepts) && |later.concepts| == |g.concepts|
    requires EdgesEvolve(g.edges, later.edges) && |later.edges| == |g.edges|
    ensures TaskIds(later.concepts) == TaskIds(g.concepts)
    ensures TouchedIds(later.edges) == TouchedIds(g.edges)
  {
    forall id
      ensures id in TaskIds(later.concepts) <==> id in TaskIds(g.concepts)
    {
      TaskIdAt(g.concepts, later.concepts, id);
      TaskIdAt(later.concepts, g.concepts, id);
    }
    forall id
      ensures id in TouchedIds(later.edges) <==> id in TouchedIds(g.edges)
    {
      TouchedAt(g.edges, later.edges, id);
      TouchedAt(later.edges, g.edges, id);
    }
  }

  lemma TaskIdAt(a: seq<Concept>, b: seq<Concept>, id: Id)
    requires |a| == |b| && forall i :: 0 <= i < |a| ==> a[i].id == b[i].id && a[i].namespace == b[i].namespace
    ensures id in TaskIds(a) ==> id in TaskIds(b)
  {
    if id in TaskIds(a) {
      var c :| c in a && c.namespace == Task && c.id == id;
      var i :| 0 <= i < |a| && a[i] == c;
      assert b[i] in b;
    }
  }

  lemma TouchedAt(a: seq<Edge>, b: seq<Edge>, id: Id)
    requires |a| == |b| && forall i :: 0 <= i < |a| ==> SameTriple(a[i], b[i])
    ensures id in TouchedIds(a) ==> id in TouchedIds(b)
  {
    if id in TouchedIds(a) {
      var e :| e in a && (e.source == id || e.target == id);
      var i :| 0 <= i < |a| && a[i] == e;
      assert SameTriple(a[i], b[i]) && b[i] in b;
    }
  }

  /** Re-confirming what the graph already knows never lowers the score. */
  lemma ReconfirmingNeverLowers(g: Graph, entities: seq<Entity>, relations: seq<Relation>, isFollowup: bool,
                                supply: seq<Id>)
    requires |supply| == |entities| && WellFormed(g) && FreshFor(g.concepts, supply) && UniqueTriples(g.edges)
    requires AlreadyKnown(g, entities, relations)
    ensures RawScore(Written(g, entities, relations, isFollowup, supply)) >= RawScore(g)
  {
    KnownAnswerCreatesNothing(g, entities, relations, isFollowup, supply);
    WrittenKeeps(g, entities, relations, isFollowup, supply);
    EvolvingNeverLowers(g, Written(g, entities, relations, isFollowup, supply));
  }

  lemma EvolvingNeverLowers(g: Graph, later: Graph)
    requires Evolves(g.concepts, later.concepts) && |later.concepts| == |g.concepts|
    requires EdgesEvolve(g.edges, later.edges) && |later.edges| == |g.edges|
    ensures RawScore(g) <= RawScore(later)
  {
    SameIds(g, later);
    SumGrowsPointwise(g.edges, later.edges);
    MeanGrows(g, later);
    RawIsMonotone(g, later);
  }

  lemma MeanGrows(g: Graph, later: Graph)
    requires |later.edges| == |g.edges| && SumConfidence(g.edges) <= SumConfidence(later.edges)
    ensures ConfidenceMean(g) <= ConfidenceMean(later)
  {
    if g.edges != [] {
      DivisionIsMonotone(SumConfidence(g.edges), SumConfidence(later.edges), |g.edges| as real);
    }
  }

  lemma RawIsMonotone(g: Graph, later: Graph)
    requires NodeCoverage(g) <= NodeCoverage(later)
    requires EdgeDensity(g) <= EdgeDensity(later)
    requires ConfidenceMean(g) <= ConfidenceMean(later)
    ensures RawScore(g) <= RawScore(later)
  {
  }

  lemma DensityRises(g: Graph, later: Graph)
    requires |later.concepts| == |g.concepts| && |later.edges| >= |g.edges|
    ensures EdgeDensity(later) >= EdgeDensity(g)
  {
    if |g.concepts| > 0 {
      DivisionIsMonotone(|g.edges| as real, |later.edges| as real, |g.concepts| as real);
    }
  }

  lemma MeanRises(g: Graph, e: Edge)
    requires e.confidence >= ConfidenceMean(g)
    ensures ConfidenceMean(Graph(g.concepts, g.edges + [e])) >= ConfidenceMean(g)
  {
    assert (g.edges + [e])[..|g.edges|] == g.edges;
    if g.edges != [] {
      QuotientRises(SumConfidence(g.edges), |g.edges| as real, e.confidence);
    }
  }

  lemma QuotientRises(sum: real, n: real, x: real)
    requires n >= 1.0 && x >= sum / n
    ensures (sum + x) / (n + 1.0) >= sum / n
  {
    var m, q := sum / n, (sum + x) / (n + 1.0);
    assert m * n == sum;
    assert q * (n + 1.0) == sum + x;
    assert (q - m) * (n + 1.0) == x - m;
  }

  /** A further edge between existing concepts, at or above the current mean, never lowers the score. */
  lemma StrongEdgeNeverLowers(g: Graph, e: Edge)
    requires e.confidence >= ConfidenceMean(g)
    ensures RawScore(Graph(g.concepts, g.edges + [e])) >= RawScore(g)
  {
    var g' := Graph(g.concepts, g.edges + [e]);
    forall id | id in TouchedIds(g.edges)
      ensures id in TouchedIds(g'.edges)
    {
      var f :| f in g.edges && (f.source == id || f.target == id);
      assert f in g'.edges;
    }
    CoverageIsMonotone(TouchedIds(g.edges), TouchedIds(g'.edges), TaskIds(g.concepts));
    DensityRises(g, g');
    MeanRises(g, e);
    RawIsMonotone(g, g');
  }

  // ---------- the two flags ----------

  /** The reported scores are the multiples of 0.0001. */
  function Grade(k: int): real {
    k as real / 10000.0
  }

  ghost predicate GradeBetween(low: real, high: real) {
    exists k :: 0 <= k <= 10000 && low <= Grade(k) < high
  }

  ghost predicate CertImpliesProposal(g: Graph, proposal: real, cert: real) {
    var score := ScoreOf(g, proposal, cert);
    score.certReady ==> score.proposalReady
  }

  /** n concepts of one namespace, and m edges of confidence c from the first one to itself. */
  function Loops(namespace: Namespace, n: nat, m: nat, c: real): Graph {
    Graph(seq(n, (i: nat) => Concept(seq(i + 1, (j: nat) => 'c'), "", namespace, c)),
          seq(m, (i: nat) => Edge("c", "c", seq(i, (j: nat) => 'r'), c, 1)))
  }

  lemma LoopsWellFormed(namespace: Namespace, n: nat, m: nat, c: real)
    requires n > 0 && 0.0 <= c <= 1.0
    ensures var g := Loops(namespace, n, m, c);
            WellFormed(g) && UnitConfidences(g.edges)
  {
    var g := Loops(namespace, n, m, c);
    forall i, j | 0 <= i < j < n
      ensures g.concepts[i].id != g.concepts[j].id
    {
      assert |g.concepts[i].id| != |g.concepts[j].id|;
    }
    assert g.concepts[0].id == "c";
    assert HasId(g.concepts, "c");
  }

  lemma LoopsDensity(namespace: Namespace, n: nat, m: nat, c: real)
    requires n > 0 && m <= 5 * n
    ensures EdgeDensity(Loops(namespace, n, m, c)) == m as real / n as real / 5.0
  {
    Share(m, n, 10);
  }

  lemma LoopsMean(namespace: Namespace, n: nat, m: nat, c: real)
    requires m > 0 && 0.0 <= c
    ensures ConfidenceMean(Loops(namespace, n, m, c)) == c
  {
    MeanWithin(Loops(namespace, n, m, c), c);
  }

  lemma LoopsTouch(namespace: Namespace, n: nat, m: nat, c: real)
    requires m > 0
    ensures TouchedIds(Loops(namespace, n, m, c).edges) == {"c"}
  {
    var edges := Loops(namespace, n, m, c).edges;
    assert edges[0] in edges;
  }

  lemma LoopsTasks(namespace: Namespace, n: nat, m: nat, c: real)
    requires n > 0 && (namespace == Task ==> n == 1)
    ensures TaskIds(Loops(namespace, n, m, c).concepts) == if namespace == Task then {"c"} else {}
  {
    var concepts := Loops(namespace, n, m, c).concepts;
    assert concepts[0] in concepts && concepts[0].id == "c";
  }

  lemma LoopsCoverage(namespace: Namespace, n: nat, m: nat, c: real)
    requires n > 0 && m > 0 && (namespace == Task ==> n == 1)
    ensures NodeCoverage(Loops(namespace, n, m, c)) == if namespace == Task then 1.0 else 0.0
  {
    LoopsTouch(namespace, n, m, c);
    LoopsTasks(namespace, n, m, c);
    CoverageInUnit({"c"}, if namespace == Task then {"c"} else {});
  }

  lemma LoopsScore(namespace: Namespace, n: nat, m: nat, c: real, coverage: real, density: real) returns (g: Graph)
    requires n > 0 && 0 < m <= 5 * n && (namespace == Task ==> n == 1) && 0.0 <= c <= 1.0
    requires coverage == if namespace == Task then 1.0 else 0.0
    requires density == m as real / n as real / 5.0
    ensures WellFormed(g) && UnitConfidences(g.edges) && RawScore(g) == Raw(coverage, density, c)
  {
    g := Loops(namespace, n, m, c);
    LoopsWellFormed(namespace, n, m, c);
    LoopsCoverage(namespace, n, m, c);
    LoopsDensity(namespace, n, m, c);
    LoopsMean(namespace, n, m, c);
  }

  /** Every grade from 0 to 1 is the score of some graph. */
  lemma GradeIsReached(k: int) returns (g: Graph)
    requires 0 <= k <= 10000
    ensures WellFormed(g) && UnitConfidences(g.edges) && RawScore(g) == Grade(k)
  {
    if k == 0 {
      g := Graph([], []);
      assert TaskIds(g.concepts) == {};
    } else if k <= 2500 {
      g := LoopsScore(Coordination, 700, 1, (k - 1) as real / 2500.0, 0.0, 1.0 / 3500.0);
    } else if k <= 3900 {
      g := LoopsScore(Coordination, 1, 2, (k - 1400) as real / 2500.0, 0.0, 0.4);
    } else if k <= 6000 {
      g := LoopsScore(Coordination, 1, 5, (k - 3500) as real / 2500.0, 0.0, 1.0);
    } else if k <= 7900 {
      g := LoopsScore(Task, 1, 2, (k - 5400) as real / 2500.0, 1.0, 0.4);
    } else {
      g := LoopsScore(Task, 1, 5, (k - 7500) as real / 2500.0, 1.0, 1.0);
    }
  }

  lemma ScoreIsGrade(g: Graph) returns (k: int)
    requires UnitConfidences(g.edges)
    ensures 0 <= k <= 10000 && Round4(RawScore(g)) == Grade(k)
  {
    ScoreInUnit(g);
    RoundedInUnit(RawScore(g));
    k := RoundHalfEven(RawScore(g) * 10000.0);
  }

  lemma GradeBetweenSeparates(k: int, proposal: real, cert: real) returns (g: Graph)
    requires 0 <= k <= 10000 && cert <= Grade(k) < proposal
    ensures WellFormed(g) && UnitConfidences(g.edges) && !CertImpliesProposal(g, proposal, cert)
  {
    g := GradeIsReached(k);
    assert RoundHalfEven(k as real) == k;
    assert RawScore(g) * 10000.0 == k as real;
  }

  lemma NoGradeBetween(g: Graph, proposal: real, cert: real)
    requires UnitConfidences(g.edges) && !GradeBetween(cert, proposal)
    ensures CertImpliesProposal(g, proposal, cert)
  {
    var k := ScoreIsGrade(g);
    assert !(cert <= Grade(k) < proposal);
  }

  /** With the certification threshold at or above the proposal threshold, as the defaults are, cert-ready
      implies proposal-ready. With the thresholds the other way round it still does on every graph, exactly
      when no grade lies between them. */
  lemma CertReadyImpliesProposalReady(proposalEnv: Option<real>, certEnv: Option<real>)
    ensures var proposal, cert := ProposalThreshold(proposalEnv), CertThreshold(certEnv);
            && (proposalEnv == certEnv == None ==> proposal < cert)
            && (proposal <= cert ==> forall g :: CertImpliesProposal(g, proposal, cert))
            && ((forall g: Graph :: WellFormed(g) && UnitConfidences(g.edges) ==>
                   CertImpliesProposal(g, proposal, cert)) <==> !GradeBetween(cert, proposal))
  {
    var proposal, cert := ProposalThreshold(proposalEnv), CertThreshold(certEnv);
    if GradeBetween(cert, proposal) {
      var k :| 0 <= k <= 10000 && cert <= Grade(k) < proposal;
      var g := GradeBetweenSeparates(k, proposal, cert);
    } else {
      forall g: Graph | UnitConfidences(g.edges)
        ensures CertImpliesProposal(g, proposal, cert)
      {
        NoGradeBetween(g, proposal, cert);
      }
    }
  }
}
