/** The readiness score and its flags: src/apprentice/readiness_scorer.py:16-126. */
module Readiness {
  import opened Common
  import opened GraphWriter

  const DEFAULT_PROPOSAL_THRESHOLD := 0.55
  const DEFAULT_CERT1_THRESHOLD := 0.80
  const EDGE_DENSITY_CAP := 5.0

  datatype KeyKind = PhaseKey | LearningRateKey | ReadinessScoreKey | ProposalReadyKey | CertReadyKey

  datatype Value = Number(number: real) | Flag(flag: bool) | Word(word: string)

  /** Agent state in Redis, by agent type and key (src/core/redis_keys.py). */
  type StateKeys = map<(string, KeyKind), Value>

  datatype Score = Score(score: real, nodeCoverage: real, edgeDensity: real, confidenceMean: real, proposalReady: bool,
                         certReady: bool)

  // ---------- specification ----------

  function TaskIds(concepts: seq<Concept>): set<Id> {
    set c | c in concepts && c.namespace == Task :: c.id
  }

  function TouchedIds(edges: seq<Edge>): set<Id> {
    (set e | e in edges :: e.source) + (set e | e in edges :: e.target)
  }

  function CoverageOf(touched: set<Id>, tasks: set<Id>): real {
    if tasks == {} then 0.0 else |touched * tasks| as real / |tasks| as real
  }

  function NodeCoverage(g: Graph): real {
    CoverageOf(TouchedIds(g.edges), TaskIds(g.concepts))
  }

  function EdgeDensity(g: Graph): real {
    if |g.concepts| == 0 then 0.0 else
      var density := |g.edges| as real / |g.concepts| as real / EDGE_DENSITY_CAP;
      if density < 1.0 then density else 1.0
  }

  function SumConfidence(edges: seq<Edge>): real {
    if edges == [] then 0.0 else SumConfidence(edges[..|edges| - 1]) + edges[|edges| - 1].confidence
  }

  function ConfidenceMean(g: Graph): real {
    if g.edges == [] then 0.0 else SumConfidence(g.edges) / |g.edges| as real
  }

  /** The score before rounding. */
  function Raw(coverage: real, density: real, mean: real): real {
    0.40 * coverage + 0.35 * density + 0.25 * mean
  }

  function RawScore(g: Graph): real {
    Raw(NodeCoverage(g), EdgeDensity(g), ConfidenceMean(g))
  }

  function ScoreOf(g: Graph, proposalThreshold: real, certThreshold: real): Score {
    var score := Round4(RawScore(g));
    Score(score, Round4(NodeCoverage(g)), Round4(EdgeDensity(g)), Round4(ConfidenceMean(g)), score >= proposalThreshold,
          score >= certThreshold)
  }

  /** An end of an edge row, with the namespace the join returns for it. */
  predicate IsTask(concepts: seq<Concept>, id: Id) {
    exists i :: 0 <= i < |concepts| && concepts[i].id == id && concepts[i].namespace == Task
  }

  /** readiness_scorer.py:121-126: the environment overrides a default. */
  function Threshold(environment: Option<real>, default: real): real {
    if environment.Some? then environment.value else default
  }

  function ProposalThreshold(environment: Option<real>): real {
    Threshold(environment, DEFAULT_PROPOSAL_THRESHOLD)
  }

  function CertThreshold(environment: Option<real>): real {
    Threshold(environment, DEFAULT_CERT1_THRESHOLD)
  }

  // ---------- the code ----------

  /** readiness_scorer.py:97-109 */
  method TaskConceptIds(concepts: seq<Concept>) returns (ids: set<Id>)
    ensures ids == TaskIds(concepts)
  {
    ids := {};
    for i := 0 to |concepts|
      invariant ids == TaskIds(concepts[..i])
    {
      assert concepts[..i + 1] == concepts[..i] + [concepts[i]];
      if concepts[i].namespace == Task {
        ids := ids + {concepts[i].id};
      }
    }
    assert concepts[..|concepts|] == concepts;
  }

  lemma CoveredStep(edges: seq<Edge>, i: nat, tasks: set<Id>)
    requires i < |edges|
    ensures TouchedIds(edges[..i + 1]) * tasks ==
            TouchedIds(edges[..i]) * tasks + {edges[i].source, edges[i].target} * tasks
  {
    assert edges[..i + 1] == edges[..i] + [edges[i]];
  }

  lemma TaskIdsAreTasks(concepts: seq<Concept>, id: Id)
    ensures IsTask(concepts, id) <==> id in TaskIds(concepts)
  {
    if IsTask(concepts, id) {
      var k :| 0 <= k < |concepts| && concepts[k].id == id && concepts[k].namespace == Task;
      assert concepts[k] in concepts;
    }
    if id in TaskIds(concepts) {
      var c :| c in concepts && c.namespace == Task && c.id == id;
      var k :| 0 <= k < |concepts| && concepts[k] == c;
    }
  }

  /** readiness_scorer.py:57-67 */
  method CoveredIds(g: Graph) returns (covered: set<Id>)
    ensures covered == TouchedIds(g.edges) * TaskIds(g.concepts)
  {
    covered := {};
    for i := 0 to |g.edges|
      invariant covered == TouchedIds(g.edges[..i]) * TaskIds(g.concepts)
    {
      CoveredStep(g.edges, i, TaskIds(g.concepts));
      TaskIdsAreTasks(g.concepts, g.edges[i].source);
      TaskIdsAreTasks(g.concepts, g.edges[i].target);
      if IsTask(g.concepts, g.edges[i].source) {
        covered := covered + {g.edges[i].source};
      }
      if IsTask(g.concepts, g.edges[i].target) {
        covered := covered + {g.edges[i].target};
      }
    }
    assert g.edges[..|g.edges|] == g.edges;
  }

  /** readiness_scorer.py:50-70 */
  method ComputeNodeCoverage(g: Graph) returns (coverage: real)
    ensures coverage == NodeCoverage(g)
  {
    var taskConcepts := TaskConceptIds(g.concepts);
    if taskConcepts == {} {
      return 0.0;
    }
    var covered := CoveredIds(g);
    assert covered * taskConcepts == TouchedIds(g.edges) * taskConcepts;
    return |covered * taskConcepts| as real / |taskConcepts| as real;
  }

  /** readiness_scorer.py:84-94 */
  method ComputeConfidenceMean(g: Graph) returns (mean: real)
    ensures mean == ConfidenceMean(g)
  {
    var sum := 0.0;
    for i := 0 to |g.edges|
      invariant sum == SumConfidence(g.edges[..i])
    {
      assert g.edges[..i + 1][..i] == g.edges[..i];
      sum := sum + g.edges[i].confidence;
    }
    assert g.edges[..|g.edges|] == g.edges;
    if |g.edges| == 0 {
      return 0.0;
    }
    return sum / |g.edges| as real;
  }

  function WithScore(keys: StateKeys, agentType: string, result: Score): StateKeys {
    keys[(agentType, ReadinessScoreKey) := Number(result.score)]
        [(agentType, ProposalReadyKey) := Flag(result.proposalReady)]
        [(agentType, CertReadyKey) := Flag(result.certReady)]
  }

  /** The score and each flag are under their own key, and no other key has changed. */
  ghost predicate StoresScore(was: StateKeys, keys: StateKeys, agentType: string, result: Score) {
    var mine := {(agentType, ReadinessScoreKey), (agentType, ProposalReadyKey), (agentType, CertReadyKey)};
    && keys.Keys == was.Keys + mine
    && keys[(agentType, ReadinessScoreKey)] == Number(result.score)
    && keys[(agentType, ProposalReadyKey)] == Flag(result.proposalReady)
    && keys[(agentType, CertReadyKey)] == Flag(result.certReady)
    && forall k :: k in was && k !in mine ==> keys[k] == was[k]
  }

  class StateStore {
    var keys: StateKeys

    constructor ()
      ensures keys == map[]
    {
      keys := map[];
    }

    /** readiness_scorer.py:21-47. The environment may set either threshold. */
    method ComputeAndStore(agentType: string, g: Graph, proposalEnv: Option<real>, certEnv: Option<real>)
      returns (result: Score)
      modifies this
      ensures result == ScoreOf(g, ProposalThreshold(proposalEnv), CertThreshold(certEnv))
      ensures result.score == Round4(0.40 * NodeCoverage(g) + 0.35 * EdgeDensity(g) + 0.25 * ConfidenceMean(g))
      ensures result.nodeCoverage == Round4(NodeCoverage(g)) && result.edgeDensity == Round4(EdgeDensity(g))
      ensures result.confidenceMean == Round4(ConfidenceMean(g))
      ensures result.proposalReady <==> result.score >= if proposalEnv.Some? then proposalEnv.value else 0.55
      ensures result.certReady <==> result.score >= if certEnv.Some? then certEnv.value else 0.80
      ensures keys == WithScore(old(keys), agentType, result)
      ensures StoresScore(old(keys), keys, agentType, result)
    {
      var coverage := ComputeNodeCoverage(g);
      var density := EdgeDensity(g);
      var mean := ComputeConfidenceMean(g);
      var score := Round4(Raw(coverage, density, mean));
      result := Score(score, Round4(coverage), Round4(density), Round4(mean),
                      score >= ProposalThreshold(proposalEnv), score >= CertThreshold(certEnv));
      keys := keys[(agentType, ReadinessScoreKey) := Number(result.score)];
      keys := keys[(agentType, ProposalReadyKey) := Flag(result.proposalReady)];
      keys := keys[(agentType, CertReadyKey) := Flag(result.certReady)];
    }
  }
}
