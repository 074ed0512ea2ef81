/** Candidate handoffs between clusters: src/apprentice/proposal_engine.py:230-262. */
module CrossClusterEdges {
  import opened Common
  import opened Connectivity
  import opened ProposalEngine
  import opened ClusterTheorems

  datatype EdgeRow = EdgeRow(sourceId: Id, sourceLabel: string, targetId: Id, targetLabel: string, relation: string)

  datatype CrossEdge = CrossEdge(sourceLabel: string, sourceCluster: Id, targetLabel: string, targetCluster: Id,
                                 relation: string)

  ghost function RowId(): ((Id, string)) -> Id {
    (row: (Id, string)) => row.0
  }

  /** The last row of id x carries the label. */
  ghost predicate LastLabel(rows: seq<(Id, string)>, x: Id, text: string) {
    exists i :: 0 <= i < |rows| && rows[i] == (x, text) && forall j :: i < j < |rows| ==> rows[j].0 != x
  }

  ghost predicate Labels(rows: seq<(Id, string)>, vals: map<Id, string>) {
    forall x :: x in vals ==> LastLabel(rows, x, vals[x])
  }

  lemma LabelsStep(rows: seq<(Id, string)>, vals: map<Id, string>, row: (Id, string))
    requires Labels(rows, vals)
    ensures Labels(rows + [row], vals[row.0 := row.1])
  {
    var all, later := rows + [row], vals[row.0 := row.1];
    forall x | x in later
      ensures LastLabel(all, x, later[x])
    {
      if x == row.0 {
        assert all[|rows|] == (x, later[x]);
      } else {
        assert LastLabel(rows, x, vals[x]);
        var i :| 0 <= i < |rows| && rows[i] == (x, vals[x]) && forall j :: i < j < |rows| ==> rows[j].0 != x;
        assert all[i] == (x, later[x]);
      }
    }
  }

  /** proposal_engine.py:290-303: the last row of an id sets its label, the first its position. */
  method LoadTaskNodes(rows: seq<(Id, string)>) returns (nodes: Dict<Id, string>)
    ensures nodes.Valid()
    ensures nodes.keys == FirstSeen(rows, RowId())
    ensures Labels(rows, nodes.vals)
  {
    nodes := Dict([], map[]);
    for i := 0 to |rows|
      invariant nodes.Valid()
      invariant nodes.keys == FirstSeen(rows[..i], RowId())
      invariant Labels(rows[..i], nodes.vals)
    {
      assert rows[..i + 1] == rows[..i] + [rows[i]];
      FirstSeenGrows(rows[..i], rows[i], RowId());
      LabelsStep(rows[..i], nodes.vals, rows[i]);
      nodes := nodes.Set(rows[i].0, rows[i].1);
    }
    assert rows[..|rows|] == rows;
  }

  /** The cluster each node was last listed under. */
  ghost predicate IsHome(clusters: seq<Cluster>, home: map<Id, Id>) {
    && (forall i, x :: 0 <= i < |clusters| && x in clusters[i].nodeIds ==> x in home)
    && (forall x :: x in home ==> exists i: nat :: IsLastHome(clusters, x, i) && home[x] == clusters[i].id)
  }

  /** Cluster i is the last one that lists x. */
  ghost predicate IsLastHome(clusters: seq<Cluster>, x: Id, i: nat) {
    i < |clusters| && x in clusters[i].nodeIds && forall j :: i < j < |clusters| ==> x !in clusters[j].nodeIds
  }

  /** Both ends have a cluster, and not the same one. The empty id is falsy and never counts. */
  predicate Crosses(home: map<Id, Id>, row: EdgeRow) {
    && row.sourceId in home && row.targetId in home
    && home[row.sourceId] != "" && home[row.targetId] != ""
    && home[row.sourceId] != home[row.targetId]
  }

  ghost function Crossing(home: map<Id, Id>): EdgeRow -> bool {
    row => Crosses(home, row)
  }

  ghost predicate Reports(home: map<Id, Id>, picked: seq<EdgeRow>, cross: seq<CrossEdge>) {
    && |cross| == |picked|
    && forall i :: 0 <= i < |picked| ==> ReportedAs(home, picked[i], cross[i])
  }

  ghost predicate ReportedAs(home: map<Id, Id>, row: EdgeRow, edge: CrossEdge) {
    && row.sourceId in home && row.targetId in home
    && edge == CrossEdge(row.sourceLabel, home[row.sourceId], row.targetLabel, home[row.targetId], row.relation)
  }

  method HomesOf(clusters: seq<Cluster>) returns (home: map<Id, Id>)
    ensures IsHome(clusters, home)
  {
    home := map[];
    for i := 0 to |clusters|
      invariant IsHome(clusters[..i], home)
    {
      ghost var before := home;
      var ids := clusters[i].nodeIds;
      for k := 0 to |ids|
        invariant home.Keys == before.Keys + SetOf(ids[..k])
        invariant forall x :: x in home ==> home[x] == if x in ids[..k] then clusters[i].id else before[x]
      {
        home := home[ids[k] := clusters[i].id];
        assert ids[..k + 1] == ids[..k] + [ids[k]];
      }
      assert ids[..|ids|] == ids;
      HomesGrow(clusters[..i], clusters[i], before, home);
      assert clusters[..i + 1] == clusters[..i] + [clusters[i]];
    }
    assert clusters[..|clusters|] == clusters;
  }

  lemma HomesGrow(clusters: seq<Cluster>, c: Cluster, before: map<Id, Id>, home: map<Id, Id>)
    requires IsHome(clusters, before)
    requires home.Keys == before.Keys + SetOf(c.nodeIds)
    requires forall x :: x in home ==> home[x] == if x in c.nodeIds then c.id else before[x]
    ensures IsHome(clusters + [c], home)
  {
    var all := clusters + [c];
    forall i, x | 0 <= i < |all| && x in all[i].nodeIds
      ensures x in home
    {
      assert i < |clusters| ==> all[i] == clusters[i];
    }
    forall x | x in home
      ensures exists i: nat :: IsLastHome(all, x, i) && home[x] == all[i].id
    {
      if x in c.nodeIds {
        assert IsLastHome(all, x, |clusters|);
      } else {
        var i: nat :| IsLastHome(clusters, x, i) && before[x] == clusters[i].id;
        assert IsLastHome(all, x, i);
      }
    }
  }

  /** The rows that cross are reported once each, in row order, and nothing else is. */
  method FindCrossClusterEdges(clusters: seq<Cluster>, rows: seq<EdgeRow>) returns (cross: seq<CrossEdge>)
    ensures exists home :: IsHome(clusters, home) && Reports(home, Filter(rows, Crossing(home)), cross)
  {
    var nodeToCluster := HomesOf(clusters);
    ghost var home := nodeToCluster;
    cross := [];
    for i := 0 to |rows|
      invariant Reports(home, Filter(rows[..i], Crossing(home)), cross)
    {
      var row := rows[i];
      assert rows[..i + 1] == rows[..i] + [row];
      FilterAppend(rows[..i], row, Crossing(home));
      ghost var picked := Filter(rows[..i], Crossing(home));
      if row.sourceId in nodeToCluster && row.targetId in nodeToCluster {
        var sourceCluster, targetCluster := nodeToCluster[row.sourceId], nodeToCluster[row.targetId];
        if sourceCluster != "" && targetCluster != "" && sourceCluster != targetCluster {
          cross := cross + [CrossEdge(row.sourceLabel, sourceCluster, row.targetLabel, targetCluster, row.relation)];
        }
      }
    }
    assert rows[..|rows|] == rows;
  }

  /** Generated concept ids are never empty and never the name of the general bucket
      (src/apprentice/graph_writer.py:84, src/core/agent_type_service.py:69). */
  ghost predicate GeneratedIds(nodes: Dict<Id, string>) {
    forall x :: x in nodes.keys ==> x != "" && x != GENERAL
  }

  /** Cluster names tell clusters apart, so a row crosses exactly when its ends lie in two clusters. */
  lemma CrossingMeansApart(nodes: Dict<Id, string>, edges: seq<TaskEdge>, clusters: seq<Cluster>, own: nat,
                           home: map<Id, Id>, row: EdgeRow)
    requires nodes.Valid() && GeneratedIds(nodes)
    requires IsClustering(nodes, edges, clusters, own) && IsHome(clusters, home)
    requires row.sourceId in nodes.keys && row.targetId in nodes.keys
    ensures Crosses(home, row) <==> !Together(clusters, row.sourceId, row.targetId)
  {
    var i, s := HomeIsCluster(nodes, edges, clusters, own, home, row.sourceId);
    var j, t := HomeIsCluster(nodes, edges, clusters, own, home, row.targetId);
    if i != j && clusters[i].id == clusters[j].id {
      assert i < own && j < own;
      assert clusters[..own][i] == clusters[i] && clusters[..own][j] == clusters[j];
      ConnectedReflexive(nodes.vals.Keys, edges, clusters[i].id);
      assert false;
    }
    if Together(clusters, row.sourceId, row.targetId) {
      var k :| 0 <= k < |clusters| && row.sourceId in clusters[k].nodeIds && row.targetId in clusters[k].nodeIds;
      SoleCluster(nodes, edges, clusters, own, i, k, row.sourceId);
      SoleCluster(nodes, edges, clusters, own, j, k, row.targetId);
    }
  }

  lemma HomeIsCluster(nodes: Dict<Id, string>, edges: seq<TaskEdge>, clusters: seq<Cluster>, own: nat,
                      home: map<Id, Id>, x: Id) returns (i: nat, name: Id)
    requires nodes.Valid() && GeneratedIds(nodes)
    requires IsClustering(nodes, edges, clusters, own) && IsHome(clusters, home) && x in nodes.keys
    ensures i < |clusters| && x in clusters[i].nodeIds
    ensures x in home && home[x] == clusters[i].id == name && name != ""
    ensures name == GENERAL <==> i == own
  {
    i := EveryNodeIsPlaced(nodes, edges, clusters, own, x);
    assert x in home;
    i :| 0 <= i < |clusters| && x in clusters[i].nodeIds && home[x] == clusters[i].id;
    name := home[x];
    if i < own {
      assert clusters[..own][i] == clusters[i];
    }
  }

  /** On one snapshot every reported edge carries a handoff relation: any other relation would have
      merged its two ends. Every handoff edge between two clusters is reported. */
  lemma ReportedEdgesAreHandoffs(nodes: Dict<Id, string>, edges: seq<TaskEdge>, clusters: seq<Cluster>, own: nat,
                                 home: map<Id, Id>, row: EdgeRow)
    requires nodes.Valid() && GeneratedIds(nodes)
    requires IsClustering(nodes, edges, clusters, own) && IsHome(clusters, home)
    requires TaskEdge(row.sourceId, row.targetId, row.relation) in edges
    requires row.sourceId in nodes.keys && row.targetId in nodes.keys
    ensures Crosses(home, row) <==>
            IsCrossClusterRelation(row.relation) && !Together(clusters, row.sourceId, row.targetId)
  {
    CrossingMeansApart(nodes, edges, clusters, own, home, row);
    var e := TaskEdge(row.sourceId, row.targetId, row.relation);
    if !IsCrossClusterRelation(row.relation) {
      ConnectedByEdge(nodes.vals.Keys, edges, e);
      TogetherMeans(nodes, edges, clusters, own, row.sourceId, row.targetId);
    }
  }

  ghost function CandidateTest(clusters: seq<Cluster>): EdgeRow -> bool {
    (row: EdgeRow) => IsCrossClusterRelation(row.relation) && !Together(clusters, row.sourceId, row.targetId)
  }

  /** The report shows this row's labels and relation between two different clusters. */
  ghost predicate Shows(edge: CrossEdge, row: EdgeRow) {
    && IsCrossClusterRelation(edge.relation) && edge.relation == row.relation
    && edge.sourceLabel == row.sourceLabel && edge.targetLabel == row.targetLabel
    && edge.sourceCluster != edge.targetCluster
  }

  /** proposal_engine.py:89-90 on one snapshot: the two edge queries see the same edges, in any order. */
  method GatherCandidates(nodes: Dict<Id, string>, edges: seq<TaskEdge>, rows: seq<EdgeRow>)
    returns (clusters: seq<Cluster>, cross: seq<CrossEdge>)
    requires nodes.Valid() && GeneratedIds(nodes)
    requires forall row :: row in rows ==>
               TaskEdge(row.sourceId, row.targetId, row.relation) in edges && row.sourceId in nodes.keys
               && row.targetId in nodes.keys
    ensures exists own: nat :: IsClustering(nodes, edges, clusters, own)
    ensures |cross| == |Filter(rows, CandidateTest(clusters))|
    ensures forall i :: 0 <= i < |cross| ==> Shows(cross[i], Filter(rows, CandidateTest(clusters))[i])
  {
    clusters := FindClusters(nodes, edges);
    cross := FindCrossClusterEdges(clusters, rows);
    ghost var own: nat :| IsClustering(nodes, edges, clusters, own);
    ghost var home :| IsHome(clusters, home) && Reports(home, Filter(rows, Crossing(home)), cross);
    CrossingIsCandidate(nodes, edges, clusters, own, home, rows);
    ghost var picked := Filter(rows, Crossing(home));
    forall i | 0 <= i < |cross|
      ensures Shows(cross[i], picked[i])
    {
      FilterContents(rows, Crossing(home));
      assert picked[i] in picked;
      ReportedEdgesAreHandoffs(nodes, edges, clusters, own, home, picked[i]);
      assert ReportedAs(home, picked[i], cross[i]);
    }
  }

  lemma CrossingIsCandidate(nodes: Dict<Id, string>, edges: seq<TaskEdge>, clusters: seq<Cluster>, own: nat,
                            home: map<Id, Id>, rows: seq<EdgeRow>)
    requires nodes.Valid() && GeneratedIds(nodes)
    requires IsClustering(nodes, edges, clusters, own) && IsHome(clusters, home)
    requires forall row :: row in rows ==>
               TaskEdge(row.sourceId, row.targetId, row.relation) in edges && row.sourceId in nodes.keys
               && row.targetId in nodes.keys
    ensures Filter(rows, Crossing(home)) == Filter(rows, CandidateTest(clusters))
  {
    forall row | row in rows
      ensures Crossing(home)(row) == CandidateTest(clusters)(row)
    {
      ReportedEdgesAreHandoffs(nodes, edges, clusters, own, home, row);
    }
    FilterCongruence(rows, Crossing(home), CandidateTest(clusters));
  }
}
