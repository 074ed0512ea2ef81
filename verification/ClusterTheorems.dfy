/** What every clustering satisfies, whatever the edge order and whichever roots union-find chose. */
module ClusterTheorems {
  import opened Common
  import opened Connectivity
  import opened ProposalEngine

  /** Two nodes share a cluster exactly when they are connected or both belong to small components. */
  lemma ClusterMembersBelongTogether(nodes: Dict<Id, string>, edges: seq<TaskEdge>, clusters: seq<Cluster>, own: nat,
                                     i: nat, j: nat, a: Id, b: Id)
    requires nodes.Valid() && IsClustering(nodes, edges, clusters, own)
    ensures i < |clusters| && j < |clusters| && a in clusters[i].nodeIds && b in clusters[j].nodeIds ==>
              && a in nodes.keys && b in nodes.keys
              && (i == j <==>
                  Connected(nodes.vals.Keys, edges, a, b) || (Small(nodes, edges, a) && Small(nodes, edges, b)))
  {
    if i < |clusters| && j < |clusters| && a in clusters[i].nodeIds && b in clusters[j].nodeIds {
      MembersBelongTogether(nodes, edges, clusters, own, i, j, a, b);
    }
  }

  lemma MembersBelongTogether(nodes: Dict<Id, string>, edges: seq<TaskEdge>, clusters: seq<Cluster>, own: nat,
                              i: nat, j: nat, a: Id, b: Id)
    requires nodes.Valid() && IsClustering(nodes, edges, clusters, own)
    requires i < |clusters| && j < |clusters| && a in clusters[i].nodeIds && b in clusters[j].nodeIds
    ensures a in nodes.keys && b in nodes.keys
    ensures i == j <==> Connected(nodes.vals.Keys, edges, a, b) || (Small(nodes, edges, a) && Small(nodes, edges, b))
  {
    var ns := nodes.vals.Keys;
    MemberIsLinked(nodes, edges, clusters, own, i, a);
    MemberIsLinked(nodes, edges, clusters, own, j, b);
    if i < own && j < own {
      var x, y := clusters[i].id, clusters[j].id;
      if i == j {
        ConnectedSymmetric(ns, edges, x, a);
        ConnectedTransitive(ns, edges, a, x, b);
      } else if Connected(ns, edges, a, b) {
        ConnectedTransitive(ns, edges, x, a, b);
        ConnectedSymmetric(ns, edges, y, b);
        ConnectedTransitive(ns, edges, x, b, y);
        assert clusters[..own][i] == clusters[i] && clusters[..own][j] == clusters[j];
        if j < i {
          ConnectedSymmetric(ns, edges, x, y);
        }
        assert false;
      }
    } else if (i < own || j < own) && Connected(ns, edges, a, b) {
      ConnectedShareSize(nodes, edges, a, b);
    }
  }

  lemma MemberIsLinked(nodes: Dict<Id, string>, edges: seq<TaskEdge>, clusters: seq<Cluster>, own: nat, i: nat, a: Id)
    requires nodes.Valid() && IsClustering(nodes, edges, clusters, own)
    requires i < |clusters| && a in clusters[i].nodeIds
    ensures a in nodes.keys
    ensures i < own ==>
            clusters[i].id in nodes.keys && Connected(nodes.vals.Keys, edges, clusters[i].id, a)
            && !Small(nodes, edges, a)
    ensures i >= own ==> i == own && Small(nodes, edges, a)
  {
    if i < own {
      var x := clusters[i].id;
      assert clusters[..own][i] == clusters[i];
      FilterContents(nodes.keys, y => Connected(nodes.vals.Keys, edges, x, y));
      ConnectedShareSize(nodes, edges, x, a);
    }
  }

  /** Connected nodes have the same component. */
  lemma ConnectedShareSize(nodes: Dict<Id, string>, edges: seq<TaskEdge>, a: Id, b: Id)
    requires nodes.Valid() && Connected(nodes.vals.Keys, edges, a, b)
    ensures Component(nodes, edges, a) == Component(nodes, edges, b)
  {
    var ns := nodes.vals.Keys;
    ConnectedSymmetric(ns, edges, a, b);
    forall y | y in nodes.keys
      ensures Connected(ns, edges, a, y) == Connected(ns, edges, b, y)
    {
      if Connected(ns, edges, a, y) {
        ConnectedTransitive(ns, edges, b, a, y);
      }
      if Connected(ns, edges, b, y) {
        ConnectedTransitive(ns, edges, a, b, y);
      }
    }
    FilterCongruence(nodes.keys, y => Connected(ns, edges, a, y), y => Connected(ns, edges, b, y));
  }

  /** Every task node has a cluster. */
  lemma EveryNodeIsPlaced(nodes: Dict<Id, string>, edges: seq<TaskEdge>, clusters: seq<Cluster>, own: nat, x: Id)
    returns (i: nat)
    requires nodes.Valid() && IsClustering(nodes, edges, clusters, own) && x in nodes.keys
    ensures i < |clusters| && x in clusters[i].nodeIds
  {
    if Small(nodes, edges, x) {
      i := own;
    } else {
      assert InSome(clusters[..own], x);
      i :| 0 <= i < own && x in clusters[..own][i].nodeIds;
    }
  }

  // ---------- partition ----------

  function AllIds(clusters: seq<Cluster>): seq<Id> {
    if clusters == [] then [] else AllIds(clusters[..|clusters| - 1]) + clusters[|clusters| - 1].nodeIds
  }

  lemma {:induction false} AllIdsContents(clusters: seq<Cluster>)
    ensures forall x :: x in AllIds(clusters) <==> InSome(clusters, x)
  {
    if clusters != [] {
      var n := |clusters| - 1;
      AllIdsContents(clusters[..n]);
      forall x
        ensures x in AllIds(clusters) <==> InSome(clusters, x)
      {
        if InSome(clusters[..n], x) {
          var i :| 0 <= i < n && x in clusters[..n][i].nodeIds;
          assert x in clusters[i].nodeIds;
        }
        if InSome(clusters, x) && x !in clusters[n].nodeIds {
          var i :| 0 <= i < |clusters| && x in clusters[i].nodeIds;
          assert x in clusters[..n][i].nodeIds;
        }
      }
    }
  }

  lemma {:induction false} AllIdsDistinct(clusters: seq<Cluster>)
    requires forall i :: 0 <= i < |clusters| ==> Distinct(clusters[i].nodeIds)
    requires forall i, j, x :: 0 <= i < j < |clusters| && x in clusters[i].nodeIds ==> x !in clusters[j].nodeIds
    ensures Distinct(AllIds(clusters))
  {
    if clusters != [] {
      var n := |clusters| - 1;
      AllIdsDistinct(clusters[..n]);
      AllIdsContents(clusters[..n]);
      forall x | x in AllIds(clusters[..n])
        ensures x !in clusters[n].nodeIds
      {
        var i :| 0 <= i < n && x in clusters[..n][i].nodeIds;
        assert x in clusters[i].nodeIds;
      }
      DistinctConcat(AllIds(clusters[..n]), clusters[n].nodeIds);
    }
  }

  lemma SoleCluster(nodes: Dict<Id, string>, edges: seq<TaskEdge>, clusters: seq<Cluster>, own: nat, i: nat, j: nat,
                    x: Id)
    requires nodes.Valid() && IsClustering(nodes, edges, clusters, own)
    requires i < |clusters| && j < |clusters| && x in clusters[i].nodeIds && x in clusters[j].nodeIds
    ensures i == j
  {
    ClusterMembersBelongTogether(nodes, edges, clusters, own, i, j, x, x);
    ConnectedReflexive(nodes.vals.Keys, edges, x);
  }

  lemma ClusterIsDistinct(nodes: Dict<Id, string>, edges: seq<TaskEdge>, clusters: seq<Cluster>, own: nat, i: nat)
    requires nodes.Valid() && IsClustering(nodes, edges, clusters, own) && i < |clusters|
    ensures Distinct(clusters[i].nodeIds)
  {
    if i < own {
      assert clusters[..own][i] == clusters[i];
      FilterDistinct(nodes.keys, y => Connected(nodes.vals.Keys, edges, clusters[i].id, y));
    }
  }

  lemma ClustersRepeatNothing(nodes: Dict<Id, string>, edges: seq<TaskEdge>, clusters: seq<Cluster>, own: nat)
    requires nodes.Valid() && IsClustering(nodes, edges, clusters, own)
    ensures Distinct(AllIds(clusters))
  {
    forall i | 0 <= i < |clusters|
      ensures Distinct(clusters[i].nodeIds)
    {
      ClusterIsDistinct(nodes, edges, clusters, own, i);
    }
    forall i, j, x | 0 <= i < j < |clusters| && x in clusters[i].nodeIds
      ensures x !in clusters[j].nodeIds
    {
      if x in clusters[j].nodeIds {
        SoleCluster(nodes, edges, clusters, own, i, j, x);
      }
    }
    AllIdsDistinct(clusters);
  }

  /** The clusters partition all task nodes: every node occurs exactly once over all clusters, so the
      sizes add up to the node count. */
  lemma ClustersPartitionNodes(nodes: Dict<Id, string>, edges: seq<TaskEdge>, clusters: seq<Cluster>, own: nat)
    requires nodes.Valid() && IsClustering(nodes, edges, clusters, own)
    ensures Distinct(AllIds(clusters))
    ensures forall x :: x in AllIds(clusters) <==> x in nodes.keys
    ensures |AllIds(clusters)| == |nodes.keys|
  {
    ClustersRepeatNothing(nodes, edges, clusters, own);
    ClustersCoverNodes(nodes, edges, clusters, own);
    SameElementsSameLength(AllIds(clusters), nodes.keys);
  }

  lemma ClustersCoverNodes(nodes: Dict<Id, string>, edges: seq<TaskEdge>, clusters: seq<Cluster>, own: nat)
    requires nodes.Valid() && IsClustering(nodes, edges, clusters, own)
    ensures forall x :: x in AllIds(clusters) <==> x in nodes.keys
  {
    AllIdsContents(clusters);
    forall x
      ensures x in AllIds(clusters) <==> x in nodes.keys
    {
      if InSome(clusters, x) {
        var i :| 0 <= i < |clusters| && x in clusters[i].nodeIds;
        MemberIsLinked(nodes, edges, clusters, own, i, x);
      }
      if x in nodes.keys {
        var i := EveryNodeIsPlaced(nodes, edges, clusters, own, x);
      }
    }
  }

  // ---------- order independence ----------

  ghost predicate Together(clusters: seq<Cluster>, a: Id, b: Id) {
    exists i :: 0 <= i < |clusters| && a in clusters[i].nodeIds && b in clusters[i].nodeIds
  }

  lemma TogetherMeans(nodes: Dict<Id, string>, edges: seq<TaskEdge>, clusters: seq<Cluster>, own: nat, a: Id, b: Id)
    requires nodes.Valid() && IsClustering(nodes, edges, clusters, own)
    requires a in nodes.keys && b in nodes.keys
    ensures Together(clusters, a, b) <==>
            Connected(nodes.vals.Keys, edges, a, b) || (Small(nodes, edges, a) && Small(nodes, edges, b))
  {
    var i := EveryNodeIsPlaced(nodes, edges, clusters, own, a);
    var j := EveryNodeIsPlaced(nodes, edges, clusters, own, b);
    ClusterMembersBelongTogether(nodes, edges, clusters, own, i, j, a, b);
    if Together(clusters, a, b) {
      var k :| 0 <= k < |clusters| && a in clusters[k].nodeIds && b in clusters[k].nodeIds;
      ClusterMembersBelongTogether(nodes, edges, clusters, own, k, k, a, b);
    }
  }

  lemma ComponentSizeIgnoresOrder(nodes: Dict<Id, string>, nodes': Dict<Id, string>, edges: seq<TaskEdge>,
                                  edges': seq<TaskEdge>, a: Id)
    requires nodes.Valid() && nodes'.Valid() && nodes.vals == nodes'.vals
    requires forall e :: e in edges <==> e in edges'
    ensures forall b :: Connected(nodes.vals.Keys, edges, a, b) <==> Connected(nodes.vals.Keys, edges', a, b)
    ensures |Component(nodes, edges, a)| == |Component(nodes', edges', a)|
  {
    var ns := nodes.vals.Keys;
    forall b
      ensures Connected(ns, edges, a, b) <==> Connected(ns, edges', a, b)
    {
      if Connected(ns, edges, a, b) {
        ConnectedMonotone(ns, edges, edges', a, b);
      }
      if Connected(ns, edges', a, b) {
        ConnectedMonotone(ns, edges', edges, a, b);
      }
    }
    var p, p' := (y: Id) => Connected(ns, edges, a, y), (y: Id) => Connected(ns, edges', a, y);
    FilterDistinct(nodes.keys, p);
    FilterDistinct(nodes'.keys, p');
    FilterContents(nodes.keys, p);
    FilterContents(nodes'.keys, p');
    DistinctCardinality(Filter(nodes.keys, p));
    DistinctCardinality(Filter(nodes'.keys, p'));
    assert SetOf(Filter(nodes.keys, p)) == SetOf(Filter(nodes'.keys, p'));
  }

  /** The grouping is a function of the node set and the edge set: rows in another order, or repeated
      edges, put the same nodes together. */
  lemma ClusteringIgnoresOrder(nodes: Dict<Id, string>, nodes': Dict<Id, string>, edges: seq<TaskEdge>,
                               edges': seq<TaskEdge>,
                               clusters: seq<Cluster>, own: nat, clusters': seq<Cluster>, own': nat, a: Id, b: Id)
    requires nodes.Valid() && nodes'.Valid() && nodes.vals == nodes'.vals
    requires forall e :: e in edges <==> e in edges'
    requires IsClustering(nodes, edges, clusters, own) && IsClustering(nodes', edges', clusters', own')
    requires a in nodes.keys && b in nodes.keys
    ensures Together(clusters, a, b) <==> Together(clusters', a, b)
  {
    TogetherMeans(nodes, edges, clusters, own, a, b);
    TogetherMeans(nodes', edges', clusters', own', a, b);
    ComponentSizeIgnoresOrder(nodes, nodes', edges, edges', a);
    ComponentSizeIgnoresOrder(nodes, nodes', edges, edges', b);
  }
}
