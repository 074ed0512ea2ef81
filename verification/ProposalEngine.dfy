/** Candidate agents from the knowledge graph: src/apprentice/proposal_engine.py:175-262. */
module ProposalEngine {
  import opened Common
  import opened UnionFind
  import opened Connectivity

  const MIN_CLUSTER_SIZE := 8
  const GENERAL: Id := "general"

  datatype Cluster = Cluster(id: Id, nodeIds: seq<Id>, labels: seq<string>)

  // ---------- specification ----------

  /** All task nodes linked to x, in the order in which they were loaded. */
  ghost function Component(nodes: Dict<Id, string>, edges: seq<TaskEdge>, x: Id): seq<Id> {
    Filter(nodes.keys, y => Connected(nodes.vals.Keys, edges, x, y))
  }

  ghost predicate Small(nodes: Dict<Id, string>, edges: seq<TaskEdge>, x: Id) {
    |Component(nodes, edges, x)| < 8
  }

  ghost predicate Labelled(nodes: Dict<Id, string>, c: Cluster) {
    && |c.labels| == |c.nodeIds|
    && forall i :: 0 <= i < |c.nodeIds| ==> c.nodeIds[i] in nodes.vals && c.labels[i] == nodes.vals[c.nodeIds[i]]
  }

  /** One whole component that reaches the threshold, named after one of its members. */
  ghost predicate IsWholeComponent(nodes: Dict<Id, string>, edges: seq<TaskEdge>, c: Cluster) {
    && c.id in nodes.keys
    && c.nodeIds == Component(nodes, edges, c.id)
    && !Small(nodes, edges, c.id)
  }

  /** The bucket that holds exactly the nodes of all components below the threshold. */
  ghost predicate IsGeneral(nodes: Dict<Id, string>, edges: seq<TaskEdge>, c: Cluster) {
    && c.id == GENERAL
    && c.nodeIds != []
    && Distinct(c.nodeIds)
    && (forall x {:trigger Small(nodes, edges, x)} :: x in c.nodeIds ==> x in nodes.keys && Small(nodes, edges, x))
    && (forall x {:trigger Small(nodes, edges, x)} :: x in nodes.keys && Small(nodes, edges, x) ==> x in c.nodeIds)
  }

  ghost predicate InSome(clusters: seq<Cluster>, x: Id) {
    exists i :: 0 <= i < |clusters| && x in clusters[i].nodeIds
  }

  /** Every component at or above the threshold, exactly once. */
  ghost predicate AreWholes(nodes: Dict<Id, string>, edges: seq<TaskEdge>, wholes: seq<Cluster>) {
    && (forall i :: 0 <= i < |wholes| ==> IsWholeComponent(nodes, edges, wholes[i]) && Labelled(nodes, wholes[i]))
    && (forall i, j :: 0 <= i < j < |wholes| ==> !Connected(nodes.vals.Keys, edges, wholes[i].id, wholes[j].id))
    && (forall x {:trigger InSome(wholes, x)} :: x in nodes.keys && !Small(nodes, edges, x) ==> InSome(wholes, x))
  }

  /** The first `own` clusters are the components at or above the threshold; whatever is left over is
      in the one general cluster at the end, which is absent exactly when nothing is left over. */
  ghost predicate IsClustering(nodes: Dict<Id, string>, edges: seq<TaskEdge>, clusters: seq<Cluster>, own: nat) {
    && own <= |clusters| <= own + 1
    && AreWholes(nodes, edges, clusters[..own])
    && if |clusters| == own
       then forall x {:trigger Small(nodes, edges, x)} :: x in nodes.keys ==> !Small(nodes, edges, x)
       else IsGeneral(nodes, edges, clusters[own]) && Labelled(nodes, clusters[own])
  }

  // ---------- union-find computes connectivity ----------

  /** Equal roots mean connected, over all pairs. */
  ghost predicate RootsAreConnected(nodes: set<Id>, edges: seq<TaskEdge>, root: map<Id, Id>) {
    && root.Keys == nodes
    && forall a, b :: a in nodes && b in nodes && root[a] == root[b] ==> Connected(nodes, edges, a, b)
  }

  ghost predicate EdgesShareRoots(nodes: set<Id>, edges: seq<TaskEdge>, root: map<Id, Id>) {
    && root.Keys == nodes
    && forall e :: e in edges && Joins(nodes, e, e.source, e.target) ==> root[e.source] == root[e.target]
  }

  lemma RootsDecideConnectivity(nodes: set<Id>, edges: seq<TaskEdge>, root: map<Id, Id>, a: Id, b: Id)
    requires RootsAreConnected(nodes, edges, root) && EdgesShareRoots(nodes, edges, root)
    requires a in nodes && b in nodes
    ensures root[a] == root[b] <==> Connected(nodes, edges, a, b)
  {
    if Connected(nodes, edges, a, b) {
      var p :| Chain(nodes, edges, p) && p[0] == a && p[|p| - 1] == b;
      ChainKeepsLabel(nodes, edges, p, root);
    }
  }

  lemma UnionAddsEdge(nodes: set<Id>, edges: seq<TaskEdge>, e: TaskEdge, root: map<Id, Id>)
    requires RootsAreConnected(nodes, edges, root) && EdgesShareRoots(nodes, edges, root)
    requires Joins(nodes, e, e.source, e.target)
    ensures RootsAreConnected(nodes, edges + [e], Merged(root, e.source, e.target))
    ensures EdgesShareRoots(nodes, edges + [e], Merged(root, e.source, e.target))
  {
    var more, merged := edges + [e], Merged(root, e.source, e.target);
    forall a, b | a in nodes && b in nodes && merged[a] == merged[b]
      ensures Connected(nodes, more, a, b)
    {
      ConnectedByEdge(nodes, more, e);
      ConnectedSymmetric(nodes, more, e.source, e.target);
      if root[a] == root[b] {
        ConnectedMonotone(nodes, edges, more, a, b);
      } else if root[a] == root[e.target] {
        ConnectedMonotone(nodes, edges, more, a, e.target);
        ConnectedMonotone(nodes, edges, more, e.source, b);
        ConnectedTransitive(nodes, more, a, e.target, e.source);
        ConnectedTransitive(nodes, more, a, e.source, b);
      } else {
        ConnectedMonotone(nodes, edges, more, a, e.source);
        ConnectedMonotone(nodes, edges, more, e.target, b);
        ConnectedTransitive(nodes, more, a, e.source, e.target);
        ConnectedTransitive(nodes, more, a, e.target, b);
      }
    }
  }

  lemma SkippingKeeps(nodes: set<Id>, edges: seq<TaskEdge>, e: TaskEdge, root: map<Id, Id>)
    requires RootsAreConnected(nodes, edges, root) && EdgesShareRoots(nodes, edges, root)
    requires !Joins(nodes, e, e.source, e.target)
    ensures RootsAreConnected(nodes, edges + [e], root) && EdgesShareRoots(nodes, edges + [e], root)
  {
    forall a, b | a in nodes && b in nodes && root[a] == root[b]
      ensures Connected(nodes, edges + [e], a, b)
    {
      ConnectedMonotone(nodes, edges, edges + [e], a, b);
    }
  }

  /** proposal_engine.py:180-198: afterwards two task nodes have one root exactly when they are connected. */
  method UniteEdges(nodes: set<Id>, edges: seq<TaskEdge>) returns (sets: DisjointSets)
    ensures fresh(sets) && sets.Valid() && sets.parent.Keys == nodes == sets.root.Keys
    ensures forall a, b :: a in nodes && b in nodes ==>
            (sets.root[a] == sets.root[b] <==> Connected(nodes, edges, a, b))
  {
    sets := new DisjointSets(nodes);
    forall a, b | a in nodes && b in nodes && sets.root[a] == sets.root[b]
      ensures Connected(nodes, edges[..0], a, b)
    {
      ConnectedReflexive(nodes, edges[..0], a);
    }
    for i := 0 to |edges|
      invariant fresh(sets) && sets.Valid() && sets.parent.Keys == nodes
      invariant RootsAreConnected(nodes, edges[..i], sets.root) && EdgesShareRoots(nodes, edges[..i], sets.root)
    {
      var e := edges[i];
      assert edges[..i + 1] == edges[..i] + [e];
      if IsCrossClusterRelation(e.relation) {
        SkippingKeeps(nodes, edges[..i], e, sets.root);
        continue;
      }
      if e.source in sets.parent && e.target in sets.parent {
        UnionAddsEdge(nodes, edges[..i], e, sets.root);
        sets.Union(e.source, e.target);
      } else {
        SkippingKeeps(nodes, edges[..i], e, sets.root);
      }
    }
    assert edges[..|edges|] == edges;
    forall a, b | a in nodes && b in nodes
      ensures sets.root[a] == sets.root[b] <==> Connected(nodes, edges, a, b)
    {
      RootsDecideConnectivity(nodes, edges, sets.root, a, b);
    }
  }

  // ---------- grouping by root ----------

  ghost function RootedAt(root: map<Id, Id>, r: Id): Id -> bool {
    y => y in root && root[y] == r
  }

  /** Each group holds exactly the nodes of one root, in load order; no group is empty. */
  ghost predicate IsGrouping(order: seq<Id>, root: map<Id, Id>, groups: Dict<Id, seq<Id>>) {
    && groups.Valid()
    && (forall x :: x in order ==> x in root && root[x] in groups.vals)
    && (forall r :: r in groups.vals ==> groups.vals[r] == Filter(order, RootedAt(root, r)) && groups.vals[r] != [])
  }

  lemma GroupingGrows(order: seq<Id>, x: Id, root: map<Id, Id>, groups: Dict<Id, seq<Id>>)
    requires IsGrouping(order, root, groups) && x in root
    ensures IsGrouping(order + [x], root, groups.Set(root[x], groups.GetOr(root[x], []) + [x]))
  {
    var more := groups.Set(root[x], groups.GetOr(root[x], []) + [x]);
    forall r | r in more.vals
      ensures more.vals[r] == Filter(order + [x], RootedAt(root, r))
    {
      FilterAppend(order, x, RootedAt(root, r));
      if r !in groups.vals {
        FilterContents(order, RootedAt(root, r));
        EmptyFilter(order, RootedAt(root, r));
      }
    }
  }

  /** proposal_engine.py:200-202. `Find` keeps halving paths while the groups are being read off. */
  method GroupByRoot(sets: DisjointSets, order: seq<Id>) returns (groups: Dict<Id, seq<Id>>)
    requires sets.Valid() && forall x :: x in order ==> x in sets.parent
    modifies sets`parent
    ensures sets.Valid()
    ensures IsGrouping(order, sets.root, groups)
  {
    groups := Dict([], map[]);
    for i := 0 to |order|
      invariant sets.Valid() && forall x :: x in order ==> x in sets.parent
      invariant IsGrouping(order[..i], sets.root, groups)
    {
      var r := sets.Find(order[i]);
      assert order[..i + 1] == order[..i] + [order[i]];
      GroupingGrows(order[..i], order[i], sets.root, groups);
      groups := groups.Set(r, groups.GetOr(r, []) + [order[i]]);
    }
    assert order[..|order|] == order;
  }

  function LabelsOf(nodes: Dict<Id, string>, ids: seq<Id>): (labels: seq<string>)
    requires forall x :: x in ids ==> x in nodes.vals
  {
    seq(|ids|, i requires 0 <= i < |ids| => nodes.vals[ids[i]])
  }

  // ---------- threshold and general bucket ----------

  /** The clusters the first groups contribute, in group order. */
  ghost function Wholes(nodes: Dict<Id, string>, groups: Dict<Id, seq<Id>>, keys: seq<Id>): seq<Cluster>
    requires forall r :: r in keys ==> r in groups.vals && forall x :: x in groups.vals[r] ==> x in nodes.vals
  {
    if keys == [] then [] else
      var n := |keys| - 1;
      var r := keys[n];
      Wholes(nodes, groups, keys[..n]) +
      if |groups.vals[r]| >= MIN_CLUSTER_SIZE then [Cluster(r, groups.vals[r], LabelsOf(nodes, groups.vals[r]))] else []
  }

  /** The nodes that the first groups send to the general bucket. */
  ghost function Leftover(groups: Dict<Id, seq<Id>>, keys: seq<Id>): seq<Id>
    requires forall r :: r in keys ==> r in groups.vals
  {
    if keys == [] then [] else
      var n := |keys| - 1;
      var r := keys[n];
      Leftover(groups, keys[..n]) + if |groups.vals[r]| < MIN_CLUSTER_SIZE then groups.vals[r] else []
  }

  ghost predicate IsGroup(order: seq<Id>, root: map<Id, Id>, r: Id, members: seq<Id>) {
    && Distinct(members)
    && (forall x :: x in members ==> x in order && x in root && root[x] == r)
    && (forall x :: x in order && x in root && root[x] == r ==> x in members)
  }

  lemma GroupIsClass(order: seq<Id>, root: map<Id, Id>, groups: Dict<Id, seq<Id>>, r: Id)
    requires IsGrouping(order, root, groups) && Distinct(order) && r in groups.vals
    ensures IsGroup(order, root, r, groups.vals[r])
  {
    FilterDistinct(order, RootedAt(root, r));
    FilterContents(order, RootedAt(root, r));
  }

  lemma {:induction false} LeftoverContents(order: seq<Id>, root: map<Id, Id>, groups: Dict<Id, seq<Id>>, keys: seq<Id>)
    requires IsGrouping(order, root, groups) && Distinct(order)
    requires Distinct(keys) && forall r :: r in keys ==> r in groups.vals
    ensures Distinct(Leftover(groups, keys))
    ensures forall x :: x in Leftover(groups, keys) <==>
            x in order && root[x] in keys && |groups.vals[root[x]]| < MIN_CLUSTER_SIZE
  {
    if keys != [] {
      var n := |keys| - 1;
      LeftoverContents(order, root, groups, keys[..n]);
      GroupIsClass(order, root, groups, keys[n]);
      assert keys == keys[..n] + [keys[n]];
      assert keys[n] !in keys[..n];
      DistinctConcat(Leftover(groups, keys[..n]), groups.vals[keys[n]]);
    }
  }

  ghost predicate DistinctIds(clusters: seq<Cluster>) {
    forall i, j :: 0 <= i < j < |clusters| ==> clusters[i].id != clusters[j].id
  }

  lemma {:induction false} WholesContents(nodes: Dict<Id, string>, groups: Dict<Id, seq<Id>>, keys: seq<Id>)
    requires Distinct(keys)
    requires forall r :: r in keys ==> r in groups.vals && forall x :: x in groups.vals[r] ==> x in nodes.vals
    ensures forall c :: c in Wholes(nodes, groups, keys) ==>
              c.id in keys && c.nodeIds == groups.vals[c.id] && |c.nodeIds| >= MIN_CLUSTER_SIZE && Labelled(nodes, c)
    ensures DistinctIds(Wholes(nodes, groups, keys))
    ensures forall r :: r in keys && |groups.vals[r]| >= MIN_CLUSTER_SIZE ==>
              Cluster(r, groups.vals[r], LabelsOf(nodes, groups.vals[r])) in Wholes(nodes, groups, keys)
  {
    if keys != [] {
      var n := |keys| - 1;
      WholesContents(nodes, groups, keys[..n]);
      assert keys == keys[..n] + [keys[n]];
      assert keys[n] !in keys[..n];
      var before, cs := Wholes(nodes, groups, keys[..n]), Wholes(nodes, groups, keys);
      assert DistinctIds(cs) by {
        forall i, j | 0 <= i < j < |cs|
          ensures cs[i].id != cs[j].id
        {
          assert cs[i] == before[i] && before[i] in before;
          assert before[i].id in keys[..n];
          if j < |before| {
            assert cs[j] == before[j];
          } else {
            assert cs[j].id == keys[n];
          }
        }
      }
    }
  }

  /** proposal_engine.py:204-216 */
  method SplitBySize(nodes: Dict<Id, string>, groups: Dict<Id, seq<Id>>)
    returns (clusters: seq<Cluster>, generalIds: seq<Id>)
    requires forall r :: r in groups.keys ==> r in groups.vals && forall x :: x in groups.vals[r] ==> x in nodes.vals
    ensures clusters == Wholes(nodes, groups, groups.keys)
    ensures generalIds == Leftover(groups, groups.keys)
  {
    clusters, generalIds := [], [];
    for i := 0 to |groups.keys|
      invariant clusters == Wholes(nodes, groups, groups.keys[..i])
      invariant generalIds == Leftover(groups, groups.keys[..i])
    {
      var r := groups.keys[i];
      var memberIds := groups.vals[r];
      assert groups.keys[..i + 1][..i] == groups.keys[..i];
      if |memberIds| >= MIN_CLUSTER_SIZE {
        clusters := clusters + [Cluster(r, memberIds, LabelsOf(nodes, memberIds))];
      } else {
        generalIds := generalIds + memberIds;
      }
    }
    assert groups.keys[..|groups.keys|] == groups.keys;
  }

  /** proposal_engine.py:175-227 */
  method FindClusters(nodes: Dict<Id, string>, edges: seq<TaskEdge>) returns (clusters: seq<Cluster>)
    requires nodes.Valid()
    ensures exists own: nat :: IsClustering(nodes, edges, clusters, own)
  {
    if |nodes.keys| == 0 {
      clusters := [];
      assert IsClustering(nodes, edges, clusters, 0);
      return;
    }
    assert SetOf(nodes.keys) == nodes.vals.Keys;
    var sets := UniteEdges(SetOf(nodes.keys), edges);
    var groups := GroupByRoot(sets, nodes.keys);
    GroupsHaveNodes(nodes, sets.root, groups);
    var generalIds;
    clusters, generalIds := SplitBySize(nodes, groups);
    ghost var own := |clusters|;
    GroupsAreComponents(nodes, edges, sets.parent, sets.root, sets.depth, groups);
    WholesAreComponents(nodes, edges, sets.root, groups, clusters);
    LeftoverIsSmall(nodes, edges, sets.root, groups);
    assert clusters[..own] == clusters;
    if |generalIds| > 0 {
      clusters := clusters + [Cluster(GENERAL, generalIds, LabelsOf(nodes, generalIds))];
    }
    assert IsClustering(nodes, edges, clusters, own);
  }

  lemma GroupsHaveNodes(nodes: Dict<Id, string>, root: map<Id, Id>, groups: Dict<Id, seq<Id>>)
    requires nodes.Valid() && IsGrouping(nodes.keys, root, groups)
    ensures forall r :: r in groups.keys ==> r in groups.vals && forall x :: x in groups.vals[r] ==> x in nodes.vals
  {
    forall r | r in groups.keys
      ensures r in groups.vals && forall x :: x in groups.vals[r] ==> x in nodes.vals
    {
      GroupIsClass(nodes.keys, root, groups, r);
    }
  }

  ghost predicate RootsMatch(nodes: set<Id>, edges: seq<TaskEdge>, root: map<Id, Id>) {
    && root.Keys == nodes
    && forall a, b :: a in nodes && b in nodes ==> (root[a] == root[b] <==> Connected(nodes, edges, a, b))
  }

  /** The group of x is its component, and is keyed by one of its members. */
  ghost predicate ClassMatches(nodes: Dict<Id, string>, edges: seq<TaskEdge>, root: map<Id, Id>,
                               groups: Dict<Id, seq<Id>>, x: Id)
  {
    && x in root && root[x] in groups.vals
    && groups.vals[root[x]] == Component(nodes, edges, x)
    && x in groups.vals[root[x]]
  }

  ghost predicate KeyMatches(nodes: Dict<Id, string>, root: map<Id, Id>, r: Id) {
    r in nodes.keys && r in root && root[r] == r
  }

  ghost predicate GroupsMatch(nodes: Dict<Id, string>, edges: seq<TaskEdge>, root: map<Id, Id>,
                              groups: Dict<Id, seq<Id>>)
  {
    && (forall x {:trigger ClassMatches(nodes, edges, root, groups, x)} :: x in nodes.keys ==>
        ClassMatches(nodes, edges, root, groups, x))
    && (forall r {:trigger KeyMatches(nodes, root, r)} :: r in groups.vals ==> KeyMatches(nodes, root, r))
  }

  lemma GroupsAreComponents(nodes: Dict<Id, string>, edges: seq<TaskEdge>, parent: map<Id, Id>, root: map<Id, Id>,
                            depth: map<Id, nat>, groups: Dict<Id, seq<Id>>)
    requires nodes.Valid() && IsGrouping(nodes.keys, root, groups)
    requires Forest(parent, root, depth) && RootsMatch(nodes.vals.Keys, edges, root)
    ensures GroupsMatch(nodes, edges, root, groups)
  {
    forall x | x in nodes.keys
      ensures ClassMatches(nodes, edges, root, groups, x)
    {
      FilterCongruence(nodes.keys, RootedAt(root, root[x]), y => Connected(nodes.vals.Keys, edges, x, y));
      GroupIsClass(nodes.keys, root, groups, root[x]);
    }
    forall r | r in groups.vals
      ensures KeyMatches(nodes, root, r)
    {
      GroupIsClass(nodes.keys, root, groups, r);
      var x := groups.vals[r][0];
      assert x in groups.vals[r];
      assert Placed(parent, root, depth, x);
      assert Placed(parent, root, depth, r);
    }
  }

  lemma WholesAreComponents(nodes: Dict<Id, string>, edges: seq<TaskEdge>, root: map<Id, Id>, groups: Dict<Id, seq<Id>>,
                            wholes: seq<Cluster>)
    requires nodes.Valid() && groups.Valid()
    requires RootsMatch(nodes.vals.Keys, edges, root) && GroupsMatch(nodes, edges, root, groups)
    requires forall r :: r in groups.keys ==> r in groups.vals && forall x :: x in groups.vals[r] ==> x in nodes.vals
    requires wholes == Wholes(nodes, groups, groups.keys)
    ensures AreWholes(nodes, edges, wholes)
  {
    WholesContents(nodes, groups, groups.keys);
    forall i | 0 <= i < |wholes|
      ensures IsWholeComponent(nodes, edges, wholes[i]) && Labelled(nodes, wholes[i])
    {
      assert wholes[i] in wholes;
      assert KeyMatches(nodes, root, wholes[i].id);
      assert ClassMatches(nodes, edges, root, groups, wholes[i].id);
    }
    forall i, j | 0 <= i < j < |wholes|
      ensures !Connected(nodes.vals.Keys, edges, wholes[i].id, wholes[j].id)
    {
      assert KeyMatches(nodes, root, wholes[i].id) && KeyMatches(nodes, root, wholes[j].id);
    }
    forall x | x in nodes.keys && !Small(nodes, edges, x)
      ensures InSome(wholes, x)
    {
      assert ClassMatches(nodes, edges, root, groups, x);
      var r := root[x];
      var c := Cluster(r, groups.vals[r], LabelsOf(nodes, groups.vals[r]));
      assert c in wholes;
      var i :| 0 <= i < |wholes| && wholes[i] == c;
      assert x in wholes[i].nodeIds;
    }
  }

  lemma LeftoverIsSmall(nodes: Dict<Id, string>, edges: seq<TaskEdge>, root: map<Id, Id>, groups: Dict<Id, seq<Id>>)
    requires nodes.Valid() && IsGrouping(nodes.keys, root, groups) && GroupsMatch(nodes, edges, root, groups)
    ensures Distinct(Leftover(groups, groups.keys))
    ensures forall x :: x in Leftover(groups, groups.keys) <==> x in nodes.keys && Small(nodes, edges, x)
  {
    LeftoverContents(nodes.keys, root, groups, groups.keys);
    forall x | x in nodes.keys
      ensures x in Leftover(groups, groups.keys) <==> Small(nodes, edges, x)
    {
      assert ClassMatches(nodes, edges, root, groups, x);
    }
  }
}
