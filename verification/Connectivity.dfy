/** What it means for two task nodes to belong together: a chain of non-handoff task edges, read
    in either direction, links them (src/apprentice/proposal_engine.py:194-198, 322-323). */
module Connectivity {
  import opened Common

  datatype TaskEdge = TaskEdge(source: Id, target: Id, relation: string)

  const CROSS_CLUSTER_RELATIONS: set<string> :=
    {"trigger", "triggers", "handoff", "hands_off_to", "passes_to", "routes_to"}

  function LowerChar(c: char): char {
    if 'A' <= c <= 'Z' then (c as int + 32) as char else c
  }

  /** Lower-casing of the ASCII letters; no other character lower-cases to a letter that occurs in
      CROSS_CLUSTER_RELATIONS, so membership is the same as with full Unicode lower-casing. */
  function Lower(s: string): string {
    seq(|s|, i requires 0 <= i < |s| => LowerChar(s[i]))
  }

  predicate IsCrossClusterRelation(relation: string) {
    Lower(relation) in CROSS_CLUSTER_RELATIONS
  }

  /** The letter case of a relation does not matter. */
  lemma CaseIsIgnored(a: string, b: string)
    requires |a| == |b|
    requires forall i :: 0 <= i < |a| ==> a[i] == b[i] || ('A' <= a[i] <= 'Z' && b[i] as int == a[i] as int + 32)
    ensures IsCrossClusterRelation(a) <==> IsCrossClusterRelation(b)
  {
    assert Lower(a) == Lower(b);
  }

  ghost predicate Joins(nodes: set<Id>, e: TaskEdge, a: Id, b: Id) {
    && !IsCrossClusterRelation(e.relation)
    && e.source in nodes && e.target in nodes
    && ((e.source == a && e.target == b) || (e.source == b && e.target == a))
  }

  ghost predicate Adjacent(nodes: set<Id>, edges: seq<TaskEdge>, a: Id, b: Id) {
    exists e :: e in edges && Joins(nodes, e, a, b)
  }

  ghost predicate LinkAt(nodes: set<Id>, edges: seq<TaskEdge>, p: seq<Id>, i: nat)
    requires 0 < i < |p|
  {
    Adjacent(nodes, edges, p[i - 1], p[i])
  }

  ghost predicate Chain(nodes: set<Id>, edges: seq<TaskEdge>, p: seq<Id>) {
    && 0 < |p|
    && (forall i :: 0 <= i < |p| ==> p[i] in nodes)
    && forall i {:trigger LinkAt(nodes, edges, p, i)} :: 0 < i < |p| ==> LinkAt(nodes, edges, p, i)
  }

  ghost predicate Connected(nodes: set<Id>, edges: seq<TaskEdge>, a: Id, b: Id) {
    exists p :: Chain(nodes, edges, p) && p[0] == a && p[|p| - 1] == b
  }

  lemma ConnectedReflexive(nodes: set<Id>, edges: seq<TaskEdge>, a: Id)
    requires a in nodes
    ensures Connected(nodes, edges, a, a)
  {
    assert Chain(nodes, edges, [a]);
  }

  lemma ConnectedSymmetric(nodes: set<Id>, edges: seq<TaskEdge>, a: Id, b: Id)
    requires Connected(nodes, edges, a, b)
    ensures Connected(nodes, edges, b, a)
  {
    var p :| Chain(nodes, edges, p) && p[0] == a && p[|p| - 1] == b;
    var q := seq(|p|, i requires 0 <= i < |p| => p[|p| - 1 - i]);
    forall i | 0 < i < |q|
      ensures LinkAt(nodes, edges, q, i)
    {
      var k := |p| - i;
      assert LinkAt(nodes, edges, p, k);
      assert q[i - 1] == p[k] && q[i] == p[k - 1];
      var e :| e in edges && Joins(nodes, e, p[k - 1], p[k]);
      assert Joins(nodes, e, p[k], p[k - 1]);
    }
    assert Chain(nodes, edges, q);
  }

  lemma ConnectedTransitive(nodes: set<Id>, edges: seq<TaskEdge>, a: Id, b: Id, c: Id)
    requires Connected(nodes, edges, a, b) && Connected(nodes, edges, b, c)
    ensures Connected(nodes, edges, a, c)
  {
    var p :| Chain(nodes, edges, p) && p[0] == a && p[|p| - 1] == b;
    var q :| Chain(nodes, edges, q) && q[0] == b && q[|q| - 1] == c;
    var r := p + q[1..];
    forall i | 0 < i < |r|
      ensures LinkAt(nodes, edges, r, i)
    {
      if i < |p| {
        assert LinkAt(nodes, edges, p, i);
      } else {
        assert LinkAt(nodes, edges, q, i - |p| + 1);
      }
    }
    assert Chain(nodes, edges, r);
  }

  lemma ConnectedMonotone(nodes: set<Id>, edges: seq<TaskEdge>, more: seq<TaskEdge>, a: Id, b: Id)
    requires forall e :: e in edges ==> e in more
    requires Connected(nodes, edges, a, b)
    ensures Connected(nodes, more, a, b)
  {
    var p :| Chain(nodes, edges, p) && p[0] == a && p[|p| - 1] == b;
    forall i | 0 < i < |p|
      ensures LinkAt(nodes, more, p, i)
    {
      assert LinkAt(nodes, edges, p, i);
    }
    assert Chain(nodes, more, p);
  }

  lemma ConnectedByEdge(nodes: set<Id>, edges: seq<TaskEdge>, e: TaskEdge)
    requires e in edges && Joins(nodes, e, e.source, e.target)
    ensures Connected(nodes, edges, e.source, e.target)
  {
    assert Adjacent(nodes, edges, e.source, e.target);
    assert LinkAt(nodes, edges, [e.source, e.target], 1);
    assert Chain(nodes, edges, [e.source, e.target]);
  }

  /** A labelling that agrees across every joining edge is constant on chains. */
  lemma {:induction false} ChainKeepsLabel(nodes: set<Id>, edges: seq<TaskEdge>, p: seq<Id>, mark: map<Id, Id>)
    requires Chain(nodes, edges, p)
    requires nodes <= mark.Keys
    requires forall e :: e in edges && Joins(nodes, e, e.source, e.target) ==> mark[e.source] == mark[e.target]
    ensures mark[p[0]] == mark[p[|p| - 1]]
  {
    if |p| > 1 {
      var n := |p| - 1;
      forall i | 0 < i < n
        ensures LinkAt(nodes, edges, p[..n], i)
      {
        assert LinkAt(nodes, edges, p, i);
      }
      assert Chain(nodes, edges, p[..n]);
      assert LinkAt(nodes, edges, p, n);
      ChainKeepsLabel(nodes, edges, p[..n], mark);
      var e :| e in edges && Joins(nodes, e, p[n - 1], p[n]);
      assert Joins(nodes, e, e.source, e.target);
    }
  }
}
