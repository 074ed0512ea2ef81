/** The depth-bounded breadth-first count of src/apprentice/gap_detector.py:192-212. */
module BoundedSearch {
  import opened Common

  datatype EdgeRecord = EdgeRecord(sourceId: Id, targetId: Id, confidence: real)

  function Outgoing(outgoing: Dict<Id, seq<EdgeRecord>>, x: Id): seq<EdgeRecord> {
    outgoing.GetOr(x, [])
  }

  ghost predicate Steps(outgoing: Dict<Id, seq<EdgeRecord>>, u: Id, v: Id) {
    exists i :: 0 <= i < |Outgoing(outgoing, u)| && Outgoing(outgoing, u)[i].targetId == v
  }

  /** The i-th edge of the walk that leaves `start` and visits w. */
  ghost predicate StepAt(outgoing: Dict<Id, seq<EdgeRecord>>, start: Id, w: seq<Id>, i: nat)
    requires i < |w|
  {
    Steps(outgoing, if i == 0 then start else w[i - 1], w[i])
  }

  /** A walk along |w| edges that leaves `start`, visits w and so ends in the last node of w. */
  ghost predicate Walk(outgoing: Dict<Id, seq<EdgeRecord>>, start: Id, w: seq<Id>) {
    forall i {:trigger StepAt(outgoing, start, w, i)} :: 0 <= i < |w| ==> StepAt(outgoing, start, w, i)
  }

  ghost predicate WalkOf(outgoing: Dict<Id, seq<EdgeRecord>>, start: Id, v: Id, n: nat) {
    exists w :: |w| == n && n > 0 && Walk(outgoing, start, w) && w[n - 1] == v
  }

  /** v depends on start: some walk of 1 to maxDepth edges leads there. */
  ghost predicate Dependent(outgoing: Dict<Id, seq<EdgeRecord>>, start: Id, maxDepth: int, v: Id) {
    exists n: nat :: 1 <= n <= maxDepth && WalkOf(outgoing, start, v, n)
  }

  lemma WalkExtends(outgoing: Dict<Id, seq<EdgeRecord>>, start: Id, u: Id, v: Id, n: nat)
    requires WalkOf(outgoing, start, u, n) && Steps(outgoing, u, v)
    ensures WalkOf(outgoing, start, v, n + 1)
  {
    var w :| |w| == n && n > 0 && Walk(outgoing, start, w) && w[n - 1] == u;
    var longer := w + [v];
    forall i | 0 <= i < |longer|
      ensures StepAt(outgoing, start, longer, i)
    {
      if i < n {
        assert StepAt(outgoing, start, w, i);
      }
    }
    assert Walk(outgoing, start, longer);
  }

  lemma WalkBegins(outgoing: Dict<Id, seq<EdgeRecord>>, start: Id, v: Id)
    requires Steps(outgoing, start, v)
    ensures WalkOf(outgoing, start, v, 1)
  {
    assert StepAt(outgoing, start, [v], 0);
    assert Walk(outgoing, start, [v]);
  }

  // ---------- queue and visited nodes ----------

  type Entry = (Id, nat)

  /** Depths do not decrease along the queue and span at most two neighbouring levels: first in,
      first out. */
  ghost predicate Layered(queue: seq<Entry>) {
    && (forall i, j :: 0 <= i < j < |queue| ==> queue[i].1 <= queue[j].1)
    && (|queue| > 0 ==> queue[|queue| - 1].1 <= queue[0].1 + 1)
  }

  ghost predicate EntryIsWalk(outgoing: Dict<Id, seq<EdgeRecord>>, start: Id, e: Entry) {
    WalkOf(outgoing, start, e.0, e.1)
  }

  /** v is already marked at a level of at most d, or waits in the queue at such a level. */
  ghost predicate Covered(level: map<Id, nat>, queue: seq<Entry>, v: Id, d: nat) {
    || (v in level && level[v] <= d)
    || exists i :: 0 <= i < |queue| && queue[i].0 == v && queue[i].1 <= d
  }

  ghost predicate Expanded(outgoing: Dict<Id, seq<EdgeRecord>>, level: map<Id, nat>, queue: seq<Entry>, u: Id, d: nat) {
    forall v {:trigger Covered(level, queue, v, d)} :: Steps(outgoing, u, v) ==> Covered(level, queue, v, d)
  }

  ghost predicate MarkIsWalk(outgoing: Dict<Id, seq<EdgeRecord>>, start: Id, maxDepth: int, level: map<Id, nat>, v: Id)
  {
    v in level ==> 1 <= level[v] <= maxDepth && WalkOf(outgoing, start, v, level[v])
  }

  ghost predicate MarkIsExpanded(outgoing: Dict<Id, seq<EdgeRecord>>, maxDepth: int, level: map<Id, nat>,
                                 queue: seq<Entry>, u: Id)
  {
    u in level && level[u] < maxDepth ==> Expanded(outgoing, level, queue, u, level[u] + 1)
  }

  /** Everything queued or marked is reached by a walk of its depth, within the bound when marked. */
  ghost predicate Sound(outgoing: Dict<Id, seq<EdgeRecord>>, start: Id, maxDepth: int, level: map<Id, nat>,
                        queue: seq<Entry>)
  {
    && (forall e {:trigger EntryIsWalk(outgoing, start, e)} :: e in queue ==> EntryIsWalk(outgoing, start, e))
    && (forall v {:trigger MarkIsWalk(outgoing, start, maxDepth, level, v)} ::
        MarkIsWalk(outgoing, start, maxDepth, level, v))
  }

  /** The queue is layered and nothing was marked deeper than its front. */
  ghost predicate InOrder(level: map<Id, nat>, queue: seq<Entry>) {
    && Layered(queue)
    && (|queue| > 0 ==> forall v :: v in level ==> level[v] <= queue[0].1)
  }

  /** The successors of the start and of every node marked above the bound are accounted for one
      level further down. */
  ghost predicate Complete(outgoing: Dict<Id, seq<EdgeRecord>>, start: Id, maxDepth: int, level: map<Id, nat>,
                           queue: seq<Entry>)
  {
    && (maxDepth >= 1 ==> Expanded(outgoing, level, queue, start, 1))
    && (forall u {:trigger MarkIsExpanded(outgoing, maxDepth, level, queue, u)} ::
        MarkIsExpanded(outgoing, maxDepth, level, queue, u))
  }

  /** The invariant of the search. `level` is the depth at which a node was marked. */
  ghost predicate Search(outgoing: Dict<Id, seq<EdgeRecord>>, start: Id, maxDepth: int, level: map<Id, nat>,
                         queue: seq<Entry>)
  {
    && Sound(outgoing, start, maxDepth, level, queue)
    && InOrder(level, queue)
    && Complete(outgoing, start, maxDepth, level, queue)
  }

  function Pushed(edges: seq<EdgeRecord>, depth: nat): (entries: seq<Entry>)
    ensures |entries| == |edges|
    ensures forall i :: 0 <= i < |edges| ==> entries[i] == (edges[i].targetId, depth)
  {
    seq(|edges|, i requires 0 <= i < |edges| => (edges[i].targetId, depth))
  }

  /** Popping an entry whose node is already marked, or which is too deep, loses nothing: every node
      marked so far was marked no deeper than the front of the queue. */
  lemma SkipKeepsSearch(outgoing: Dict<Id, seq<EdgeRecord>>, start: Id, maxDepth: int, level: map<Id, nat>,
                        queue: seq<Entry>)
    requires Search(outgoing, start, maxDepth, level, queue) && |queue| > 0
    requires queue[0].0 in level || queue[0].1 > maxDepth
    ensures Search(outgoing, start, maxDepth, level, queue[1..])
  {
    var rest := queue[1..];
    forall e | e in rest
      ensures EntryIsWalk(outgoing, start, e)
    {
      assert e in queue;
    }
    if maxDepth >= 1 {
      ExpandedAfterPop(outgoing, level, queue, start, 1, level, rest);
    }
    forall u
      ensures MarkIsExpanded(outgoing, maxDepth, level, rest, u)
    {
      assert MarkIsExpanded(outgoing, maxDepth, level, queue, u);
      if u in level && level[u] < maxDepth {
        ExpandedAfterPop(outgoing, level, queue, u, level[u] + 1, level, rest);
      }
    }
  }

  lemma CoveredAfterPop(level: map<Id, nat>, queue: seq<Entry>, v: Id, d: nat, level': map<Id, nat>, queue': seq<Entry>)
    requires |queue| > 0 && Covered(level, queue, v, d)
    requires forall x :: x in level ==> x in level' && level'[x] == level[x]
    requires queue[1..] <= queue'
    requires (queue[0].0 in level' && level'[queue[0].0] <= queue[0].1) || queue[0].1 > d
    ensures Covered(level', queue', v, d)
  {
    if !(v in level && level[v] <= d) {
      var i :| 0 <= i < |queue| && queue[i].0 == v && queue[i].1 <= d;
      if i > 0 {
        assert queue'[i - 1] == queue[1..][i - 1] == queue[i];
      }
    }
  }

  lemma ExpandedAfterPop(outgoing: Dict<Id, seq<EdgeRecord>>, level: map<Id, nat>, queue: seq<Entry>, u: Id, d: nat,
                         level': map<Id, nat>, queue': seq<Entry>)
    requires |queue| > 0 && Expanded(outgoing, level, queue, u, d)
    requires forall x :: x in level ==> x in level' && level'[x] == level[x]
    requires queue[1..] <= queue'
    requires (queue[0].0 in level' && level'[queue[0].0] <= queue[0].1) || queue[0].1 > d
    ensures Expanded(outgoing, level', queue', u, d)
  {
    forall v | Steps(outgoing, u, v)
      ensures Covered(level', queue', v, d)
    {
      assert Covered(level, queue, v, d);
      CoveredAfterPop(level, queue, v, d, level', queue');
    }
  }

  /** The queue after marking its front: the successors wait one level further down, unless the
      bound is reached. */
  ghost function Next(outgoing: Dict<Id, seq<EdgeRecord>>, maxDepth: int, queue: seq<Entry>): seq<Entry>
    requires |queue| > 0
  {
    if queue[0].1 == maxDepth then queue[1..] else queue[1..] + Pushed(Outgoing(outgoing, queue[0].0), queue[0].1 + 1)
  }

  lemma MarkKeepsSound(outgoing: Dict<Id, seq<EdgeRecord>>, start: Id, maxDepth: int, level: map<Id, nat>,
                       queue: seq<Entry>)
    requires |queue| > 0 && Sound(outgoing, start, maxDepth, level, queue)
    requires queue[0].1 <= maxDepth
    ensures Sound(outgoing, start, maxDepth, level[queue[0].0 := queue[0].1], Next(outgoing, maxDepth, queue))
  {
    var (x, d) := queue[0];
    var after := Next(outgoing, maxDepth, queue);
    assert EntryIsWalk(outgoing, start, queue[0]);
    forall e | e in after
      ensures EntryIsWalk(outgoing, start, e)
    {
      if e in queue[1..] {
        assert e in queue;
      } else {
        var i :| 0 <= i < |Outgoing(outgoing, x)| && e == (Outgoing(outgoing, x)[i].targetId, d + 1);
        assert Steps(outgoing, x, e.0);
        WalkExtends(outgoing, start, x, e.0, d);
      }
    }
    var level' := level[x := d];
    forall v
      ensures MarkIsWalk(outgoing, start, maxDepth, level', v)
    {
      assert MarkIsWalk(outgoing, start, maxDepth, level, v);
    }
  }

  lemma MarkKeepsOrder(outgoing: Dict<Id, seq<EdgeRecord>>, maxDepth: int, level: map<Id, nat>, queue: seq<Entry>)
    requires |queue| > 0 && InOrder(level, queue)
    ensures InOrder(level[queue[0].0 := queue[0].1], Next(outgoing, maxDepth, queue))
  {
  }

  lemma MarkKeepsComplete(outgoing: Dict<Id, seq<EdgeRecord>>, start: Id, maxDepth: int, level: map<Id, nat>,
                          queue: seq<Entry>)
    requires |queue| > 0 && Complete(outgoing, start, maxDepth, level, queue)
    requires queue[0].0 !in level
    ensures Complete(outgoing, start, maxDepth, level[queue[0].0 := queue[0].1], Next(outgoing, maxDepth, queue))
  {
    var (x, d) := queue[0];
    var level', queue' := level[x := d], Next(outgoing, maxDepth, queue);
    if maxDepth >= 1 {
      ExpandedAfterPop(outgoing, level, queue, start, 1, level', queue');
    }
    forall u
      ensures MarkIsExpanded(outgoing, maxDepth, level', queue', u)
    {
      assert MarkIsExpanded(outgoing, maxDepth, level, queue, u);
      if u in level && level[u] < maxDepth {
        ExpandedAfterPop(outgoing, level, queue, u, level[u] + 1, level', queue');
      } else if u == x && d < maxDepth {
        MarkedIsExpanded(outgoing, level', queue, queue', x, d);
      }
    }
  }

  /** Marking the front node at its depth keeps the invariant. */
  lemma MarkKeepsSearch(outgoing: Dict<Id, seq<EdgeRecord>>, start: Id, maxDepth: int, level: map<Id, nat>,
                        queue: seq<Entry>)
    requires |queue| > 0 && Search(outgoing, start, maxDepth, level, queue)
    requires queue[0].0 !in level && queue[0].1 <= maxDepth
    ensures Search(outgoing, start, maxDepth, level[queue[0].0 := queue[0].1], Next(outgoing, maxDepth, queue))
  {
    MarkKeepsSound(outgoing, start, maxDepth, level, queue);
    MarkKeepsOrder(outgoing, maxDepth, level, queue);
    MarkKeepsComplete(outgoing, start, maxDepth, level, queue);
  }

  lemma MarkedIsExpanded(outgoing: Dict<Id, seq<EdgeRecord>>, level: map<Id, nat>, queue: seq<Entry>,
                         queue': seq<Entry>, x: Id, d: nat)
    requires |queue| > 0 && queue' == queue[1..] + Pushed(Outgoing(outgoing, x), d + 1)
    ensures Expanded(outgoing, level, queue', x, d + 1)
  {
    forall v | Steps(outgoing, x, v)
      ensures Covered(level, queue', v, d + 1)
    {
      var i :| 0 <= i < |Outgoing(outgoing, x)| && Outgoing(outgoing, x)[i].targetId == v;
      assert queue'[|queue| - 1 + i] == (v, d + 1);
    }
  }

  /** Once the queue is empty every walk within the bound ends in a node marked no deeper. */
  lemma {:induction false} SearchIsComplete(outgoing: Dict<Id, seq<EdgeRecord>>, start: Id, maxDepth: int,
                                            level: map<Id, nat>, v: Id, n: nat)
    requires Search(outgoing, start, maxDepth, level, [])
    requires n <= maxDepth && WalkOf(outgoing, start, v, n)
    ensures v in level && level[v] <= n
    decreases n
  {
    var w :| |w| == n && n > 0 && Walk(outgoing, start, w) && w[n - 1] == v;
    assert StepAt(outgoing, start, w, n - 1);
    if n == 1 {
      assert Expanded(outgoing, level, [], start, 1);
      assert Covered(level, [], v, 1);
    } else {
      var u, init := w[n - 2], w[..n - 1];
      forall i | 0 <= i < |init|
        ensures StepAt(outgoing, start, init, i)
      {
        assert StepAt(outgoing, start, w, i);
      }
      assert Walk(outgoing, start, init);
      assert WalkOf(outgoing, start, u, n - 1);
      SearchIsComplete(outgoing, start, maxDepth, level, u, n - 1);
      assert MarkIsExpanded(outgoing, maxDepth, level, [], u);
      assert Covered(level, [], v, level[u] + 1);
    }
  }

  /** Everything the search can ever queue. */
  ghost function Targets(outgoing: Dict<Id, seq<EdgeRecord>>): set<Id> {
    set x, i | x in outgoing.vals && 0 <= i < |outgoing.vals[x]| :: outgoing.vals[x][i].targetId
  }

  lemma WalkEndsInTargets(outgoing: Dict<Id, seq<EdgeRecord>>, start: Id, v: Id, n: nat)
    requires WalkOf(outgoing, start, v, n)
    ensures v in Targets(outgoing)
  {
    var w :| |w| == n && n > 0 && Walk(outgoing, start, w) && w[n - 1] == v;
    var u := if n == 1 then start else w[n - 2];
    assert StepAt(outgoing, start, w, n - 1);
    var i :| 0 <= i < |Outgoing(outgoing, u)| && Outgoing(outgoing, u)[i].targetId == v;
    assert u in outgoing.vals;
  }

  /** The nodes within reach, as a finite set. */
  ghost function Dependents(outgoing: Dict<Id, seq<EdgeRecord>>, start: Id, maxDepth: int): set<Id> {
    set v | v in Targets(outgoing) && Dependent(outgoing, start, maxDepth, v)
  }

  lemma DependentsAreReached(outgoing: Dict<Id, seq<EdgeRecord>>, start: Id, maxDepth: int, v: Id)
    ensures v in Dependents(outgoing, start, maxDepth) <==> Dependent(outgoing, start, maxDepth, v)
  {
    if Dependent(outgoing, start, maxDepth, v) {
      var n: nat :| 1 <= n <= maxDepth && WalkOf(outgoing, start, v, n);
      WalkEndsInTargets(outgoing, start, v, n);
    }
  }

  ghost function DependentCount(outgoing: Dict<Id, seq<EdgeRecord>>, start: Id, maxDepth: int): nat {
    |Dependents(outgoing, start, maxDepth)|
  }

  /** The number of nodes that depend on start. */
  ghost predicate IsReach(outgoing: Dict<Id, seq<EdgeRecord>>, start: Id, maxDepth: int, reach: nat) {
    exists found: set<Id> :: |found| == reach && AreDependents(outgoing, start, maxDepth, found)
  }

  ghost predicate AreDependents(outgoing: Dict<Id, seq<EdgeRecord>>, start: Id, maxDepth: int, found: set<Id>) {
    forall v {:trigger Dependent(outgoing, start, maxDepth, v)} ::
      v in found <==> Dependent(outgoing, start, maxDepth, v)
  }

  lemma CountIsReach(outgoing: Dict<Id, seq<EdgeRecord>>, start: Id, maxDepth: int)
    ensures IsReach(outgoing, start, maxDepth, DependentCount(outgoing, start, maxDepth))
  {
    var found := Dependents(outgoing, start, maxDepth);
    forall v
      ensures v in found <==> Dependent(outgoing, start, maxDepth, v)
    {
      DependentsAreReached(outgoing, start, maxDepth, v);
    }
    assert AreDependents(outgoing, start, maxDepth, found);
  }

  /** Counts the distinct nodes reached by a walk of 1 to maxDepth edges, for any graph and any bound. */
  method CountDependentConcepts(conceptId: Id, outgoing: Dict<Id, seq<EdgeRecord>>, maxDepth: int) returns (count: nat)
    ensures count == DependentCount(outgoing, conceptId, maxDepth)
    ensures IsReach(outgoing, conceptId, maxDepth, count)
  {
    var seen: set<Id> := {};
    var queue := Pushed(Outgoing(outgoing, conceptId), 1);
    ghost var level: map<Id, nat> := map[];
    InitialSearch(outgoing, conceptId, maxDepth);
    ghost var universe := FiniteReach(outgoing, conceptId);
    while |queue| > 0
      invariant Search(outgoing, conceptId, maxDepth, level, queue)
      invariant Marks(level, seen, universe) && Encloses(universe, outgoing, conceptId)
      decreases universe - seen, |queue|
    {
      var (currentId, depth) := queue[0];
      ghost var was := queue;
      queue := queue[1..];
      if currentId in seen || depth > maxDepth {
        SkipKeepsSearch(outgoing, conceptId, maxDepth, level, was);
        continue;
      }
      MarkKeepsSearch(outgoing, conceptId, maxDepth, level, was);
      MarkingShrinks(outgoing, conceptId, maxDepth, level, was, universe, seen);
      seen := seen + {currentId};
      level := level[currentId := depth];
      if depth == maxDepth {
        assert queue == Next(outgoing, maxDepth, was);
        continue;
      }
      queue := queue + Pushed(Outgoing(outgoing, currentId), depth + 1);
      assert queue == Next(outgoing, maxDepth, was);
    }
    SearchFindsDependents(outgoing, conceptId, maxDepth, level);
    CountIsReach(outgoing, conceptId, maxDepth);
    count := |seen|;
  }

  /** The visited set is the set of marked nodes, inside a finite set. */
  ghost predicate Marks(level: map<Id, nat>, seen: set<Id>, universe: set<Id>) {
    seen == level.Keys && seen <= universe
  }

  ghost predicate Reachable(outgoing: Dict<Id, seq<EdgeRecord>>, start: Id, v: Id) {
    exists n: nat :: WalkOf(outgoing, start, v, n)
  }

  ghost predicate Encloses(universe: set<Id>, outgoing: Dict<Id, seq<EdgeRecord>>, start: Id) {
    forall v {:trigger Reachable(outgoing, start, v)} :: Reachable(outgoing, start, v) ==> v in universe
  }

  /** Finitely many nodes are reachable. */
  lemma FiniteReach(outgoing: Dict<Id, seq<EdgeRecord>>, start: Id) returns (universe: set<Id>)
    ensures Encloses(universe, outgoing, start)
  {
    universe := Targets(outgoing);
    forall v | Reachable(outgoing, start, v)
      ensures v in universe
    {
      var n: nat :| WalkOf(outgoing, start, v, n);
      WalkEndsInTargets(outgoing, start, v, n);
    }
  }

  /** Marking the front node leaves strictly fewer nodes to mark. */
  lemma MarkingShrinks(outgoing: Dict<Id, seq<EdgeRecord>>, start: Id, maxDepth: int, level: map<Id, nat>,
                       queue: seq<Entry>, universe: set<Id>, seen: set<Id>)
    requires |queue| > 0 && Search(outgoing, start, maxDepth, level, queue) && Marks(level, seen, universe)
    requires Encloses(universe, outgoing, start)
    requires queue[0].0 !in seen
    ensures Marks(level[queue[0].0 := queue[0].1], seen + {queue[0].0}, universe)
    ensures universe - (seen + {queue[0].0}) < universe - seen
  {
    assert queue[0] in queue && EntryIsWalk(outgoing, start, queue[0]);
    assert Reachable(outgoing, start, queue[0].0);
  }

  lemma InitialSearch(outgoing: Dict<Id, seq<EdgeRecord>>, start: Id, maxDepth: int)
    ensures Search(outgoing, start, maxDepth, map[], Pushed(Outgoing(outgoing, start), 1))
  {
    var queue := Pushed(Outgoing(outgoing, start), 1);
    forall e | e in queue
      ensures EntryIsWalk(outgoing, start, e)
    {
      assert Steps(outgoing, start, e.0);
      WalkBegins(outgoing, start, e.0);
    }
    forall v | Steps(outgoing, start, v)
      ensures Covered(map[], queue, v, 1)
    {
      var i :| 0 <= i < |Outgoing(outgoing, start)| && Outgoing(outgoing, start)[i].targetId == v;
      assert queue[i] == (v, 1);
    }
  }

  lemma SearchFindsDependents(outgoing: Dict<Id, seq<EdgeRecord>>, start: Id, maxDepth: int, level: map<Id, nat>)
    requires Search(outgoing, start, maxDepth, level, [])
    ensures level.Keys == Dependents(outgoing, start, maxDepth)
  {
    forall v
      ensures v in level <==> v in Dependents(outgoing, start, maxDepth)
    {
      DependentsAreReached(outgoing, start, maxDepth, v);
      assert MarkIsWalk(outgoing, start, maxDepth, level, v);
      if Dependent(outgoing, start, maxDepth, v) {
        var n: nat :| 1 <= n <= maxDepth && WalkOf(outgoing, start, v, n);
        SearchIsComplete(outgoing, start, maxDepth, level, v, n);
      }
    }
  }
}
