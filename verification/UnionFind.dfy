/** The parent forest of src/apprentice/proposal_engine.py:180-192: `find` halves paths while it
    climbs, `union` links the right root under the left one and keeps no rank. */
module UnionFind {
  import opened Common

  /** What a forest says of one node: its pointer stays inside, its root is self-parented and shared
      with its parent, and `depth` strictly falls along a pointer that leaves the node. */
  ghost predicate Placed(parent: map<Id, Id>, root: map<Id, Id>, depth: map<Id, nat>, x: Id)
    requires parent.Keys == root.Keys == depth.Keys && x in parent
  {
    && parent[x] in parent
    && root[x] in parent
    && parent[root[x]] == root[x]
    && root[parent[x]] == root[x]
    && (parent[x] == x ==> root[x] == x)
    && (parent[x] != x ==> depth[parent[x]] < depth[x])
  }

  /** The parent pointers form a forest in which `root` names the root every node climbs to. */
  ghost predicate Forest(parent: map<Id, Id>, root: map<Id, Id>, depth: map<Id, nat>) {
    && parent.Keys == root.Keys == depth.Keys
    && forall x {:trigger Placed(parent, root, depth, x)} :: x in parent ==> Placed(parent, root, depth, x)
  }

  /** The node reached from x by following k parent pointers. */
  ghost function Climb(parent: map<Id, Id>, x: Id, k: nat): Id
    decreases k
  {
    if k == 0 || x !in parent then x else Climb(parent, parent[x], k - 1)
  }

  /** The root a forest assigns is the self-parented node its own pointers climb to. */
  lemma {:induction false} RootIsReached(parent: map<Id, Id>, root: map<Id, Id>, depth: map<Id, nat>, x: Id)
    returns (k: nat)
    requires Forest(parent, root, depth) && x in parent
    ensures Climb(parent, x, k) == root[x]
    decreases depth[x]
  {
    assert Placed(parent, root, depth, x);
    if parent[x] == x {
      k := 0;
    } else {
      var above := RootIsReached(parent, root, depth, parent[x]);
      k := above + 1;
    }
  }

  lemma {:induction false} ClimbKeepsRoot(parent: map<Id, Id>, root: map<Id, Id>, depth: map<Id, nat>, x: Id, k: nat)
    requires Forest(parent, root, depth) && x in parent
    ensures Climb(parent, x, k) in parent
    ensures root[Climb(parent, x, k)] == root[x]
    decreases k
  {
    assert Placed(parent, root, depth, x);
    if k != 0 {
      ClimbKeepsRoot(parent, root, depth, parent[x], k - 1);
    }
  }

  /** Uniqueness: whichever self-parented node x climbs to, in any number of steps, is root[x];
      so `root` is a function of the parent pointers alone. */
  lemma {:induction false} RootIsUnique(parent: map<Id, Id>, root: map<Id, Id>, depth: map<Id, nat>, x: Id, r: Id)
    requires Forest(parent, root, depth) && x in parent && r in parent
    ensures r == root[x] <==> parent[r] == r && exists k: nat :: Climb(parent, x, k) == r
  {
    assert Placed(parent, root, depth, x) && Placed(parent, root, depth, r);
    if r == root[x] {
      var k := RootIsReached(parent, root, depth, x);
      assert Climb(parent, x, k) == r;
    }
    if parent[r] == r && exists k: nat :: Climb(parent, x, k) == r {
      var k: nat :| Climb(parent, x, k) == r;
      ClimbKeepsRoot(parent, root, depth, x, k);
    }
  }

  /** Path halving: redirecting one node to its grandparent changes no root. */
  lemma HalvingKeepsForest(parent: map<Id, Id>, root: map<Id, Id>, depth: map<Id, nat>, x: Id)
    requires Forest(parent, root, depth) && x in parent
    ensures parent[x] in parent
    ensures Forest(parent[x := parent[parent[x]]], root, depth)
  {
    assert Placed(parent, root, depth, x);
    assert Placed(parent, root, depth, parent[x]);
    var halved := parent[x := parent[parent[x]]];
    forall y | y in halved
      ensures Placed(halved, root, depth, y)
    {
      assert Placed(parent, root, depth, y);
      assert Placed(parent, root, depth, root[y]);
    }
  }

  /** The roots after the class of `right` has been merged into the class of `left`. */
  ghost function Merged(root: map<Id, Id>, left: Id, right: Id): map<Id, Id>
    requires left in root && right in root
  {
    map x | x in root :: if root[x] == root[right] then root[left] else root[x]
  }

  /** Depths that make room for the tree of `to` to hang under `onto`. */
  ghost function Lowered(root: map<Id, Id>, depth: map<Id, nat>, onto: Id, to: Id): map<Id, nat>
    requires root.Keys == depth.Keys && onto in root
  {
    map x | x in depth :: if root[x] == to then depth[x] + depth[onto] + 1 else depth[x]
  }

  /** Linking one root under another merges exactly their two classes. */
  lemma LinkingMerges(parent: map<Id, Id>, root: map<Id, Id>, depth: map<Id, nat>, left: Id, right: Id)
    requires Forest(parent, root, depth) && left in parent && right in parent
    requires root[left] != root[right] && root[left] in root && root[right] in root
    ensures Forest(parent[root[right] := root[left]], Merged(root, left, right),
                   Lowered(root, depth, root[left], root[right]))
  {
    var linked, merged, lowered :=
        parent[root[right] := root[left]], Merged(root, left, right), Lowered(root, depth, root[left], root[right]);
    assert Placed(parent, root, depth, left) && Placed(parent, root, depth, right);
    assert Placed(parent, root, depth, root[left]) && Placed(parent, root, depth, root[right]);
    forall y | y in linked
      ensures Placed(linked, merged, lowered, y)
    {
      assert Placed(parent, root, depth, y);
      assert Placed(parent, root, depth, root[y]);
      assert Placed(parent, root, depth, parent[y]);
    }
  }

  class DisjointSets {
    var parent: map<Id, Id>
    ghost var root: map<Id, Id>
    ghost var depth: map<Id, nat>

    ghost predicate Valid()
      reads this
    {
      Forest(parent, root, depth)
    }

    constructor (nodes: set<Id>)
      ensures Valid()
      ensures parent == map x | x in nodes :: x
      ensures root == parent
    {
      parent := map x | x in nodes :: x;
      root := map x | x in nodes :: x;
      depth := map x | x in nodes :: 0;
    }

    /** Halves the path it climbs. It changes only `parent`, so every node keeps its root. */
    method Find(x: Id) returns (r: Id)
      requires Valid() && x in parent
      modifies this`parent
      ensures Valid()
      ensures parent.Keys == old(parent.Keys)
      ensures r in parent && r == root[x] && parent[r] == r
    {
      var node := x;
      while parent[node] != node
        invariant Valid() && node in parent
        invariant parent.Keys == old(parent.Keys)
        invariant root[node] == root[x]
        decreases depth[node]
      {
        HalvingKeepsForest(parent, root, depth, node);
        assert Placed(parent, root, depth, node) && Placed(parent, root, depth, parent[node]);
        parent := parent[node := parent[parent[node]]];
        node := parent[node];
      }
      assert Placed(parent, root, depth, node);
      r := node;
    }

    method Union(left: Id, right: Id)
      requires Valid() && left in parent && right in parent
      modifies this
      ensures Valid()
      ensures parent.Keys == old(parent.Keys)
      ensures root == Merged(old(root), left, right)
    {
      var leftRoot := Find(left);
      var rightRoot := Find(right);
      if leftRoot != rightRoot {
        LinkingMerges(parent, root, depth, left, right);
        parent := parent[rightRoot := leftRoot];
        depth := Lowered(root, depth, leftRoot, rightRoot);
        root := Merged(root, left, right);
      }
    }
  }
}
