/**
 The disjoint-set forest over the labels 0..n (label 0 is a placeholder; the
 graph's vertices are 1..n). `parent` and `size` are updated in place; the
 ghost `rank` only serves the proofs. The abstract state is the partition
 `Reps()`: the representative that `Find` returns for every label.
 */
module DisjointSet {
  import opened Partition
  import opened Forest

  class UnionFind {
    const parent: array<nat>
    const size: array<nat>
    ghost var rank: seq<nat>

    /**
     The object invariant: the parents form a ranked forest (so every walk
     upwards ends at a root) and the size kept at each root is the number of
     labels in its set.
     */
    ghost predicate Valid()
      reads this, parent, size
    {
      && parent != size
      && size.Length == parent.Length
      && Ranked(parent[..], rank)
      && SizesMatch(size[..], RootSeq(parent[..], rank))
    }

    /** The partition: the root of the tree of every label. */
    ghost function Reps(): (P: seq<nat>)
      reads this, parent, size
      requires Valid()
      ensures |P| == parent.Length && Canonical(P)
    {
      RootSeq(parent[..], rank)
    }

    /** The labels that are their own parent: one per set. */
    ghost function Roots(): set<nat>
      reads parent
    {
      Forest.Roots(parent[..])
    }

    /** Labels 0..n, each its own parent, each set of size 1. */
    constructor (n: nat)
      ensures Valid() && fresh(parent) && fresh(size)
      ensures parent.Length == n + 1
      ensures parent[..] == Identity(n + 1) && size[..] == seq(n + 1, _ => 1)
      ensures Reps() == Identity(n + 1)
    {
      parent := new nat[n + 1](i => i);
      size := new nat[n + 1](_ => 1);
      rank := seq(n + 1, _ => 0);
      new;
      IdentitySizes(n + 1);
      assert size[..] == seq(n + 1, _ => 1);
      assert RootSeq(parent[..], rank) == Identity(n + 1);
    }

    /**
     The root of the tree of x. Path halving repoints every visited node to its
     grandparent; the partition, the roots and the sizes stay as they were.
     */
    method Find(x: nat) returns (root: nat)
      requires Valid() && x < parent.Length
      modifies parent
      ensures Valid()
      ensures Reps() == old(Reps())
      ensures Roots() == old(Roots())
      ensures root == Reps()[x] && parent[root] == root
    {
      root := x;
      while root != parent[root]
        invariant root < parent.Length
        invariant Ranked(parent[..], rank)
        invariant RootSeq(parent[..], rank) == old(Reps())
        invariant Root(parent[..], rank, root) == old(Reps())[x]
        decreases MaxOf(rank) - rank[root]
      {
        ghost var p := parent[..];
        HalvingKeepsRoots(p, rank, root);
        parent[root] := parent[parent[root]];
        assert parent[..] == p[root := p[p[root]]];
        root := parent[root];
      }
      RootsAreLeaders(old(parent[..]), rank);
      RootsAreLeaders(parent[..], rank);
    }

    /** Hangs root ry under root rx and adds the size of the set of ry to that of rx. */
    method Link(rx: nat, ry: nat)
      requires Valid() && rx < parent.Length && ry < parent.Length
      requires parent[rx] == rx && parent[ry] == ry && rx != ry
      modifies this, parent, size
      ensures Valid()
      ensures Reps() == Join(old(Reps()), rx, ry)
      ensures parent[..] == old(parent[..])[ry := rx]
      ensures size[..] == old(size[..])[rx := old(size[rx]) + old(size[ry])]
      ensures Roots() == old(Roots()) - {ry} && |Roots()| == |old(Roots())| - 1
    {
      ghost var p, s := parent[..], size[..];
      LinkSound(p, rank, s, rx, ry);
      parent[ry] := rx;
      assert parent[..] == p[ry := rx];
      size[rx] := size[rx] + size[ry];
      assert size[..] == s[rx := s[rx] + s[ry]];
      rank := LinkRank(rank, rx, ry);
    }

    /**
     Merges the sets of x and y; true exactly when they were different sets.
     The comparison of sizes only exchanges the arguments x and y, not the
     roots, so the root of y is always hung under the root of x.
     */
    method Union(x: nat, y: nat) returns (merged: bool)
      requires Valid() && x < parent.Length && y < parent.Length
      modifies this, parent, size
      ensures Valid()
      ensures merged <==> old(Reps())[x] != old(Reps())[y]
      ensures Reps() == Join(old(Reps()), x, y)
      ensures merged ==> parent[old(Reps())[y]] == old(Reps())[x]
    {
      var a, b := x, y;
      var rootX := Find(a);
      var rootY := Find(b);
      if rootX == rootY {
        return false;
      }
      if size[rootX] < size[rootY] {
        a, b := b, a;
      }
      JoinOfReps(Reps(), x, y);
      Link(rootX, rootY);
      merged := true;
    }
  }
}
