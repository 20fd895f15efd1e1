/**
 Parent-pointer forests: `p[i]` is the parent of label i, and a root is a label
 that is its own parent. A ghost `rank` that strictly grows from a child to its
 parent shows that following parents always reaches a root; no bound on the
 height of the trees is assumed.
 */
module Forest {
  import opened Partition

  /** Every parent is a label, and a non-root has a strictly larger rank than its child. */
  ghost predicate Ranked(p: seq<nat>, rank: seq<nat>)
  {
    && |rank| == |p|
    && (forall i :: 0 <= i < |p| ==> p[i] < |p|)
    && (forall i :: 0 <= i < |p| && p[i] != i ==> rank[i] < rank[p[i]])
  }

  /** An upper bound of the ranks, so that `MaxOf(rank) - rank[x]` measures the way up. */
  ghost function MaxOf(s: seq<nat>): (m: nat)
    ensures forall i :: 0 <= i < |s| ==> s[i] <= m
  {
    if |s| == 0 then 0
    else
      var m0 := MaxOf(s[..|s| - 1]);
      if s[|s| - 1] <= m0 then m0 else s[|s| - 1]
  }

  /** The root reached from x by following parent pointers. */
  ghost function Root(p: seq<nat>, rank: seq<nat>, x: nat): (r: nat)
    requires Ranked(p, rank) && x < |p|
    ensures r < |p| && p[r] == r
    ensures x == r || rank[x] < rank[r]
    decreases MaxOf(rank) - rank[x]
  {
    if p[x] == x then x else Root(p, rank, p[x])
  }

  /** The partition a forest stands for: each label is represented by its root. */
  ghost function RootSeq(p: seq<nat>, rank: seq<nat>): (P: seq<nat>)
    requires Ranked(p, rank)
    ensures |P| == |p| && Canonical(P)
    ensures forall i :: 0 <= i < |p| ==> P[i] == Root(p, rank, i)
  {
    seq(|p|, i requires 0 <= i < |p| => Root(p, rank, i))
  }

  /** The roots of a forest: the labels that are their own parent. */
  ghost function Roots(p: seq<nat>): set<nat>
  {
    Leaders(p)
  }

  /** The roots are exactly the representatives of the partition. */
  lemma RootsAreLeaders(p: seq<nat>, rank: seq<nat>)
    requires Ranked(p, rank)
    ensures Roots(p) == Leaders(RootSeq(p, rank))
  {
  }

  /** Path halving on a non-root x: x is repointed to its grandparent. */
  lemma HalvingRanked(p: seq<nat>, rank: seq<nat>, x: nat)
    requires Ranked(p, rank) && x < |p| && p[x] != x
    ensures p[p[x]] != x && rank[x] < rank[p[p[x]]]
    ensures Ranked(p[x := p[p[x]]], rank)
  {
  }

  /** Path halving leaves the root of every label unchanged. */
  lemma {:induction false} HalvingKeepsRoot(p: seq<nat>, rank: seq<nat>, x: nat, i: nat)
    requires Ranked(p, rank) && x < |p| && p[x] != x && i < |p|
    ensures Ranked(p[x := p[p[x]]], rank)
    ensures Root(p[x := p[p[x]]], rank, i) == Root(p, rank, i)
    decreases MaxOf(rank) - rank[i]
  {
    HalvingRanked(p, rank, x);
    var q := p[x := p[p[x]]];
    if i == x {
      HalvingKeepsRoot(p, rank, x, p[p[x]]);
      assert Root(q, rank, x) == Root(q, rank, p[p[x]]);
      assert Root(p, rank, p[x]) == Root(p, rank, p[p[x]]);
    } else if p[i] != i {
      HalvingKeepsRoot(p, rank, x, p[i]);
    }
  }

  /** Path halving keeps the forest ranked and the partition it stands for. */
  lemma HalvingKeepsRoots(p: seq<nat>, rank: seq<nat>, x: nat)
    requires Ranked(p, rank) && x < |p| && p[x] != x
    ensures Ranked(p[x := p[p[x]]], rank)
    ensures RootSeq(p[x := p[p[x]]], rank) == RootSeq(p, rank)
  {
    HalvingRanked(p, rank, x);
    forall i | 0 <= i < |p|
      ensures Root(p[x := p[p[x]]], rank, i) == Root(p, rank, i)
    {
      HalvingKeepsRoot(p, rank, x, i);
    }
  }

  /** The rank of rx after ry is hung under it. */
  ghost function LinkRank(rank: seq<nat>, rx: nat, ry: nat): (r: seq<nat>)
    requires rx < |rank| && ry < |rank|
    ensures |r| == |rank| && r[rx] > rank[ry] && r[rx] >= rank[rx]
    ensures forall i :: 0 <= i < |rank| && i != rx ==> r[i] == rank[i]
  {
    rank[rx := if rank[rx] > rank[ry] then rank[rx] else rank[ry] + 1]
  }

  /** Hanging root ry under root rx moves the labels of ry, and only those, to rx. */
  lemma {:induction false} LinkMovesRoot(p: seq<nat>, rank: seq<nat>, rx: nat, ry: nat, i: nat)
    requires Ranked(p, rank) && rx < |p| && ry < |p| && i < |p|
    requires p[rx] == rx && p[ry] == ry && rx != ry
    ensures Ranked(p[ry := rx], LinkRank(rank, rx, ry))
    ensures Root(p[ry := rx], LinkRank(rank, rx, ry), i) ==
            if Root(p, rank, i) == ry then rx else Root(p, rank, i)
    decreases MaxOf(rank) - rank[i]
  {
    var q, rank' := p[ry := rx], LinkRank(rank, rx, ry);
    assert Ranked(q, rank');
    if p[i] != i {
      LinkMovesRoot(p, rank, rx, ry, p[i]);
    }
  }

  /** Hanging root ry under root rx is a join of the partition. */
  lemma LinkJoins(p: seq<nat>, rank: seq<nat>, rx: nat, ry: nat)
    requires Ranked(p, rank) && rx < |p| && ry < |p|
    requires p[rx] == rx && p[ry] == ry && rx != ry
    ensures Ranked(p[ry := rx], LinkRank(rank, rx, ry))
    ensures RootSeq(p[ry := rx], LinkRank(rank, rx, ry)) == Join(RootSeq(p, rank), rx, ry)
  {
    forall i | 0 <= i < |p|
      ensures Root(p[ry := rx], LinkRank(rank, rx, ry), i) ==
              if Root(p, rank, i) == ry then rx else Root(p, rank, i)
    {
      LinkMovesRoot(p, rank, rx, ry, i);
    }
  }

  /**
   Hanging root ry under root rx and adding the size of ry's set to rx's keeps
   the forest ranked and the sizes right, joins the two sets, and removes ry
   from the roots.
   */
  lemma LinkSound(p: seq<nat>, rank: seq<nat>, sizes: seq<nat>, rx: nat, ry: nat)
    requires Ranked(p, rank) && rx < |p| && ry < |p|
    requires p[rx] == rx && p[ry] == ry && rx != ry
    requires SizesMatch(sizes, RootSeq(p, rank))
    ensures Ranked(p[ry := rx], LinkRank(rank, rx, ry))
    ensures RootSeq(p[ry := rx], LinkRank(rank, rx, ry)) == Join(RootSeq(p, rank), rx, ry)
    ensures SizesMatch(sizes[rx := sizes[rx] + sizes[ry]], RootSeq(p[ry := rx], LinkRank(rank, rx, ry)))
    ensures ry in Roots(p) && Roots(p[ry := rx]) == Roots(p) - {ry}
  {
    LinkJoins(p, rank, rx, ry);
    JoinSizes(RootSeq(p, rank), rx, ry, sizes);
  }
}
