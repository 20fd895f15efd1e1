/**
 The greedy algorithm itself: one union-find structure for Alice and one for
 Bob, shared edges merged while the input is scanned, then Alice's edges, then
 Bob's, with the counters a, b and d kept as in the reference definition.
 */
module Solution {
  import opened Partition
  import opened DisjointSet
  import opened Greedy

  /** Two structures share no object, so a change to one leaves the other as it was. */
  ghost predicate Apart(x: UnionFind, y: UnionFind)
  {
    && x != y
    && x.parent != y.parent && x.parent != y.size
    && x.size != y.parent && x.size != y.size
  }

  /** The two structures and the three counters are the state s of the reference definition. */
  ghost predicate Mirrors(alice: UnionFind, bob: UnionFind, a: int, b: int, d: int, s: State)
    reads alice, alice.parent, alice.size, bob, bob.parent, bob.size
  {
    && alice.Valid() && bob.Valid()
    && alice.Reps() == s.alice && bob.Reps() == s.bob
    && a == s.a && b == s.b && d == s.d
  }

  /**
   A shared edge is tried on both structures: it counts for each party whose
   sets it joins, and is deleted when it joins nothing for either.
   */
  method SharedEdge(alice: UnionFind, bob: UnionFind, edge: Edge, a: nat, b: nat, d: nat, ghost s: State)
    returns (a': nat, b': nat, d': nat)
    requires Apart(alice, bob) && Mirrors(alice, bob, a, b, d, s)
    requires 0 <= edge.1 < |s.alice| && 0 <= edge.2 < |s.alice|
    requires 0 <= edge.1 < |s.bob| && 0 <= edge.2 < |s.bob|
    modifies alice, alice.parent, alice.size, bob, bob.parent, bob.size
    ensures Mirrors(alice, bob, a', b', d', Step(s, edge, Both))
  {
    a', b', d' := a, b, d;
    var (_, u, v) := edge;
    ghost var ca, cb := s.alice[u] != s.alice[v], s.bob[u] != s.bob[v];
    assert Step(s, edge, Both) ==
      State(Join(s.alice, u, v), Join(s.bob, u, v), a + (if ca then 1 else 0),
            b + (if cb then 1 else 0), d + (if !ca && !cb then 1 else 0));
    var joinedA := alice.Union(u, v);
    assert joinedA == ca && alice.Reps() == Join(s.alice, u, v);
    ghost var pa, sa, ra := alice.parent[..], alice.size[..], alice.rank;
    var joinedB := bob.Union(u, v);
    assert joinedB == cb && bob.Reps() == Join(s.bob, u, v);
    assert alice.parent[..] == pa && alice.size[..] == sa && alice.rank == ra;
    assert alice.Valid() && alice.Reps() == Join(s.alice, u, v);
    if !joinedA && !joinedB {
      d' := d' + 1;
    }
    if joinedA {
      a' := a' + 1;
    }
    if joinedB {
      b' := b' + 1;
    }
  }

  /**
   The first scan: private edges are set aside in input order, and each shared
   edge is merged at once into both structures.
   */
  method ScanEdges(alice: UnionFind, bob: UnionFind, edges: seq<Edge>, ghost s0: State)
    returns (aliceOnly: seq<Edge>, bobOnly: seq<Edge>, a: nat, b: nat, d: nat)
    requires Apart(alice, bob) && Mirrors(alice, bob, 0, 0, 0, s0)
    requires Fits(edges, |s0.alice|) && Fits(edges, |s0.bob|)
    modifies alice, alice.parent, alice.size, bob, bob.parent, bob.size
    ensures aliceOnly == Bucket(edges, Alice) && bobOnly == Bucket(edges, Bob)
    ensures Fits(aliceOnly, |s0.alice|) && Fits(aliceOnly, |s0.bob|)
    ensures Fits(bobOnly, |s0.alice|) && Fits(bobOnly, |s0.bob|)
    ensures Fits(Bucket(edges, Both), |s0.alice|) && Fits(Bucket(edges, Both), |s0.bob|)
    ensures Mirrors(alice, bob, a, b, d, Pass(s0, Bucket(edges, Both), Both))
  {
    a, b, d := 0, 0, 0;
    aliceOnly, bobOnly := [], [];
    for i := 0 to |edges|
      invariant aliceOnly == Bucket(edges[..i], Alice) && bobOnly == Bucket(edges[..i], Bob)
      invariant Fits(Bucket(edges[..i], Both), |s0.alice|) && Fits(Bucket(edges[..i], Both), |s0.bob|)
      invariant Mirrors(alice, bob, a, b, d, Pass(s0, Bucket(edges[..i], Both), Both))
    {
      var edge := edges[i];
      BucketSnoc(edges, i, Alice);
      BucketSnoc(edges, i, Bob);
      BucketSnoc(edges, i, Both);
      BucketFits(edges, i + 1, Both, |s0.alice|);
      BucketFits(edges, i + 1, Both, |s0.bob|);
      var tag := edge.0;
      if tag == 1 {
        assert OwnerOf(tag) == Alice;
        aliceOnly := aliceOnly + [edge];
      } else if tag == 2 {
        assert OwnerOf(tag) == Bob;
        bobOnly := bobOnly + [edge];
      } else {
        assert OwnerOf(tag) == Both;
        PassSnoc(s0, Bucket(edges[..i], Both), edge, Both);
        a, b, d := SharedEdge(alice, bob, edge, a, b, d, Pass(s0, Bucket(edges[..i], Both), Both));
      }
    }
    assert edges[..|edges|] == edges;
    BucketFits(edges, |edges|, Alice, |s0.alice|);
    BucketFits(edges, |edges|, Alice, |s0.bob|);
    BucketFits(edges, |edges|, Bob, |s0.alice|);
    BucketFits(edges, |edges|, Bob, |s0.bob|);
  }

  /** Alice's own edges, in order: each is kept when it joins two of her sets and deleted otherwise. */
  method AliceEdges(alice: UnionFind, bob: UnionFind, es: seq<Edge>, a: nat, b: nat, d: nat, ghost s: State)
    returns (a': nat, d': nat)
    requires Apart(alice, bob) && Mirrors(alice, bob, a, b, d, s)
    requires Fits(es, |s.alice|) && Fits(es, |s.bob|)
    modifies alice, alice.parent, alice.size
    ensures Mirrors(alice, bob, a', b, d', Pass(s, es, Alice))
  {
    a', d' := a, d;
    for i := 0 to |es|
      invariant Fits(es[..i], |s.alice|) && Fits(es[..i], |s.bob|)
      invariant Mirrors(alice, bob, a', b, d', Pass(s, es[..i], Alice))
    {
      var (_, u, v) := es[i];
      PassPrefix(s, es, i, Alice);
      ghost var t := Pass(s, es[..i], Alice);
      var joined := alice.Union(u, v);
      assert joined == (t.alice[u] != t.alice[v]) && alice.Reps() == Join(t.alice, u, v);
      assert bob.Valid() && bob.Reps() == t.bob;
      if joined {
        a' := a' + 1;
      } else {
        d' := d' + 1;
      }
    }
    assert es[..|es|] == es;
  }

  /** Bob's own edges, in order: each is kept when it joins two of his sets and deleted otherwise. */
  method BobEdges(alice: UnionFind, bob: UnionFind, es: seq<Edge>, a: nat, b: nat, d: nat, ghost s: State)
    returns (b': nat, d': nat)
    requires Apart(alice, bob) && Mirrors(alice, bob, a, b, d, s)
    requires Fits(es, |s.alice|) && Fits(es, |s.bob|)
    modifies bob, bob.parent, bob.size
    ensures Mirrors(alice, bob, a, b', d', Pass(s, es, Bob))
  {
    b', d' := b, d;
    for i := 0 to |es|
      invariant Fits(es[..i], |s.alice|) && Fits(es[..i], |s.bob|)
      invariant Mirrors(alice, bob, a, b', d', Pass(s, es[..i], Bob))
    {
      var (_, u, v) := es[i];
      PassPrefix(s, es, i, Bob);
      ghost var t := Pass(s, es[..i], Bob);
      var joined := bob.Union(u, v);
      assert joined == (t.bob[u] != t.bob[v]) && bob.Reps() == Join(t.bob, u, v);
      assert alice.Valid() && alice.Reps() == t.alice;
      if joined {
        b' := b' + 1;
      } else {
        d' := d' + 1;
      }
    }
    assert es[..|es|] == es;
  }

  /**
   The largest number of edges that can be removed with both parties still
   connected, as the greedy computes it, or -1 when either party cannot be
   connected. Every endpoint must be a label 0..n of the structures.
   */
  method MaxNumEdgesToRemove(n: nat, edges: seq<Edge>) returns (result: int)
    requires Fits(edges, n + 1)
    ensures result == MaxRemovable(n, edges)
  {
    var alice := new UnionFind(n);
    var bob := new UnionFind(n);
    ghost var start := Start(n);
    assert Apart(alice, bob) && Mirrors(alice, bob, 0, 0, 0, start);
    var aliceOnly, bobOnly, a, b, d := ScanEdges(alice, bob, edges, start);
    ghost var shared := Pass(start, Bucket(edges, Both), Both);
    a, d := AliceEdges(alice, bob, aliceOnly, a, b, d, shared);
    ghost var afterAlice := Pass(shared, aliceOnly, Alice);
    b, d := BobEdges(alice, bob, bobOnly, a, b, d, afterAlice);
    MaxRemovableOf(n, edges, a, b, d);
    if a == n - 1 && b == n - 1 {
      result := d;
    } else {
      result := -1;
    }
  }
}
