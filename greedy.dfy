/**
 A reference definition of the greedy count of removable edges, written over
 partitions instead of union-find objects. Alice's and Bob's connectivity are
 two partitions of the labels 0..n; an edge is kept by a party exactly when it
 joins two different sets of that party's partition.
 */
module Greedy {
  import opened Partition

  /** An edge as the input lists it: (tag, u, v). */
  type Edge = (int, int, int)

  /** Who may use an edge. */
  datatype Owner = Alice | Bob | Both

  /** Tag 1 is Alice's, tag 2 is Bob's, and every other tag is shared. */
  function OwnerOf(tag: int): (o: Owner)
    ensures o == Alice <==> tag == 1
    ensures o == Bob <==> tag == 2
  {
    if tag == 1 then Alice else if tag == 2 then Bob else Both
  }

  /** The edges of one owner, in input order. */
  function Bucket(es: seq<Edge>, o: Owner): (r: seq<Edge>)
    ensures |r| <= |es|
    ensures forall e :: e in r <==> e in es && OwnerOf(e.0) == o
  {
    if es == [] then []
    else
      var last := es[|es| - 1];
      Bucket(es[..|es| - 1], o) + (if OwnerOf(last.0) == o then [last] else [])
  }

  /** Both endpoints of every edge are labels below m. */
  predicate Fits(es: seq<Edge>, m: int)
  {
    forall e :: e in es ==> 0 <= e.1 < m && 0 <= e.2 < m
  }

  /** Both endpoints of every edge are vertices 1..n. */
  predicate Vertices(es: seq<Edge>, n: int)
  {
    forall e :: e in es ==> 1 <= e.1 <= n && 1 <= e.2 <= n
  }

  /**
   The two partitions, and the counters of the algorithm: edges kept by
   Alice (a), kept by Bob (b), and deleted (d).
   */
  datatype State = State(alice: seq<nat>, bob: seq<nat>, a: nat, b: nat, d: nat)

  /** No edge yet: every vertex alone, all counters zero. */
  function Start(n: nat): (s: State)
    ensures |s.alice| == |s.bob| == n + 1
  {
    State(Identity(n + 1), Identity(n + 1), 0, 0, 0)
  }

  /**
   One edge of owner o. A private edge is kept by its owner when it joins two
   of the owner's sets and deleted otherwise; a shared edge is tried on both
   partitions, counts for each party it joins, and is deleted only when it
   joins nothing for either.
   */
  function Step(s: State, e: Edge, o: Owner): (t: State)
    requires 0 <= e.1 < |s.alice| && 0 <= e.2 < |s.alice|
    requires 0 <= e.1 < |s.bob| && 0 <= e.2 < |s.bob|
    ensures |t.alice| == |s.alice| && |t.bob| == |s.bob|
  {
    var u, v := e.1, e.2;
    match o
    case Alice =>
      if s.alice[u] != s.alice[v] then s.(alice := Join(s.alice, u, v), a := s.a + 1)
      else s.(d := s.d + 1)
    case Bob =>
      if s.bob[u] != s.bob[v] then s.(bob := Join(s.bob, u, v), b := s.b + 1)
      else s.(d := s.d + 1)
    case Both =>
      var joinsA, joinsB := s.alice[u] != s.alice[v], s.bob[u] != s.bob[v];
      State(Join(s.alice, u, v), Join(s.bob, u, v),
            s.a + (if joinsA then 1 else 0),
            s.b + (if joinsB then 1 else 0),
            s.d + (if !joinsA && !joinsB then 1 else 0))
  }

  /** The edges es, in order, all as edges of owner o. */
  function Pass(s: State, es: seq<Edge>, o: Owner): (t: State)
    requires Fits(es, |s.alice|) && Fits(es, |s.bob|)
    ensures |t.alice| == |s.alice| && |t.bob| == |s.bob|
    decreases |es|
  {
    if es == [] then s
    else
      var front, last := es[..|es| - 1], es[|es| - 1];
      assert forall e :: e in front ==> e in es;
      Step(Pass(s, front, o), last, o)
  }

  /** All shared edges first, then Alice's edges, then Bob's. */
  function Run(n: nat, edges: seq<Edge>): (s: State)
    requires Fits(edges, n + 1)
    ensures |s.alice| == |s.bob| == n + 1
  {
    var shared := Pass(Start(n), Bucket(edges, Both), Both);
    var alice := Pass(shared, Bucket(edges, Alice), Alice);
    Pass(alice, Bucket(edges, Bob), Bob)
  }

  /**
   The number of deleted edges when both parties keep n - 1 edges, and -1
   otherwise: either way -1 or a count of at most all the edges.
   */
  function MaxRemovable(n: nat, edges: seq<Edge>): (r: int)
    requires Fits(edges, n + 1)
    ensures r == -1 || 0 <= r <= |edges|
  {
    var s := Run(n, edges);
    RunDeleted(n, edges);
    if s.a == n - 1 && s.b == n - 1 then s.d else -1
  }

  /** A pass deletes at most the edges it is given. */
  lemma {:induction false} PassDeleted(s: State, es: seq<Edge>, o: Owner)
    requires Fits(es, |s.alice|) && Fits(es, |s.bob|)
    ensures Pass(s, es, o).d <= s.d + |es|
  {
    if es != [] {
      var front, last := es[..|es| - 1], es[|es| - 1];
      assert forall e :: e in front ==> e in es;
      PassDeleted(s, front, o);
      StepEffect(Pass(s, front, o), last, o);
    }
  }

  /** The whole run deletes at most all the edges. */
  lemma RunDeleted(n: nat, edges: seq<Edge>)
    requires Fits(edges, n + 1)
    ensures Run(n, edges).d <= |edges|
  {
    BucketSizes(edges);
    var s0 := Start(n);
    BucketFits(edges, |edges|, Both, n + 1);
    BucketFits(edges, |edges|, Alice, n + 1);
    BucketFits(edges, |edges|, Bob, n + 1);
    assert edges[..|edges|] == edges;
    PassDeleted(s0, Bucket(edges, Both), Both);
    var s1 := Pass(s0, Bucket(edges, Both), Both);
    PassDeleted(s1, Bucket(edges, Alice), Alice);
    var s2 := Pass(s1, Bucket(edges, Alice), Alice);
    PassDeleted(s2, Bucket(edges, Bob), Bob);
  }

  /** The answer, read off the counters of the final state. */
  lemma MaxRemovableOf(n: nat, edges: seq<Edge>, a: int, b: int, d: int)
    requires Fits(edges, n + 1)
    requires var s := Run(n, edges); a == s.a && b == s.b && d == s.d
    ensures MaxRemovable(n, edges) == if a == n - 1 && b == n - 1 then d else -1
  {
  }

  /** Scanning one more edge appends it to its owner's bucket only. */
  lemma BucketSnoc(es: seq<Edge>, i: nat, o: Owner)
    requires i < |es|
    ensures OwnerOf(es[i].0) == o ==> Bucket(es[..i + 1], o) == Bucket(es[..i], o) + [es[i]]
    ensures OwnerOf(es[i].0) != o ==> Bucket(es[..i + 1], o) == Bucket(es[..i], o)
  {
    assert es[..i + 1][..i] == es[..i];
    assert Bucket(es[..i], o) + [] == Bucket(es[..i], o);
  }

  /** The edges of one owner among the first i edges fit wherever all edges fit. */
  lemma BucketFits(es: seq<Edge>, i: nat, o: Owner, m: int)
    requires Fits(es, m) && i <= |es|
    ensures Fits(Bucket(es[..i], o), m)
  {
    assert forall e :: e in es[..i] ==> e in es;
  }

  /** A pass over one more edge is one more step. */
  lemma PassSnoc(s: State, es: seq<Edge>, e: Edge, o: Owner)
    requires Fits(es + [e], |s.alice|) && Fits(es + [e], |s.bob|)
    ensures Fits(es, |s.alice|) && Fits(es, |s.bob|)
    ensures Pass(s, es + [e], o) == Step(Pass(s, es, o), e, o)
  {
    assert (es + [e])[..|es|] == es;
    assert forall x :: x in es ==> x in es + [e];
  }

  /** A pass over the first i + 1 edges is one more step after the pass over the first i. */
  lemma PassPrefix(s: State, es: seq<Edge>, i: nat, o: Owner)
    requires Fits(es, |s.alice|) && Fits(es, |s.bob|) && i < |es|
    ensures Fits(es[..i], |s.alice|) && Fits(es[..i], |s.bob|)
    ensures Fits(es[..i + 1], |s.alice|) && Fits(es[..i + 1], |s.bob|)
    ensures Pass(s, es[..i + 1], o) == Step(Pass(s, es[..i], o), es[i], o)
  {
    assert forall e :: e in es[..i + 1] ==> e in es;
    assert es[..i + 1][..i] == es[..i];
  }

  /**
   What one edge does to the counters: a private edge is either kept by its
   owner or deleted, and leaves the other party as it was; a shared edge is
   deleted when it joins nothing for either party, and only then.
   */
  lemma StepEffect(s: State, e: Edge, o: Owner)
    requires 0 <= e.1 < |s.alice| && 0 <= e.2 < |s.alice|
    requires 0 <= e.1 < |s.bob| && 0 <= e.2 < |s.bob|
    ensures var t := Step(s, e, o);
      && (o == Alice ==> t.bob == s.bob && t.b == s.b && t.a + t.d == s.a + s.d + 1)
      && (o == Bob ==> t.alice == s.alice && t.a == s.a && t.b + t.d == s.b + s.d + 1)
      && (o != Bob ==> t.alice == Join(s.alice, e.1, e.2))
      && (o != Alice ==> t.bob == Join(s.bob, e.1, e.2))
      && (o == Alice ==> (t.a == s.a + 1 <==> s.alice[e.1] != s.alice[e.2]))
      && (o == Bob ==> (t.b == s.b + 1 <==> s.bob[e.1] != s.bob[e.2]))
      && (o != Bob ==> t.a == s.a + if s.alice[e.1] != s.alice[e.2] then 1 else 0)
      && (o != Alice ==> t.b == s.b + if s.bob[e.1] != s.bob[e.2] then 1 else 0)
      && (o == Both ==> t.d == s.d + if s.alice[e.1] == s.alice[e.2] && s.bob[e.1] == s.bob[e.2] then 1 else 0)
      && t.d <= s.d + 1
  {
  }

  /**
   A pass over Alice's edges leaves Bob's partition and count alone and
   counts every edge once, as kept or deleted; likewise for Bob.
   */
  lemma {:induction false} PassLeavesOther(s: State, es: seq<Edge>)
    requires Fits(es, |s.alice|) && Fits(es, |s.bob|)
    ensures var t := Pass(s, es, Alice);
      t.bob == s.bob && t.b == s.b && t.a + t.d == s.a + s.d + |es|
    ensures var t := Pass(s, es, Bob);
      t.alice == s.alice && t.a == s.a && t.b + t.d == s.b + s.d + |es|
  {
    if es != [] {
      var front, last := es[..|es| - 1], es[|es| - 1];
      assert forall e :: e in front ==> e in es;
      PassLeavesOther(s, front);
      StepEffect(Pass(s, front, Alice), last, Alice);
      StepEffect(Pass(s, front, Bob), last, Bob);
    }
  }

  /** The last edge goes to its owner's bucket and no other. */
  lemma BucketLast(es: seq<Edge>, o: Owner)
    requires es != []
    ensures multiset(Bucket(es, o)) == multiset(Bucket(es[..|es| - 1], o)) +
      if OwnerOf(es[|es| - 1].0) == o then multiset{es[|es| - 1]} else multiset{}
  {
    if OwnerOf(es[|es| - 1].0) != o {
      assert Bucket(es, o) == Bucket(es[..|es| - 1], o) + [];
    }
  }

  /** Splitting the last element off a sequence splits it off its multiset. */
  lemma LastOfMultiset(es: seq<Edge>)
    requires es != []
    ensures multiset(es) == multiset(es[..|es| - 1]) + multiset{es[|es| - 1]}
  {
    assert es == es[..|es| - 1] + [es[|es| - 1]];
  }

  /** Adding one edge to the bucket of its owner adds it once to the union of the three buckets. */
  lemma AddToOneBucket(A: multiset<Edge>, B: multiset<Edge>, C: multiset<Edge>, x: Edge, o: Owner)
    ensures (A + if o == Alice then multiset{x} else multiset{}) +
            (B + if o == Bob then multiset{x} else multiset{}) +
            (C + if o == Both then multiset{x} else multiset{}) == A + B + C + multiset{x}
  {
  }

  /** The three buckets together hold every edge of the input, each occurrence exactly once. */
  lemma {:induction false} BucketsPartition(es: seq<Edge>)
    ensures multiset(Bucket(es, Alice)) + multiset(Bucket(es, Bob)) + multiset(Bucket(es, Both)) == multiset(es)
  {
    if es != [] {
      var front, last := es[..|es| - 1], es[|es| - 1];
      BucketsPartition(front);
      BucketLast(es, Alice);
      BucketLast(es, Bob);
      BucketLast(es, Both);
      LastOfMultiset(es);
      AddToOneBucket(multiset(Bucket(front, Alice)), multiset(Bucket(front, Bob)),
                     multiset(Bucket(front, Both)), last, OwnerOf(last.0));
    }
  }

  /** Every edge lands in exactly one bucket. */
  lemma {:induction false} BucketSizes(es: seq<Edge>)
    ensures |Bucket(es, Alice)| + |Bucket(es, Bob)| + |Bucket(es, Both)| == |es|
  {
    if es != [] {
      BucketSizes(es[..|es| - 1]);
    }
  }

  /**
   P is a partition of 0..n in which label 0 stays alone and which has
   n + 1 - kept sets: each kept edge has merged two sets.
   */
  ghost predicate Tracks(P: seq<nat>, n: nat, kept: nat)
  {
    && |P| == n + 1
    && Canonical(P)
    && P[0] == 0
    && (forall i :: 1 <= i <= n ==> P[i] != 0)
    && |Leaders(P)| + kept == n + 1
  }

  /** Joining two vertices keeps the count of sets in step with the count of kept edges. */
  lemma JoinTracks(P: seq<nat>, n: nat, kept: nat, u: nat, v: nat)
    requires Tracks(P, n, kept) && 1 <= u <= n && 1 <= v <= n
    ensures Tracks(Join(P, u, v), n, kept + if P[u] != P[v] then 1 else 0)
  {
    if P[u] != P[v] {
      JoinLeaders(P, u, v);
    }
  }

  /**
   Over a pass, the partitions keep track of the kept edges; each edge adds at
   most one to d and at least one to a + b + d.
   */
  lemma {:induction false} PassTracks(s: State, es: seq<Edge>, o: Owner, n: nat)
    requires Tracks(s.alice, n, s.a) && Tracks(s.bob, n, s.b) && Vertices(es, n)
    ensures Fits(es, |s.alice|) && Fits(es, |s.bob|)
    ensures var t := Pass(s, es, o);
      && Tracks(t.alice, n, t.a) && Tracks(t.bob, n, t.b)
      && t.d <= s.d + |es|
      && s.a + s.b + s.d + |es| <= t.a + t.b + t.d
  {
    if es != [] {
      var front, last := es[..|es| - 1], es[|es| - 1];
      assert forall e :: e in front ==> e in es;
      PassTracks(s, front, o, n);
      var m := Pass(s, front, o);
      JoinTracks(m.alice, n, m.a, last.1, last.2);
      JoinTracks(m.bob, n, m.b, last.1, last.2);
    }
  }

  /** With n >= 1, label 0 and vertex 1 are in different sets, so there are at least two. */
  lemma TwoLeaders(P: seq<nat>, n: nat, kept: nat)
    requires Tracks(P, n, kept) && n >= 1
    ensures {0, P[1]} <= Leaders(P) && 0 != P[1]
    ensures kept <= n - 1
  {
    SubsetSize({0, P[1]}, Leaders(P));
  }

  /** All of Alice's (or Bob's) vertices 1..n are in one set. */
  ghost predicate Connected(P: seq<nat>, n: nat)
    requires |P| == n + 1
  {
    forall u, v :: 1 <= u <= n && 1 <= v <= n ==> P[u] == P[v]
  }

  /** n - 1 kept edges is exactly one set for the vertices 1..n (and one for label 0). */
  lemma ConnectedIffTreeSize(P: seq<nat>, n: nat, kept: nat)
    requires Tracks(P, n, kept) && n >= 1
    ensures Connected(P, n) <==> kept == n - 1
  {
    TwoLeaders(P, n, kept);
    if Connected(P, n) {
      assert Leaders(P) == {0, P[1]};
    }
    if kept == n - 1 {
      SubsetSize({0, P[1]}, Leaders(P));
      forall u | 1 <= u <= n
        ensures P[u] == P[1]
      {
        assert P[u] in Leaders(P);
      }
    }
  }

  /** The start state tracks zero kept edges for both parties. */
  lemma StartTracks(n: nat)
    ensures Tracks(Start(n).alice, n, 0) && Tracks(Start(n).bob, n, 0)
  {
    IdentityLeaders(n + 1);
  }

  /** The whole run tracks the kept edges on both partitions and bounds the counters. */
  lemma {:induction false} RunTracks(n: nat, edges: seq<Edge>)
    requires Vertices(edges, n)
    ensures Fits(edges, n + 1)
    ensures var s := Run(n, edges);
      && Tracks(s.alice, n, s.a) && Tracks(s.bob, n, s.b)
      && s.d <= |edges| <= s.a + s.b + s.d
  {
    StartTracks(n);
    BucketSizes(edges);
    var s0 := Start(n);
    PassTracks(s0, Bucket(edges, Both), Both, n);
    var s1 := Pass(s0, Bucket(edges, Both), Both);
    PassTracks(s1, Bucket(edges, Alice), Alice, n);
    var s2 := Pass(s1, Bucket(edges, Alice), Alice);
    PassTracks(s2, Bucket(edges, Bob), Bob, n);
  }

  /**
   With n >= 1 and endpoints in 1..n: neither party keeps more than n - 1
   edges, at most every edge is deleted, and every edge is counted at least once.
   */
  lemma CounterBounds(n: nat, edges: seq<Edge>)
    requires n >= 1 && Vertices(edges, n)
    ensures Fits(edges, n + 1)
    ensures var s := Run(n, edges);
      && s.a <= n - 1 && s.b <= n - 1
      && s.d <= |edges| <= s.a + s.b + s.d
  {
    RunTracks(n, edges);
    var s := Run(n, edges);
    TwoLeaders(s.alice, n, s.a);
    TwoLeaders(s.bob, n, s.b);
  }

  /**
   The answer is not -1 exactly when, after all edges, Alice's vertices form
   one set and Bob's vertices form one set; it is then the deleted count,
   at most the number of edges.
   */
  lemma FeasibleIffConnected(n: nat, edges: seq<Edge>)
    requires n >= 1 && Vertices(edges, n)
    ensures Fits(edges, n + 1)
    ensures var s := Run(n, edges);
      && (MaxRemovable(n, edges) != -1 <==> Connected(s.alice, n) && Connected(s.bob, n))
      && (MaxRemovable(n, edges) != -1 ==> 0 <= MaxRemovable(n, edges) == s.d <= |edges|)
  {
    RunTracks(n, edges);
    var s := Run(n, edges);
    ConnectedIffTreeSize(s.alice, n, s.a);
    ConnectedIffTreeSize(s.bob, n, s.b);
  }
}
