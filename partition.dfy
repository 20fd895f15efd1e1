/**
 A partition of the labels 0..|P|-1, described by the representative of each
 label: label i belongs to the set whose representative is P[i]. This is the
 abstract view of a union-find structure: what `find` answers for every label.
 */
module Partition {

  /** The finest partition: every label is its own set. */
  function Identity(m: nat): (P: seq<nat>)
    ensures |P| == m
    ensures forall i :: 0 <= i < m ==> P[i] == i
  {
    seq(m, i => i)
  }

  /** Every representative is a label, and represents itself. */
  ghost predicate Canonical(P: seq<nat>)
  {
    forall i :: 0 <= i < |P| ==> P[i] < |P| && P[P[i]] == P[i]
  }

  /** The representatives, one per set: their number is the number of sets. */
  ghost function Leaders(P: seq<nat>): set<nat>
  {
    set i: nat | i < |P| && P[i] == i
  }

  /** The labels whose representative is r. */
  ghost function Class(P: seq<nat>, r: nat): set<nat>
  {
    set i: nat | i < |P| && P[i] == r
  }

  /** `sizes[r]` is the cardinality of the set of every representative r. */
  ghost predicate SizesMatch(sizes: seq<nat>, P: seq<nat>)
  {
    && |sizes| == |P|
    && forall r :: 0 <= r < |P| && P[r] == r ==> sizes[r] == |Class(P, r)|
  }

  /** Two labels are in the same set. */
  predicate SameSet(P: seq<nat>, i: nat, j: nat)
    requires i < |P| && j < |P|
  {
    P[i] == P[j]
  }

  /**
   Merge the set of v into the set of u: every label represented by P[v] is
   now represented by P[u]; nothing else changes.
   */
  function Join(P: seq<nat>, u: nat, v: nat): (J: seq<nat>)
    requires u < |P| && v < |P|
    ensures |J| == |P|
    ensures J[u] == J[v] == P[u]
    ensures forall i :: 0 <= i < |P| ==> (J[i] == P[u] <==> P[i] == P[u] || P[i] == P[v])
    ensures forall i :: 0 <= i < |P| && P[i] != P[u] && P[i] != P[v] ==> J[i] == P[i]
    ensures Canonical(P) ==> Canonical(J)
    ensures P[u] == P[v] ==> J == P
  {
    seq(|P|, i requires 0 <= i < |P| => if P[i] == P[v] then P[u] else P[i])
  }

  /** Joining two labels is joining their representatives. */
  lemma JoinOfReps(P: seq<nat>, u: nat, v: nat)
    requires Canonical(P) && u < |P| && v < |P|
    ensures Join(P, P[u], P[v]) == Join(P, u, v)
  {
  }

  /** Joining two labels of one set changes nothing, so a second join of the same pair is a no-op. */
  lemma SecondJoinIsNoop(P: seq<nat>, u: nat, v: nat)
    requires u < |P| && v < |P|
    ensures Join(Join(P, u, v), u, v) == Join(P, u, v)
  {
  }

  /** Joining u with v or v with u yields the same sets (possibly with other representatives). */
  lemma JoinCommutes(P: seq<nat>, u: nat, v: nat, i: nat, j: nat)
    requires u < |P| && v < |P| && i < |P| && j < |P|
    ensures SameSet(Join(P, u, v), i, j) <==> SameSet(Join(P, v, u), i, j)
  {
  }

  /** A join of two different sets removes exactly one representative, that of v. */
  lemma {:induction false} JoinLeaders(P: seq<nat>, u: nat, v: nat)
    requires Canonical(P) && u < |P| && v < |P| && P[u] != P[v]
    ensures P[v] in Leaders(P)
    ensures Leaders(Join(P, u, v)) == Leaders(P) - {P[v]}
    ensures |Leaders(Join(P, u, v))| == |Leaders(P)| - 1
  {
    var J := Join(P, u, v);
    forall i: nat | i < |P|
      ensures J[i] == i <==> P[i] == i && P[i] != P[v]
    {
      if P[i] == P[v] {
        assert J[i] == P[u];
        assert P[P[u]] == P[u];
      }
    }
    assert Leaders(J) == Leaders(P) - {P[v]};
  }

  /** The set of u after a join of two different sets is the union of both old sets. */
  lemma {:induction false} JoinClass(P: seq<nat>, u: nat, v: nat)
    requires u < |P| && v < |P| && P[u] != P[v]
    ensures Class(Join(P, u, v), P[u]) == Class(P, P[u]) + Class(P, P[v])
    ensures Class(P, P[u]) !! Class(P, P[v])
    ensures |Class(Join(P, u, v), P[u])| == |Class(P, P[u])| + |Class(P, P[v])|
  {
    var J := Join(P, u, v);
    assert Class(J, P[u]) == Class(P, P[u]) + Class(P, P[v]);
  }

  /** Adding the size of v's set to that of u's keeps the sizes right across a join. */
  lemma {:induction false} JoinSizes(P: seq<nat>, u: nat, v: nat, sizes: seq<nat>)
    requires Canonical(P) && u < |P| && v < |P| && P[u] != P[v]
    requires SizesMatch(sizes, P)
    ensures SizesMatch(sizes[P[u] := sizes[P[u]] + sizes[P[v]]], Join(P, u, v))
  {
    var J := Join(P, u, v);
    var s := sizes[P[u] := sizes[P[u]] + sizes[P[v]]];
    JoinClass(P, u, v);
    forall r | 0 <= r < |J| && J[r] == r
      ensures s[r] == |Class(J, r)|
    {
      if r == P[u] {
      } else {
        assert P[r] == r && r != P[v];
        assert Class(J, r) == Class(P, r);
      }
    }
  }

  /** In the finest partition every label is alone. */
  lemma IdentitySizes(m: nat)
    ensures SizesMatch(seq(m, _ => 1), Identity(m))
  {
    var P := Identity(m);
    forall r | 0 <= r < m
      ensures |Class(P, r)| == 1
    {
      assert Class(P, r) == {r};
    }
  }

  /** The finest partition of m labels has m sets. */
  lemma {:induction false} IdentityLeaders(m: nat)
    ensures |Leaders(Identity(m))| == m
  {
    if m > 0 {
      IdentityLeaders(m - 1);
      assert Leaders(Identity(m)) == Leaders(Identity(m - 1)) + {m - 1};
    } else {
      assert Leaders(Identity(m)) == {};
    }
  }

  /** A subset is no larger than its superset. */
  lemma SubsetSize(A: set<nat>, B: set<nat>)
    requires A <= B
    ensures |A| <= |B|
    ensures |A| == |B| ==> A == B
  {
    assert B == A + (B - A);
    assert A * (B - A) == {};
  }
}
