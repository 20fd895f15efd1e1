# Remove the most edges and keep both graphs traversable — a verified model

The program solves LeetCode problem 1579. Alice and Bob share an undirected
graph on the vertices 1..n. Every edge is tagged:

- tag 1: Alice may use it;
- tag 2: Bob may use it;
- any other tag: both may use it.

The program answers how many edges can be deleted so that each of them can
still reach every vertex, and -1 when that is impossible.

The program has two parts, and so does this model.

## The disjoint-set forest: `UnionFind`

- **Data.** Two in-place arrays, `parent` and `size`, over the labels 0..n.
  Label 0 is only a placeholder.
- **`find`.** Walks up to the root. On the way it applies path halving: each
  visited node is repointed to its grandparent.
- **`union`.** Finds both roots. It returns `false` when they are the same.
  Otherwise it hangs the root of `y` under the root of `x`, adds the size of
  `y`'s set to that of `x`'s, and returns `true`.
- **The size comparison does not change which root moves.** The comment before
  the comparison announces union by size. The code exchanges the arguments `x`
  and `y`, not the two roots, so the exchange has no effect. The model keeps
  this behaviour, and no bound on tree height is assumed or proved.

The model is the class `DisjointSet.UnionFind` (file `union_find.dfy`):

- `parent` and `size` are `array<nat>`.
- A ghost `rank` grows strictly from a child to its parent. It proves that
  every walk upwards ends, and it gives `Find`'s loop its termination measure.
- The abstract state `Reps()` is a partition: for each label, the root that
  `find` answers.
- `Valid()` says two things:
  - the parents form a ranked forest;
  - `size[r]` is the cardinality of the set of every root `r`.

Two supporting modules hold the pure parts:

- `partition.dfy` (module `Partition`): partitions given as sequences of
  representatives, and the operation `Join` that merges two sets.
- `forest.dfy` (module `Forest`): parent-pointer forests, path halving and
  linking, each proved to preserve the partition or to `Join` it.

## The greedy: `max_num_edges_to_remove`

- **First scan.** Alice's and Bob's edges are set aside, in input order.
- **Shared edges** are merged into both structures as they come.
  - A shared edge counts for Alice (`a`) when it joins two of her sets, and for
    Bob (`b`) likewise.
  - It is deleted (`d`) when it joins nothing for either of them.
- **Private edges.** Alice's edges are then merged into her structure, and
  Bob's into his. Each is kept when it joins two sets and deleted otherwise.
- **Answer.** The result is `d` when `a == n - 1` and `b == n - 1`, and -1
  otherwise.

The model has two layers:

- **Reference definition.** `greedy.dfy` (module `Greedy`) restates the greedy
  over partitions instead of objects: `Bucket`, `Step`, `Pass`, `Run` and
  `MaxRemovable`. It proves facts about it:
  - what one edge and one pass do to the partitions and counters;
  - the bounds on the counters;
  - that a non-negative answer means that Alice's and Bob's vertices each form
    one set.
- **Imperative model.** `solution.dfy` (module `Solution`) is the imperative
  algorithm over two `UnionFind` objects. Each of the three `for_each` closures
  is one method. `MaxNumEdgesToRemove` is proved to return exactly
  `MaxRemovable(n, edges)`.

## Model

| member | source | states |
|---|---|---|
| `Partition.Identity` | prob_1579.rs:20-21 | the partition right after construction: every label 0..m-1 is its own representative |
| `Partition.Join` | prob_1579.rs:57-63 | merging the set of v into that of u. Labels in either set get u's representative, all others keep theirs, both labels end in one set, a canonical partition stays canonical, and merging one set with itself changes nothing |
| `Partition.JoinOfReps` | prob_1579.rs:45-61 | joining two labels is the same as joining their roots, which is what `union` does after its two `find` calls |
| `Partition.SecondJoinIsNoop` | prob_1579.rs:40-51 | right after x and y are merged, merging them again changes nothing, so a second `union(x, y)` returns false |
| `Partition.JoinCommutes` | prob_1579.rs:54-61 | merging u into v or v into u gives the same sets, so which root goes under which does not affect correctness |
| `Partition.JoinLeaders` | prob_1579.rs:57-63 | merging two different sets removes exactly one representative, the one of y, so the number of sets drops by one |
| `Partition.JoinClass` | prob_1579.rs:11-12 | after merging two different sets, the new set is the disjoint union of the two old ones, and its size is the sum of theirs |
| `Partition.JoinSizes` | prob_1579.rs:62 | adding the size of y's set to the size kept at x's root keeps every root's size equal to its set's cardinality across the merge |
| `Partition.IdentitySizes` | prob_1579.rs:21 | sizes of 1 everywhere are right for the partition of singletons |
| `Partition.IdentityLeaders` | prob_1579.rs:19-21 | n + 1 singletons are n + 1 sets |
| `Forest.Root` | prob_1579.rs:3-9 | following parents from x reaches a root, i.e. a label that is its own parent; the root has a higher rank than x unless it is x |
| `Forest.RootSeq` | prob_1579.rs:3-9 | the partition a forest stands for: each label's root; it is canonical |
| `Forest.RootsAreLeaders` | prob_1579.rs:8-9 | the labels that are their own parent are exactly the representatives, one per set |
| `Forest.HalvingRanked` | prob_1579.rs:32 | repointing a non-root to its grandparent keeps parents ranked |
| `Forest.HalvingKeepsRoot` | prob_1579.rs:31-33 | one path-halving step does not change the root reached from any label |
| `Forest.HalvingKeepsRoots` | prob_1579.rs:31-33 | one path-halving step leaves the whole partition unchanged |
| `Forest.LinkMovesRoot` | prob_1579.rs:61 | after root ry is hung under root rx, the labels whose root was ry now reach rx, and every other label keeps its root |
| `Forest.LinkJoins` | prob_1579.rs:61 | hanging root ry under root rx is the merge of the two sets |
| `Forest.LinkSound` | prob_1579.rs:61-62 | linking plus the size update keeps the forest ranked and the sizes right, merges the sets, and removes exactly ry from the roots |
| `DisjointSet.UnionFind.Reps` | prob_1579.rs:28-37 | what `find` answers for every label, as a canonical partition over all labels |
| `DisjointSet.UnionFind.constructor` | prob_1579.rs:19-25 | n + 1 labels with `parent[i] == i` and `size[i] == 1`. The structure is valid and every label is alone |
| `DisjointSet.UnionFind.Find` | prob_1579.rs:30-37 | returns the root of x (a label that is its own parent and x's representative). The partition and the set of roots are unchanged, and the structure stays valid |
| `DisjointSet.UnionFind.Link` | prob_1579.rs:61-62 | `parent` and `size` change only at ry and rx. The partition is the merge of the two sets, the roots lose exactly ry, and their number drops by one |
| `DisjointSet.UnionFind.Union` | prob_1579.rs:43-64 | returns true exactly when x and y were in different sets. The new partition merges them, and when true the old root of y now has the old root of x as parent, whatever the sizes |
| `Greedy.OwnerOf` | prob_1579.rs:91-96 | tag 1 is Alice's only, tag 2 Bob's only, every other tag shared |
| `Greedy.Bucket` | prob_1579.rs:90-96 | an edge is in an owner's bucket exactly when it is in the input with that owner |
| `Greedy.Start` | prob_1579.rs:80-84 | the state before any edge; its contract gives only the lengths n + 1 of both partitions, the definition is the model, and `StartTracks` states its properties |
| `Greedy.Step` | prob_1579.rs:97-126 | one edge of a given owner, as the code handles it in each of the three closures; its contract gives only the lengths, the definition is the model, and `StepEffect` states what it does |
| `Greedy.Pass` | prob_1579.rs:90-127 | the edges of one bucket, in order, each as one `Step`; its contract gives only the lengths, and `PassLeavesOther`, `PassDeleted` and `PassTracks` state its properties |
| `Greedy.Run` | prob_1579.rs:90-127 | the shared edges first, then Alice's, then Bob's; its contract gives only the lengths, and `RunTracks`, `RunDeleted` and `CounterBounds` state its properties |
| `Greedy.MaxRemovable` | prob_1579.rs:128-134 | the answer is -1 or a count between 0 and the number of edges. The definition itself is the final test of lines 128-134, and `MaxRemovableOf` and `FeasibleIffConnected` state its properties |
| `Greedy.PassDeleted` | prob_1579.rs:97-126 | a pass deletes at most as many edges as it is given, whatever their owner |
| `Greedy.RunDeleted` | prob_1579.rs:90-127 | the whole run deletes at most all the edges, for any endpoints in 0..n |
| `Greedy.StartTracks` | prob_1579.rs:80-84 | at the start both partitions over the labels 0..n are n + 1 singletons, label 0 alone, with nothing kept |
| `Greedy.StepEffect` | prob_1579.rs:97-126 | a private edge adds one to its owner's count exactly when its ends were in different sets of that owner (and merges them), otherwise one to d, and leaves the other party unchanged. A shared edge merges on both sides, adds one to a (to b) exactly when it joins two of Alice's (Bob's) sets, and adds one to d when it joins neither party, leaving d unchanged otherwise |
| `Greedy.PassLeavesOther` | prob_1579.rs:114-127 | a pass over Alice's edges leaves Bob's partition and count unchanged and adds each edge once to a or to d; likewise for Bob |
| `Greedy.JoinTracks` | prob_1579.rs:57-63 | merging two vertices keeps label 0 alone, and the number of sets drops by one exactly when the edge is kept |
| `Greedy.BucketsPartition` | prob_1579.rs:90-96 | the first scan sends every occurrence of every edge to exactly one of Alice's list, Bob's list or the shared edges: together the three buckets are the input as a multiset |
| `Greedy.BucketSizes` | prob_1579.rs:90-96 | every edge lands in exactly one of the three buckets |
| `Greedy.PassTracks` | prob_1579.rs:97-126 | over any pass, each kept edge merges two sets, so the number of sets plus the kept count stays n + 1 for each party. Each edge adds at most one to d and at least one to a + b + d |
| `Greedy.TwoLeaders` | prob_1579.rs:20 | label 0 is never merged with a vertex, so a party keeps at most n - 1 edges |
| `Greedy.ConnectedIffTreeSize` | prob_1579.rs:128-130 | for a party, having kept n - 1 edges is the same as all of its vertices 1..n being in one set |
| `Greedy.RunTracks` | prob_1579.rs:90-127 | the whole run keeps the set counts in step with a and b, and d <= edge count <= a + b + d |
| `Greedy.CounterBounds` | prob_1579.rs:97-126 | with endpoints in 1..n: a <= n - 1, b <= n - 1, d <= edge count <= a + b + d |
| `Greedy.FeasibleIffConnected` | prob_1579.rs:128-134 | the answer is not -1 exactly when Alice's vertices form one set and Bob's do too. It is then d, between 0 and the edge count |
| `Solution.SharedEdge` | prob_1579.rs:97-111 | a shared edge applied to both structures is one `Step`. Each party's partition is merged, a and b grow for each true union, and d grows only when both unions are false |
| `Solution.ScanEdges` | prob_1579.rs:90-113 | the first scan returns Alice's and Bob's edges in input order, and leaves the structures and counters at the pass of the shared edges |
| `Solution.AliceEdges` | prob_1579.rs:114-120 | Alice's edges in order: her structure and a, d are the pass of her bucket, and Bob's structure and b are untouched |
| `Solution.BobEdges` | prob_1579.rs:121-127 | Bob's edges in order: his structure and b, d are the pass of his bucket, and Alice's structure and a are untouched |
| `Solution.MaxNumEdgesToRemove` | prob_1579.rs:79-135 | the result is exactly the reference answer `MaxRemovable(n, edges)` |

## Left out

- The unused `HashMap` import (line 1) and the unused edge count `m` (line 87).
  Neither affects behaviour.
- The `Solution` type is not defined in the file (the judging platform supplies it), so
  `MaxNumEdgesToRemove` is a free method.
- Integer widths are not modelled. The casts from `i32` to `usize` and the
  `i32` counters are unbounded integers here.
  - `n` is a `nat`.
  - Every endpoint must be a label 0..n: `Fits(edges, n + 1)`. Those are
    exactly the inputs for which the program's array indexing stays in bounds.
  - A negative `n` or endpoint, which the program would cast to a huge
    `usize`, is not modelled.
  - A counter overflow is not modelled: no counter can exceed the number of
    edges.
- Edges are triples, so an inner vector with fewer than three entries (which
  would panic) is not modelled.
- Label 0 is accepted as an endpoint, as the program accepts it. The bounds
  and feasibility lemmas assume `n >= 1` and endpoints in 1..n.
- Optimality is not proved: that `d` is the largest possible number of
  deletions is a theorem about graphs that the program does not state. The
  feasibility verdict and the counting are proved instead.
- That deleting the `d` counted edges leaves both parties connected is not
  proved. The program never records which edges it keeps, so the model has
  no set of kept edges to state it about.
- No tree-height or complexity bound, because the ineffective size comparison
  gives none.
- `DisjointSet.UnionFind.Union`'s contract does not state the drop in the
  number of sets, nor which root leaves the roots. Both follow for a caller
  from its own `Valid()` and `Reps() == Join(old(Reps()), x, y)`, through
  `Partition.JoinLeaders` and `Forest.RootsAreLeaders`. The sizes after a merge
  are part of `Valid()`.
