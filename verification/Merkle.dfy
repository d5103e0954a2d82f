/** Merkle verification in the Noir library and in the party and scope circuits. The Pedersen hash of a pair is a
    parameter: nothing is assumed of it, and where a proof could be forged a collision of it is exhibited. */
module Merkle {
  import opened Basics

  type Field = nat

  type PairHash = (Field, Field) -> Field

  type Bit = b: nat | b < 2

  const LEVELS: nat := 10

  // The verifier

  function Combine(h: PairHash, computed: Field, sibling: Field, direction: Bit): Field {
    if direction == 0 then h(computed, sibling) else h(sibling, computed)
  }

  /** The value computed from the leaf through the first n levels. */
  function Climb(h: PairHash, leaf: Field, proof: seq<Field>, directions: seq<Bit>, n: nat): Field
    requires n <= |proof| && n <= |directions|
  {
    if n == 0 then leaf
    else Combine(h, Climb(h, leaf, proof, directions, n - 1), proof[n - 1], directions[n - 1])
  }

  /** Levels that take part: the loop has ten iterations whatever the depth. */
  function Used(depth: nat): (n: nat)
    ensures n <= LEVELS && n <= depth
  {
    if depth < LEVELS then depth else LEVELS
  }

  predicate Accepts(h: PairHash, leaf: Field, root: Field, proof: seq<Field>, directions: seq<Bit>, depth: nat)
    requires |proof| == |directions| == LEVELS
  {
    Climb(h, leaf, proof, directions, Used(depth)) == root
  }

  method VerifyMerkleProof(h: PairHash, leaf: Field, root: Field, proof: seq<Field>, directions: seq<Bit>, depth: nat)
    returns (ok: bool)
    requires |proof| == |directions| == LEVELS
    ensures ok == Accepts(h, leaf, root, proof, directions, depth)
  {
    var computed := leaf;
    for i := 0 to LEVELS
      invariant computed == Climb(h, leaf, proof, directions, if i < depth then i else Used(depth))
    {
      if i < depth {
        var sibling := proof[i];
        if directions[i] == 0 {
          computed := h(computed, sibling);
        } else {
          computed := h(sibling, computed);
        }
      }
    }
    ok := computed == root;
  }

  // Trees

  datatype Tree = Leaf(value: Field) | Node(left: Tree, right: Tree)

  predicate Perfect(t: Tree, d: nat) {
    match t
    case Leaf(_) => d == 0
    case Node(l, r) => d > 0 && Perfect(l, d - 1) && Perfect(r, d - 1)
  }

  function Root(h: PairHash, t: Tree): Field {
    match t
    case Leaf(v) => v
    case Node(l, r) => h(Root(h, l), Root(h, r))
  }

  /** The leaves from left to right. */
  function Leaves(t: Tree): seq<Field> {
    match t
    case Leaf(v) => [v]
    case Node(l, r) => Leaves(l) + Leaves(r)
  }

  /** The number whose bit i is directions[i]. */
  function Index(directions: seq<Bit>, n: nat): nat
    requires n <= |directions|
  {
    if n == 0 then 0 else Index(directions, n - 1) + directions[n - 1] * Pow2(n - 1)
  }

  /** The child the top direction points at, and the other one. */
  function Side(t: Tree, direction: Bit): Tree
    requires t.Node?
  {
    if direction == 0 then t.left else t.right
  }

  function Other(t: Tree, direction: Bit): Tree
    requires t.Node?
  {
    if direction == 0 then t.right else t.left
  }

  lemma {:induction false} IndexBound(directions: seq<Bit>, n: nat)
    requires n <= |directions|
    ensures Index(directions, n) < Pow2(n)
  {
    if n > 0 {
      IndexBound(directions, n - 1);
    }
  }

  lemma {:induction false} LeavesCount(t: Tree, d: nat)
    requires Perfect(t, d)
    ensures |Leaves(t)| == Pow2(d)
    decreases d
  {
    if d > 0 {
      LeavesCount(t.left, d - 1);
      LeavesCount(t.right, d - 1);
    }
  }

  function LeafAt(t: Tree, directions: seq<Bit>, d: nat): Field
    requires Perfect(t, d) && d <= |directions|
  {
    LeavesCount(t, d);
    IndexBound(directions, d);
    Leaves(t)[Index(directions, d)]
  }

  // Paths: m steps down from the root, by the directions below k

  predicate HasPath(t: Tree, directions: seq<Bit>, k: nat, m: nat)
    requires m <= k <= |directions|
  {
    m == 0 || (t.Node? && HasPath(Side(t, directions[k - 1]), directions, k - 1, m - 1))
  }

  /** The subtree at the end of the path. */
  function Below(t: Tree, directions: seq<Bit>, k: nat, m: nat): Tree
    requires m <= k <= |directions| && HasPath(t, directions, k, m)
  {
    if m == 0 then t else Below(Side(t, directions[k - 1]), directions, k - 1, m - 1)
  }

  /** The roots of the sibling subtrees along the path, from below. */
  function Siblings(h: PairHash, t: Tree, directions: seq<Bit>, k: nat, m: nat): (roots: seq<Field>)
    requires m <= k <= |directions| && HasPath(t, directions, k, m)
    ensures |roots| == m
  {
    if m == 0 then []
    else
      var bit := directions[k - 1];
      Siblings(h, Side(t, bit), directions, k - 1, m - 1) + [Root(h, Other(t, bit))]
  }

  lemma {:induction false} PerfectPath(t: Tree, d: nat, directions: seq<Bit>, k: nat, m: nat)
    requires Perfect(t, d) && m <= d && m <= k <= |directions|
    ensures HasPath(t, directions, k, m) && Perfect(Below(t, directions, k, m), d - m)
    decreases m
  {
    if m > 0 {
      PerfectPath(Side(t, directions[k - 1]), d - 1, directions, k - 1, m - 1);
    }
  }

  /** The first leaf of that subtree in a tree of depth d. */
  function FirstLeaf(directions: seq<Bit>, k: nat, m: nat, d: nat): nat
    requires m <= k <= |directions| && m <= d
  {
    if m == 0 then 0
    else (if directions[k - 1] == 0 then 0 else Pow2(d - 1)) + FirstLeaf(directions, k - 1, m - 1, d - 1)
  }

  lemma {:induction false} PowersMultiply(m: nat, n: nat)
    ensures Pow2(m) * Pow2(n) == Pow2(m + n)
  {
    if m > 0 {
      PowersMultiply(m - 1, n);
      Doubled(Pow2(m - 1), Pow2(n));
    }
  }

  lemma Doubled(x: nat, y: nat)
    ensures 2 * x * y == 2 * (x * y)
  {
  }

  lemma Distributes(x: nat, y: nat, z: nat)
    ensures (x + y) * z == x * z + y * z
  {
  }

  lemma IndexStep(directions: seq<Bit>, n: nat)
    requires 0 < n <= |directions|
    ensures Index(directions, n) == Index(directions, n - 1) + (if directions[n - 1] == 0 then 0 else Pow2(n - 1))
  {
  }

  /** Its number is spelled by the directions of the path. */
  lemma {:induction false} FirstLeafIs(directions: seq<Bit>, k: nat, m: nat, d: nat)
    requires m <= k <= |directions| && m <= d
    ensures FirstLeaf(directions, k, m, d) == Index(directions[k - m..k], m) * Pow2(d - m)
  {
    if m > 0 {
      var path := directions[k - m..k];
      FirstLeafIs(directions, k - 1, m - 1, d - 1);
      assert directions[k - m..k - 1] == path[..m - 1];
      IndexLocal(path[..m - 1], path, m - 1);
      IndexStep(path, m);
      PowersMultiply(m - 1, d - m);
      Distributes(Index(path, m - 1), Pow2(m - 1), Pow2(d - m));
    }
  }

  lemma {:induction false} IndexLocal(x: seq<Bit>, y: seq<Bit>, n: nat)
    requires n <= |x| && n <= |y| && x[..n] == y[..n]
    ensures Index(x, n) == Index(y, n)
  {
    if n > 0 {
      assert x[n - 1] == x[..n][n - 1] == y[..n][n - 1] == y[n - 1];
      assert x[..n - 1] == x[..n][..n - 1] && y[..n - 1] == y[..n][..n - 1];
      IndexLocal(x, y, n - 1);
    }
  }

  lemma SliceOfConcat(x: seq<Field>, y: seq<Field>, i: nat, j: nat)
    requires i <= j
    ensures j <= |x| ==> (x + y)[i..j] == x[i..j]
    ensures j <= |y| ==> (x + y)[|x| + i..|x| + j] == y[i..j]
  {
  }

  lemma SliceOfSide(t: Tree, bit: Bit, i: nat, j: nat, at: nat)
    requires t.Node? && i <= j <= |Leaves(Side(t, bit))| && at == if bit == 0 then 0 else |Leaves(t.left)|
    ensures at + j <= |Leaves(t)| && Leaves(t)[at + i..at + j] == Leaves(Side(t, bit))[i..j]
  {
    var l, r := Leaves(t.left), Leaves(t.right);
    assert Leaves(t) == l + r;
    SliceOfConcat(l, r, i, j);
  }

  /** The leaves below the end of the path. */
  lemma {:induction false} BelowLeaves(t: Tree, d: nat, directions: seq<Bit>, k: nat, m: nat, first: nat, n: nat)
    requires Perfect(t, d) && m <= d && m <= k <= |directions|
    requires first == FirstLeaf(directions, k, m, d) && n == Pow2(d - m)
    ensures HasPath(t, directions, k, m)
    ensures first + n <= |Leaves(t)| && Leaves(Below(t, directions, k, m)) == Leaves(t)[first..first + n]
    decreases m
  {
    if m == 0 {
      LeavesCount(t, d);
    } else {
      var side, bit := Side(t, directions[k - 1]), directions[k - 1];
      var i := FirstLeaf(directions, k - 1, m - 1, d - 1);
      LeavesCount(t.left, d - 1);
      BelowLeaves(side, d - 1, directions, k - 1, m - 1, i, n);
      SliceOfSide(t, bit, i, i + n, first - i);
      assert Below(t, directions, k, m) == Below(side, directions, k - 1, m - 1);
    }
  }

  /** At the end of a path to the bottom is one leaf. */
  lemma BelowLeaf(t: Tree, d: nat, directions: seq<Bit>, k: nat)
    requires Perfect(t, d) && d <= k <= |directions|
    ensures HasPath(t, directions, k, d)
    ensures Below(t, directions, k, d) == Leaf(LeafAt(t, directions[k - d..k], d))
  {
    BelowLeaves(t, d, directions, k, d, FirstLeaf(directions, k, d, d), Pow2(0));
    PerfectPath(t, d, directions, k, d);
    FirstLeafIs(directions, k, d, d);
    LeavesCount(t, d);
    IndexBound(directions[k - d..k], d);
  }

  /** The last m of k siblings lead up the path to the root, and the earlier ones from the leaf to where it ends. */
  predicate AlongPath(h: PairHash, t: Tree, leaf: Field, proof: seq<Field>, directions: seq<Bit>, k: nat, m: nat)
    requires m <= k <= |directions| && k <= |proof| && HasPath(t, directions, k, m)
  {
    && Climb(h, leaf, proof, directions, k - m) == Root(h, Below(t, directions, k, m))
    && proof[k - m..k] == Siblings(h, t, directions, k, m)
  }

  lemma {:induction false} PathClimbs(h: PairHash, t: Tree, leaf: Field, proof: seq<Field>, directions: seq<Bit>,
                                      k: nat, m: nat)
    requires m <= k <= |directions| && k <= |proof| && HasPath(t, directions, k, m)
    requires AlongPath(h, t, leaf, proof, directions, k, m)
    ensures Climb(h, leaf, proof, directions, k) == Root(h, t)
    decreases m
  {
    if m > 0 {
      var last := proof[k - m..k];
      assert last[..m - 1] == proof[k - m..k - 1] && last[m - 1] == proof[k - 1];
      PathClimbs(h, Side(t, directions[k - 1]), leaf, proof, directions, k - 1, m - 1);
    }
  }

  // Soundness

  datatype Pair = Pair(a: Field, b: Field)

  predicate IsCollision(h: PairHash, p: Pair, q: Pair) {
    p != q && h(p.a, p.b) == h(q.a, q.b)
  }

  function Ordered(computed: Field, sibling: Field, direction: Bit): Pair {
    if direction == 0 then Pair(computed, sibling) else Pair(sibling, computed)
  }

  /** The highest step of the path at which proof and tree hash different pairs. */
  function FindCollision(h: PairHash, t: Tree, leaf: Field, proof: seq<Field>, directions: seq<Bit>, k: nat, m: nat)
    : (Pair, Pair)
    requires m <= k <= |directions| && k <= |proof| && HasPath(t, directions, k, m)
    decreases m
  {
    if m == 0 then (Pair(0, 0), Pair(0, 0))
    else
      var bit := directions[k - 1];
      var hashed := Ordered(Climb(h, leaf, proof, directions, k - 1), proof[k - 1], bit);
      var genuine := Pair(Root(h, t.left), Root(h, t.right));
      if hashed != genuine then (hashed, genuine)
      else FindCollision(h, Side(t, bit), leaf, proof, directions, k - 1, m - 1)
  }

  lemma {:induction false} PathForgery(h: PairHash, t: Tree, leaf: Field, proof: seq<Field>, directions: seq<Bit>,
                                       k: nat, m: nat)
    requires m <= k <= |directions| && k <= |proof| && HasPath(t, directions, k, m)
    requires Climb(h, leaf, proof, directions, k) == Root(h, t)
    ensures AlongPath(h, t, leaf, proof, directions, k, m)
            || (var (p, q) := FindCollision(h, t, leaf, proof, directions, k, m); IsCollision(h, p, q))
    decreases m
  {
    if m > 0 {
      var bit := directions[k - 1];
      var computed := Climb(h, leaf, proof, directions, k - 1);
      if Ordered(computed, proof[k - 1], bit) == Pair(Root(h, t.left), Root(h, t.right)) {
        PathForgery(h, Side(t, bit), leaf, proof, directions, k - 1, m - 1);
        assert proof[k - m..k] == proof[k - m..k - 1] + [proof[k - 1]];
      }
    }
  }

  /** Leaf and siblings are the genuine ones at the index that the directions spell. */
  predicate Authentic(h: PairHash, t: Tree, leaf: Field, proof: seq<Field>, directions: seq<Bit>, d: nat)
    requires Perfect(t, d) && d <= |directions| && d <= |proof|
  {
    PerfectPath(t, d, directions, d, d);
    leaf == LeafAt(t, directions, d) && proof[..d] == Siblings(h, t, directions, d, d)
  }

  lemma AuthenticIsAlong(h: PairHash, t: Tree, leaf: Field, proof: seq<Field>, directions: seq<Bit>, d: nat)
    requires Perfect(t, d) && d <= |directions| && d <= |proof|
    ensures HasPath(t, directions, d, d)
    ensures Authentic(h, t, leaf, proof, directions, d) <==> AlongPath(h, t, leaf, proof, directions, d, d)
  {
    BelowLeaf(t, d, directions, d);
    IndexLocal(directions[..d], directions, d);
    LeavesCount(t, d);
  }

  lemma AuthenticClimbs(h: PairHash, t: Tree, leaf: Field, proof: seq<Field>, directions: seq<Bit>, d: nat)
    requires Perfect(t, d) && d <= |directions| && d <= |proof|
    requires Authentic(h, t, leaf, proof, directions, d)
    ensures Climb(h, leaf, proof, directions, d) == Root(h, t)
  {
    AuthenticIsAlong(h, t, leaf, proof, directions, d);
    PathClimbs(h, t, leaf, proof, directions, d, d);
  }

  /** Whoever reaches the root of the tree without the genuine leaf and siblings has hashed a collision, and
      FindCollision computes it. */
  lemma ForgeryIsCollision(h: PairHash, t: Tree, leaf: Field, proof: seq<Field>, directions: seq<Bit>, d: nat)
    requires Perfect(t, d) && d <= |directions| && d <= |proof|
    requires Climb(h, leaf, proof, directions, d) == Root(h, t)
    ensures HasPath(t, directions, d, d)
    ensures Authentic(h, t, leaf, proof, directions, d)
            || (var (p, q) := FindCollision(h, t, leaf, proof, directions, d, d); IsCollision(h, p, q))
  {
    AuthenticIsAlong(h, t, leaf, proof, directions, d);
    PathForgery(h, t, leaf, proof, directions, d, d);
  }

  ghost predicate CollisionFree(h: PairHash) {
    forall p, q :: !IsCollision(h, p, q)
  }

  lemma ClimbsIffAlong(h: PairHash, t: Tree, leaf: Field, proof: seq<Field>, directions: seq<Bit>, k: nat, m: nat)
    requires CollisionFree(h) && m <= k <= |directions| && k <= |proof| && HasPath(t, directions, k, m)
    ensures Climb(h, leaf, proof, directions, k) == Root(h, t) <==> AlongPath(h, t, leaf, proof, directions, k, m)
  {
    if Climb(h, leaf, proof, directions, k) == Root(h, t) {
      PathForgery(h, t, leaf, proof, directions, k, m);
      var (p, q) := FindCollision(h, t, leaf, proof, directions, k, m);
      assert !IsCollision(h, p, q);
    } else if AlongPath(h, t, leaf, proof, directions, k, m) {
      PathClimbs(h, t, leaf, proof, directions, k, m);
    }
  }

  /** For a perfect tree of depth at most ten and a collision-free hash the verifier accepts exactly the leaf at the
      index the directions spell, with exactly the sibling roots of its path. */
  lemma AcceptsExactlyAuthentic(h: PairHash, t: Tree, leaf: Field, proof: seq<Field>, directions: seq<Bit>, d: nat)
    requires CollisionFree(h) && d <= LEVELS && Perfect(t, d) && |proof| == |directions| == LEVELS
    ensures Accepts(h, leaf, Root(h, t), proof, directions, d) <==> Authentic(h, t, leaf, proof, directions, d)
  {
    AuthenticIsAlong(h, t, leaf, proof, directions, d);
    ClimbsIffAlong(h, t, leaf, proof, directions, d, d);
  }

  /** What k siblings prove against a perfect tree of depth d. - For k <= d: the value is the root of the subtree k
      steps down, and the siblings are those of that path. - For k > d: the first k - d siblings lead from the value up
      to the leaf that the last d directions spell, and the others are those of its path. */
  ghost predicate Proves(h: PairHash, t: Tree, d: nat, leaf: Field, proof: seq<Field>, directions: seq<Bit>, k: nat)
    requires Perfect(t, d) && k <= |directions| && k <= |proof|
  {
    var m := Min(k, d);
    && HasPath(t, directions, k, m)
    && if k <= d
       then leaf == Root(h, Below(t, directions, k, k)) && proof[..k] == Siblings(h, t, directions, k, k)
       else && Climb(h, leaf, proof, directions, k - d) == LeafAt(t, directions[k - d..k], d)
            && proof[k - d..k] == Siblings(h, t, directions, k, d)
  }

  lemma ProvesIsAlong(h: PairHash, t: Tree, d: nat, leaf: Field, proof: seq<Field>, directions: seq<Bit>, k: nat)
    requires Perfect(t, d) && k <= |directions| && k <= |proof|
    ensures HasPath(t, directions, k, Min(k, d))
    ensures Proves(h, t, d, leaf, proof, directions, k) <==> AlongPath(h, t, leaf, proof, directions, k, Min(k, d))
  {
    PerfectPath(t, d, directions, k, Min(k, d));
    if k > d {
      BelowLeaf(t, d, directions, k);
    }
  }

  /** The depth is the caller's. With any depth, against a perfect tree of any depth d and with a collision-free
      hash, the verifier accepts exactly what Proves says: for a depth below d, an inner node of the tree, the one
      over the leaves whose numbers begin with the directions; for a depth above d, what leads up to a leaf. */
  lemma AcceptsIffProves(h: PairHash, t: Tree, d: nat, leaf: Field, proof: seq<Field>, directions: seq<Bit>, depth: nat)
    requires CollisionFree(h) && Perfect(t, d) && |proof| == |directions| == LEVELS
    ensures Accepts(h, leaf, Root(h, t), proof, directions, depth)
            <==> Proves(h, t, d, leaf, proof, directions, Used(depth))
    ensures var k := Used(depth);
            k <= d ==>
              && HasPath(t, directions, k, k)
              && var first, n := Index(directions[..k], k) * Pow2(d - k), Pow2(d - k);
              && first + n <= |Leaves(t)| && Leaves(Below(t, directions, k, k)) == Leaves(t)[first..first + n]
  {
    var k := Used(depth);
    ProvesIsAlong(h, t, d, leaf, proof, directions, k);
    ClimbsIffAlong(h, t, leaf, proof, directions, k, Min(k, d));
    if k <= d {
      BelowLeaves(t, d, directions, k, k, FirstLeaf(directions, k, k, d), Pow2(d - k));
      FirstLeafIs(directions, k, k, d);
    }
  }

  lemma {:induction false} ClimbLocal(h: PairHash, leaf: Field, p: seq<Field>, q: seq<Field>, x: seq<Bit>,
                                      y: seq<Bit>, n: nat)
    requires n <= |p| && n <= |q| && n <= |x| && n <= |y|
    requires p[..n] == q[..n] && x[..n] == y[..n]
    ensures Climb(h, leaf, p, x, n) == Climb(h, leaf, q, y, n)
  {
    if n > 0 {
      assert p[..n - 1] == p[..n][..n - 1] && q[..n - 1] == q[..n][..n - 1];
      assert x[..n - 1] == x[..n][..n - 1] && y[..n - 1] == y[..n][..n - 1];
      assert p[n - 1] == p[..n][n - 1] && q[n - 1] == q[..n][n - 1];
      assert x[n - 1] == x[..n][n - 1] && y[n - 1] == y[..n][n - 1];
      ClimbLocal(h, leaf, p, q, x, y, n - 1);
    }
  }

  /** Entries at or beyond the depth never matter, and a depth above ten means ten. */
  lemma BeyondDepthIsIgnored(h: PairHash, leaf: Field, root: Field, p: seq<Field>, q: seq<Field>, x: seq<Bit>,
                             y: seq<Bit>,
                             depth: nat)
    requires |p| == |q| == |x| == |y| == LEVELS
    requires p[..Used(depth)] == q[..Used(depth)] && x[..Used(depth)] == y[..Used(depth)]
    ensures Accepts(h, leaf, root, p, x, depth) == Accepts(h, leaf, root, q, y, Used(depth))
  {
    ClimbLocal(h, leaf, p, q, x, y, Used(depth));
  }

  // The party and scope circuits

  /** The siblings the circuits do not skip. */
  function NonZero(proof: seq<Field>): (r: seq<Field>)
    ensures |r| <= |proof|
    ensures forall x | x in r :: x != 0
  {
    if proof == [] then []
    else
      var n := |proof| - 1;
      if proof[n] == 0 then NonZero(proof[..n]) else NonZero(proof[..n]) + [proof[n]]
  }

  predicate CircuitAccepts(h: PairHash, consentId: Field, root: Field, leaf: Field, proof: seq<Field>)
    requires |proof| == LEVELS
  {
    SkippingFold(h, leaf, proof) == root && root == consentId
  }

  function SkippingFold(h: PairHash, leaf: Field, proof: seq<Field>): Field {
    if proof == [] then leaf
    else
      var n := |proof| - 1;
      var computed := SkippingFold(h, leaf, proof[..n]);
      if proof[n] == 0 then computed else h(computed, proof[n])
  }

  /** `main` of both circuits; false where one of its asserts fails. */
  method InclusionCircuit(h: PairHash, consentId: Field, root: Field, leaf: Field, proof: seq<Field>, treeDepth: Field)
    returns (ok: bool)
    requires |proof| == LEVELS
    ensures ok == CircuitAccepts(h, consentId, root, leaf, proof)
  {
    var computed := leaf;
    for i := 0 to LEVELS
      invariant computed == SkippingFold(h, leaf, proof[..i])
    {
      var sibling := proof[i];
      assert proof[..i + 1][..i] == proof[..i];
      if sibling != 0 {
        computed := h(computed, sibling);
      }
    }
    assert proof[..LEVELS] == proof;
    ok := computed == root && root == consentId;
  }

  /** All directions 0: the computed value is always the left one. */
  const LEFTWARD: seq<Bit> := [0, 0, 0, 0, 0, 0, 0, 0, 0, 0]

  lemma {:induction false} SkippingIsClimbing(h: PairHash, leaf: Field, proof: seq<Field>, compact: seq<Field>, n: nat)
    requires n <= |proof| && |NonZero(proof[..n])| <= |compact| <= LEVELS
    requires NonZero(proof[..n]) == compact[..|NonZero(proof[..n])|]
    ensures SkippingFold(h, leaf, proof[..n]) == Climb(h, leaf, compact, LEFTWARD, |NonZero(proof[..n])|)
  {
    if n > 0 {
      assert proof[..n][..n - 1] == proof[..n - 1];
      var k := |NonZero(proof[..n - 1])|;
      assert compact[..k] == NonZero(proof[..n])[..k] == NonZero(proof[..n - 1]);
      SkippingIsClimbing(h, leaf, proof, compact, n - 1);
      if proof[n - 1] != 0 {
        assert compact[k] == NonZero(proof[..n])[k];
      }
    }
  }

  /** The circuits are the general verifier run with all directions 0 on the non-zero siblings moved to the front, the
      depth being their number; what fills the rest of the proof does not matter. */
  lemma CircuitRefinesVerifier(h: PairHash, consentId: Field, root: Field, leaf: Field, proof: seq<Field>,
                               compact: seq<Field>)
    requires |proof| == |compact| == LEVELS
    requires NonZero(proof) == compact[..|NonZero(proof)|]
    ensures CircuitAccepts(h, consentId, root, leaf, proof)
            <==> root == consentId && Accepts(h, leaf, root, compact, LEFTWARD, |NonZero(proof)|)
  {
    assert proof[..LEVELS] == proof;
    SkippingIsClimbing(h, leaf, proof, compact, LEVELS);
  }

  // What the circuits prove

  lemma CircuitClimbs(h: PairHash, consentId: Field, root: Field, leaf: Field, proof: seq<Field>)
    requires |proof| == LEVELS
    ensures CircuitAccepts(h, consentId, root, leaf, proof)
            <==> Climb(h, leaf, NonZero(proof), LEFTWARD, |NonZero(proof)|) == root == consentId
  {
    assert proof[..LEVELS] == proof;
    assert NonZero(proof)[..|NonZero(proof)|] == NonZero(proof);
    SkippingIsClimbing(h, leaf, proof, NonZero(proof), LEVELS);
  }

  /** What an accepted proof shows of any tree with that root and m steps to the left, up to collisions that can be
      computed: its last m non-zero siblings are the roots to the right of those steps, and from the leaf the earlier
      ones lead to the subtree where they end. All such proofs are accepted. */
  lemma CircuitProvesSpine(h: PairHash, t: Tree, consentId: Field, leaf: Field, proof: seq<Field>, m: nat)
    requires |proof| == LEVELS && m <= |NonZero(proof)| && HasPath(t, LEFTWARD, |NonZero(proof)|, m)
    ensures var siblings, k := NonZero(proof), |NonZero(proof)|;
            && (CircuitAccepts(h, consentId, Root(h, t), leaf, proof) ==>
                  && consentId == Root(h, t)
                  && (|| AlongPath(h, t, leaf, siblings, LEFTWARD, k, m)
                      || (var (p, q) := FindCollision(h, t, leaf, siblings, LEFTWARD, k, m); IsCollision(h, p, q))))
            && (AlongPath(h, t, leaf, siblings, LEFTWARD, k, m) ==>
                  CircuitAccepts(h, Root(h, t), Root(h, t), leaf, proof))
  {
    var siblings, k := NonZero(proof), |NonZero(proof)|;
    CircuitClimbs(h, consentId, Root(h, t), leaf, proof);
    CircuitClimbs(h, Root(h, t), Root(h, t), leaf, proof);
    if CircuitAccepts(h, consentId, Root(h, t), leaf, proof) {
      PathForgery(h, t, leaf, siblings, LEFTWARD, k, m);
    }
    if AlongPath(h, t, leaf, siblings, LEFTWARD, k, m) {
      PathClimbs(h, t, leaf, siblings, LEFTWARD, k, m);
    }
  }

  lemma {:induction false} LeftwardIndex(directions: seq<Bit>, n: nat)
    requires n <= |directions| && forall i | 0 <= i < n :: directions[i] == 0
    ensures Index(directions, n) == 0
  {
    if n > 0 {
      LeftwardIndex(directions, n - 1);
    }
  }

  /** Against a perfect tree of any depth d, with a collision-free hash, a circuit accepts a proof with k non-zero
      siblings if and only if the public values agree with the root and the proof shows, with all directions 0, what
      Proves says. For k <= d that is the root of the subtree over the first 2^(d - k) leaves, and for k > d a way up
      to the first leaf. So what it proves is membership of a leaf only for the first leaf, and only if k is known to
      be d. */
  lemma CircuitAcceptsIff(h: PairHash, t: Tree, d: nat, consentId: Field, leaf: Field, proof: seq<Field>, k: nat)
    requires CollisionFree(h) && Perfect(t, d) && |proof| == LEVELS && k == |NonZero(proof)|
    ensures CircuitAccepts(h, consentId, Root(h, t), leaf, proof)
            <==> consentId == Root(h, t) && Proves(h, t, d, leaf, NonZero(proof), LEFTWARD, k)
  {
    ProvesIsAlong(h, t, d, leaf, NonZero(proof), LEFTWARD, k);
    ClimbsIffAlong(h, t, leaf, NonZero(proof), LEFTWARD, k, Min(k, d));
    CircuitClimbs(h, consentId, Root(h, t), leaf, proof);
  }

  /** The subtree, or the leaf, that k siblings in the circuits speak of. */
  lemma LeftmostLeaves(t: Tree, d: nat, k: nat)
    requires Perfect(t, d) && k <= LEVELS
    ensures k <= d ==>
              && HasPath(t, LEFTWARD, k, k) && Pow2(d - k) <= |Leaves(t)|
              && Leaves(Below(t, LEFTWARD, k, k)) == Leaves(t)[..Pow2(d - k)]
    ensures k > d ==> |Leaves(t)| > 0 && LeafAt(t, LEFTWARD[k - d..k], d) == Leaves(t)[0]
  {
    if k <= d {
      BelowLeaves(t, d, LEFTWARD, k, k, FirstLeaf(LEFTWARD, k, k, d), Pow2(d - k));
      FirstLeafIs(LEFTWARD, k, k, d);
      LeftwardIndex(LEFTWARD[..k], k);
    } else {
      LeftwardIndex(LEFTWARD[k - d..k], d);
      LeavesCount(t, d);
      IndexBound(LEFTWARD[k - d..k], d);
    }
  }

  /** In particular the root of any tree passes as a party or scope of itself, with a proof of zeros. */
  lemma RootPassesAsLeaf(h: PairHash, t: Tree, proof: seq<Field>)
    requires proof == seq(LEVELS, _ => 0)
    ensures CircuitAccepts(h, Root(h, t), Root(h, t), Root(h, t), proof)
  {
    NothingSkippedIn(h, Root(h, t), proof);
  }

  lemma {:induction false} NothingSkippedIn(h: PairHash, leaf: Field, proof: seq<Field>)
    requires forall i | 0 <= i < |proof| :: proof[i] == 0
    ensures SkippingFold(h, leaf, proof) == leaf
  {
    if proof != [] {
      NothingSkippedIn(h, leaf, proof[..|proof| - 1]);
    }
  }
}
