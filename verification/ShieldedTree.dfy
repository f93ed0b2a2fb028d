/**
 The fixed-depth commitment tree of execnode/shielded.py. Hashes are free terms, one constructor per domain tag, so
 two hashes agree only when their tag and inputs do; any other string is a term of its own.
 */
module ShieldedTree {
  import opened Numbers

  datatype Term =
    | EmptyLeaf
    | Node(left: Term, right: Term)
    | Cm(value: int, owner: Term, rho: Term)
    | OwnerOf(pubkey: Term)
    | Nf(pubkey: Term, rho: Term)
    | Other(text: string)

  // ---- the full padded tree ------------------------------------------------------------------------

  /** Leaf i of the tree: a commitment, or padding. */
  function Leaf(leaves: seq<Term>, i: nat): Term {
    if i < |leaves| then leaves[i] else EmptyLeaf
  }

  /** The root of the subtree of height d whose leaves start at i*2^d. */
  function Subtree(leaves: seq<Term>, d: nat, i: nat): Term
    decreases d
  {
    if d == 0 then Leaf(leaves, i) else Node(Subtree(leaves, d - 1, 2 * i), Subtree(leaves, d - 1, 2 * i + 1))
  }

  /** What the tree's root means: the complete binary tree of the given depth, padded with empty leaves. */
  function Root(leaves: seq<Term>, depth: nat): Term {
    Subtree(leaves, depth, 0)
  }

  function EmptyRoot(d: nat): Term {
    if d == 0 then EmptyLeaf else Node(EmptyRoot(d - 1), EmptyRoot(d - 1))
  }

  // ---- the level-by-level computation --------------------------------------------------------------

  /** One level up: pair neighbours, padding a missing right child with the empty subtree of that height. */
  function Halve(level: seq<Term>, e: Term): (next: seq<Term>)
    ensures |next| == (|level| + 1) / 2
    ensures forall i :: 0 <= i < |next| ==>
              next[i] == Node(level[2 * i], if 2 * i + 1 < |level| then level[2 * i + 1] else e)
  {
    seq((|level| + 1) / 2, i requires 0 <= i < (|level| + 1) / 2 =>
      Node(level[2 * i], if 2 * i + 1 < |level| then level[2 * i + 1] else e))
  }

  /** The non-padding nodes at height d. */
  function Level(leaves: seq<Term>, d: nat): seq<Term> {
    if d == 0 then leaves else Halve(Level(leaves, d - 1), EmptyRoot(d - 1))
  }

  /** A level holds the leftmost subtrees; everything to its right is empty. */
  lemma {:induction false} LevelIsSubtrees(leaves: seq<Term>, d: nat, i: nat)
    ensures Subtree(leaves, d, i) == if i < |Level(leaves, d)| then Level(leaves, d)[i] else EmptyRoot(d)
    ensures leaves != [] ==> Level(leaves, d) != []
    decreases d
  {
    if d > 0 {
      LevelIsSubtrees(leaves, d - 1, 2 * i);
      LevelIsSubtrees(leaves, d - 1, 2 * i + 1);
    }
  }

  method EmptyRoots(depth: nat) returns (e: seq<Term>)
    ensures |e| == depth + 1 && forall i :: 0 <= i <= depth ==> e[i] == EmptyRoot(i)
  {
    e := [EmptyLeaf];
    for d := 0 to depth
      invariant |e| == d + 1 && forall i :: 0 <= i <= d ==> e[i] == EmptyRoot(i)
    {
      e := e + [Node(e[|e| - 1], e[|e| - 1])];
    }
  }

  method NextLevel(level: seq<Term>, e: Term) returns (next: seq<Term>)
    ensures next == Halve(level, e)
  {
    next := [];
    var i := 0;
    while i < |level|
      invariant i == 2 * |next| && |next| <= (|level| + 1) / 2
      invariant next == Halve(level, e)[..|next|]
    {
      var right := if i + 1 < |level| then level[i + 1] else e;
      next := next + [Node(level[i], right)];
      i := i + 2;
    }
  }

  /** The root loop computes the padded tree's root. */
  method MerkleRoot(leaves: seq<Term>, depth: nat) returns (root: Term)
    ensures root == Root(leaves, depth)
  {
    var empty := EmptyRoots(depth);
    LevelIsSubtrees(leaves, depth, 0);
    if leaves == [] {
      NoLeaves(depth);
      return empty[depth];
    }
    var level := leaves;
    for d := 0 to depth
      invariant level == Level(leaves, d)
    {
      level := NextLevel(level, empty[d]);
    }
    return level[0];
  }

  lemma {:induction false} NoLeaves(d: nat)
    ensures Level([], d) == []
  {
    if d > 0 { NoLeaves(d - 1); }
  }

  // ---- paths ---------------------------------------------------------------------------------------

  function Sibling(i: nat): nat {
    if i % 2 == 0 then i + 1 else i - 1
  }

  /** The n siblings on the way up from node i at height d. */
  function Siblings(leaves: seq<Term>, d: nat, i: nat, n: nat): (path: seq<Term>)
    ensures |path| == n
    decreases n
  {
    if n == 0 then [] else [Subtree(leaves, d, Sibling(i))] + Siblings(leaves, d + 1, i / 2, n - 1)
  }

  method MerklePath(leaves: seq<Term>, pos: nat, depth: nat) returns (path: seq<Term>)
    ensures path == Siblings(leaves, 0, pos, depth)
  {
    hide Subtree, Siblings, Halve, EmptyRoot;
    var empty := EmptyRoots(depth);
    path := [];
    var idx, level := pos, leaves;
    for d := 0 to depth
      invariant |path| == d && level == Level(leaves, d)
      invariant path + Siblings(leaves, d, idx, depth - d) == Siblings(leaves, 0, pos, depth)
    {
      var sib := Sibling(idx);
      SiblingsUp(leaves, d, idx, depth - d - 1);
      LevelIsSubtrees(leaves, d, sib);
      path := path + [if sib < |level| then level[sib] else empty[d]];
      level := NextLevel(level, empty[d]);
      idx := idx / 2;
    }
    SiblingsNone(leaves, depth, idx);
  }

  /** Fold a node up the tree; the position's bits choose left and right. */
  function Fold(h: Term, idx: int, path: seq<Term>): Term
    decreases |path|
  {
    if path == [] then h
    else Fold(if idx % 2 == 0 then Node(h, path[0]) else Node(path[0], h), idx / 2, path[1..])
  }

  /** Whether the first depth siblings fold the leaf to the root. */
  predicate PathOk(leaf: Term, pos: int, path: seq<Term>, root: Term, depth: nat)
    requires depth <= |path|
  {
    Fold(leaf, pos, path[..depth]) == root
  }

  /** verify_path; a path shorter than the tree raises in the source, so it is the caller's duty here. */
  method VerifyPath(leaf: Term, pos: int, path: seq<Term>, root: Term, depth: nat) returns (ok: bool)
    requires depth <= |path|
    ensures ok <==> PathOk(leaf, pos, path, root, depth)
  {
    var h, idx := leaf, pos;
    for d := 0 to depth
      invariant Fold(h, idx, path[d..depth]) == Fold(leaf, pos, path[..depth])
    {
      assert path[d..depth][1..] == path[d + 1..depth];
      h := if idx % 2 == 0 then Node(h, path[d]) else Node(path[d], h);
      idx := idx / 2;
    }
    ok := h == root;
  }

  /** Folding a node with its own siblings climbs to the ancestor n levels up. */
  lemma {:induction false} FoldClimbs(leaves: seq<Term>, d: nat, i: nat, n: nat)
    ensures Fold(Subtree(leaves, d, i), i, Siblings(leaves, d, i, n)) == Subtree(leaves, d + n, i / Pow2(n))
    decreases n
  {
    hide Subtree, Siblings;
    SiblingsNone(leaves, d, i);
    if n > 0 {
      var path := Siblings(leaves, d, i, n);
      SiblingsUp(leaves, d, i, n - 1);
      assert path[1..] == Siblings(leaves, d + 1, i / 2, n - 1);
      FoldClimbs(leaves, d + 1, i / 2, n - 1);
      DivTwice(i, Pow2(n - 1));
      SubtreeUp(leaves, d, i / 2);
    }
  }

  lemma DivTwice(i: int, p: nat)
    requires p >= 1
    ensures i / 2 / p == i / (2 * p)
  {
    var q, r := i / 2, i % 2;
    var a, b := q / p, q % p;
    assert q == a * p + b;
    assert i == 2 * (a * p + b) + r == a * (2 * p) + (2 * b + r);
    QuotientIs(i, 2 * p, a, 2 * b + r);
  }

  lemma ModTwice(i: int, p: nat)
    requires p >= 1
    ensures i % (2 * p) == 2 * ((i / 2) % p) + i % 2
  {
    var q, r := i / 2, i % 2;
    var a, b := q / p, q % p;
    assert i == 2 * (a * p + b) + r == a * (2 * p) + (2 * b + r);
    QuotientIs(i, 2 * p, a, 2 * b + r);
  }

  /** Every path the pool hands out for a position inside the tree is accepted against its root. */
  lemma PathsVerify(leaves: seq<Term>, pos: nat, depth: nat)
    requires pos < Pow2(depth)
    ensures PathOk(Leaf(leaves, pos), pos, Siblings(leaves, 0, pos, depth), Root(leaves, depth), depth)
  {
    hide Fold, Subtree, Siblings, Pow2;
    var path := Siblings(leaves, 0, pos, depth);
    assert path[..depth] == path;
    FoldClimbs(leaves, 0, pos, depth);
    QuotientIs(pos, Pow2(depth), 0, pos);
    assert Subtree(leaves, 0, pos) == Leaf(leaves, pos) by { SubtreeZero(leaves, pos); }
  }

  lemma SubtreeZero(leaves: seq<Term>, i: nat)
    ensures Subtree(leaves, 0, i) == Leaf(leaves, i)
  {
  }

  lemma SubtreeUp(leaves: seq<Term>, d: nat, i: nat)
    ensures Subtree(leaves, d + 1, i) == Node(Subtree(leaves, d, 2 * i), Subtree(leaves, d, 2 * i + 1))
  {
  }

  lemma SiblingsUp(leaves: seq<Term>, d: nat, i: nat, n: nat)
    ensures Siblings(leaves, d, i, n + 1) == [Subtree(leaves, d, Sibling(i))] + Siblings(leaves, d + 1, i / 2, n)
  {
  }

  /** Folding to a node of the tree forces the start and every sibling to be the tree's own. */
  lemma {:induction false} FoldBinds(leaves: seq<Term>, d: nat, h: Term, idx: int, path: seq<Term>, j: nat)
    requires Fold(h, idx, path) == Subtree(leaves, d + |path|, j)
    ensures var i := j * Pow2(|path|) + idx % Pow2(|path|);
            i >= 0 && h == Subtree(leaves, d, i) && path == Siblings(leaves, d, i, |path|)
    decreases |path|
  {
    hide Subtree, Siblings;
    if path != [] {
      var n := |path| - 1;
      var up := if idx % 2 == 0 then Node(h, path[0]) else Node(path[0], h);
      FoldBinds(leaves, d + 1, up, idx / 2, path[1..], j);
      var p := Pow2(n);
      var k := j * p + idx / 2 % p;
      var i := j * (2 * p) + idx % (2 * p);
      ModTwice(idx, p);
      assert j * (2 * p) == 2 * (j * p);
      assert i == 2 * k + idx % 2;
      SubtreeUp(leaves, d, k);
      SiblingsUp(leaves, d, i, n);
      assert i / 2 == k;
      assert path == [path[0]] + path[1..];
    } else {
      SiblingsNone(leaves, d, j);
    }
  }

  lemma SiblingsNone(leaves: seq<Term>, d: nat, i: nat)
    ensures Siblings(leaves, d, i, 0) == []
  {
  }

  /**
   Merkle binding: a path is accepted exactly when the leaf is the padded leaf at pos mod 2^depth and the siblings
   are the tree's own.
   */
  lemma PathBinds(leaves: seq<Term>, leaf: Term, pos: int, path: seq<Term>, depth: nat)
    requires depth <= |path|
    ensures PathOk(leaf, pos, path, Root(leaves, depth), depth) <==>
            leaf == Leaf(leaves, pos % Pow2(depth)) && path[..depth] == Siblings(leaves, 0, pos % Pow2(depth), depth)
  {
    hide Fold, Subtree, Siblings, Pow2;
    var i := pos % Pow2(depth);
    SubtreeZero(leaves, i);
    QuotientIs(i, Pow2(depth), 0, i);
    if PathOk(leaf, pos, path, Root(leaves, depth), depth) {
      FoldBinds(leaves, 0, leaf, pos, path[..depth], 0);
    }
    if leaf == Leaf(leaves, i) && path[..depth] == Siblings(leaves, 0, i, depth) {
      FoldClimbs(leaves, 0, i, depth);
      FoldWraps(leaf, pos, path[..depth]);
    }
  }

  /** Only the low bits of the position matter. */
  lemma {:induction false} FoldWraps(h: Term, idx: int, path: seq<Term>)
    ensures Fold(h, idx, path) == Fold(h, idx % Pow2(|path|), path)
    decreases |path|
  {
    if path != [] {
      var p := Pow2(|path| - 1);
      ModTwice(idx, p);
      var i := idx % (2 * p);
      QuotientIs(i, 2, (idx / 2) % p, idx % 2);
      FoldWraps(if idx % 2 == 0 then Node(h, path[0]) else Node(path[0], h), idx / 2, path[1..]);
    }
  }

  // ---- roots determine lists -----------------------------------------------------------------------

  lemma {:induction false} SubtreesBind(a: seq<Term>, b: seq<Term>, d: nat, i: nat, k: nat)
    requires Subtree(a, d, i) == Subtree(b, d, i) && k < Pow2(d)
    ensures Leaf(a, i * Pow2(d) + k) == Leaf(b, i * Pow2(d) + k)
    decreases d
  {
    if d > 0 {
      var p := Pow2(d - 1);
      assert i * (2 * p) == 2 * i * p;
      assert (2 * i + 1) * p == 2 * i * p + p;
      if k < p { SubtreesBind(a, b, d - 1, 2 * i, k); } else { SubtreesBind(a, b, d - 1, 2 * i + 1, k - p); }
    }
  }

  lemma {:induction false} SameSubtrees(a: seq<Term>, b: seq<Term>, d: nat, i: nat)
    requires forall k :: i * Pow2(d) <= k < (i + 1) * Pow2(d) ==> Leaf(a, k) == Leaf(b, k)
    ensures Subtree(a, d, i) == Subtree(b, d, i)
    decreases d
  {
    if d > 0 {
      var p := Pow2(d - 1);
      assert i * (2 * p) == 2 * i * p && (i + 1) * (2 * p) == 2 * i * p + 2 * p;
      assert (2 * i + 1) * p == 2 * i * p + p && (2 * i + 2) * p == 2 * i * p + 2 * p;
      SameSubtrees(a, b, d - 1, 2 * i);
      SameSubtrees(a, b, d - 1, 2 * i + 1);
    }
  }

  /** What a root binds: lists of any length share one if and only if they agree, padded, on every position the tree
    * has. */
  lemma RootsAgreeExactly(a: seq<Term>, b: seq<Term>, depth: nat)
    ensures Root(a, depth) == Root(b, depth) <==> forall k :: 0 <= k < Pow2(depth) ==> Leaf(a, k) == Leaf(b, k)
  {
    hide Subtree, Leaf, Pow2;
    if Root(a, depth) == Root(b, depth) {
      forall k | 0 <= k < Pow2(depth) ensures Leaf(a, k) == Leaf(b, k) { SubtreesBind(a, b, depth, 0, k); }
    }
    if forall k :: 0 <= k < Pow2(depth) ==> Leaf(a, k) == Leaf(b, k) { SameSubtrees(a, b, depth, 0); }
  }

  lemma LengthBound(a: seq<Term>, b: seq<Term>)
    requires EmptyLeaf !in b && (|a| < |b| ==> Leaf(a, |a|) == Leaf(b, |a|))
    ensures |b| <= |a|
  {
  }

  /** Lists of real leaves that fit the tree are equal when their roots are. */
  lemma RootsBind(a: seq<Term>, b: seq<Term>, depth: nat)
    requires Root(a, depth) == Root(b, depth)
    requires |a| <= Pow2(depth) && |b| <= Pow2(depth) && EmptyLeaf !in a && EmptyLeaf !in b
    ensures a == b
  {
    RootsAgreeExactly(a, b, depth);
    LengthBound(a, b);
    LengthBound(b, a);
    assert forall k :: 0 <= k < |a| ==> a[k] == Leaf(a, k) && b[k] == Leaf(b, k);
  }

  /** Leaves beyond the tree's capacity do not reach the root. */
  lemma {:induction false} OverflowIgnored(leaves: seq<Term>, d: nat, i: nat, more: seq<Term>)
    requires (i + 1) * Pow2(d) <= |leaves|
    ensures Subtree(leaves + more, d, i) == Subtree(leaves, d, i)
    decreases d
  {
    if d > 0 {
      var p := Pow2(d - 1);
      assert (i + 1) * (2 * p) == (2 * i + 1 + 1) * p;
      assert (2 * i + 1) * p <= (2 * i + 2) * p;
      OverflowIgnored(leaves, d - 1, 2 * i, more);
      OverflowIgnored(leaves, d - 1, 2 * i + 1, more);
    }
  }
}
