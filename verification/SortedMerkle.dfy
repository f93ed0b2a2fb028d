/**
 The sorted-pair Merkle tree under the settled state root (hashing.py): leaf hashes in byte order, parents over the two
 children in byte order, and the last node of an odd level paired with itself. A proof is then a bare list of siblings.

 The hash function is a parameter. No function into 32 bytes is injective, so "collision free" is always said of a
 finite set: the inputs that one tree and one verification actually hash.
 */
module SortedMerkle {
  import opened Options

  type Byte = n: int | 0 <= n < 256
  type Bytes = seq<Byte>
  type Hash = Bytes -> Bytes

  // ---- byte order ---------------------------------------------------------------------------------

  predicate LE(a: Bytes, b: Bytes) {
    a == [] || (b != [] && (a[0] < b[0] || (a[0] == b[0] && LE(a[1..], b[1..]))))
  }

  /** The two agree before position n, and there the first ends or has the smaller byte. */
  ghost predicate SmallerAt(a: Bytes, b: Bytes, n: nat) {
    && n <= |a| && n <= |b| && (forall i :: 0 <= i < n ==> a[i] == b[i])
    && (n == |a| || (n < |b| && a[n] < b[n]))
  }

  /** Byte order, position by position. */
  lemma {:induction false} LEExactly(a: Bytes, b: Bytes)
    ensures LE(a, b) <==> exists n: nat :: SmallerAt(a, b, n)
  {
    if a != [] && b != [] && a[0] == b[0] {
      LEExactly(a[1..], b[1..]);
      if LE(a, b) {
        var m: nat :| SmallerAt(a[1..], b[1..], m);
        assert SmallerAt(a, b, m + 1);
      }
      if n: nat :| SmallerAt(a, b, n) { assert SmallerAt(a[1..], b[1..], n - 1); }
    } else if LE(a, b) {
      assert SmallerAt(a, b, 0);
    }
  }

  lemma {:induction false} LEAntisymmetric(a: Bytes, b: Bytes)
    requires LE(a, b) && LE(b, a)
    ensures a == b
  {
    if a != [] && b != [] {
      LEAntisymmetric(a[1..], b[1..]);
      assert a == [a[0]] + a[1..] && b == [b[0]] + b[1..];
    }
  }

  lemma {:induction false} LETotal(a: Bytes, b: Bytes)
    ensures LE(a, b) || LE(b, a)
  {
    if a != [] && b != [] {
      LETotal(a[1..], b[1..]);
    }
  }

  lemma {:induction false} LETransitive(a: Bytes, b: Bytes, c: Bytes)
    requires LE(a, b) && LE(b, c)
    ensures LE(a, c)
  {
    if a != [] && a[0] == b[0] == c[0] {
      LETransitive(a[1..], b[1..], c[1..]);
    }
  }

  ghost predicate Sorted(s: seq<Bytes>) {
    forall i, j :: 0 <= i < j < |s| ==> LE(s[i], s[j])
  }

  function Insert(x: Bytes, s: seq<Bytes>): (r: seq<Bytes>)
    ensures multiset(r) == multiset{x} + multiset(s)
    ensures Sorted(s) ==> Sorted(r)
  {
    if s == [] then [x]
    else if LE(x, s[0]) then
      InsertFront(x, s);
      [x] + s
    else
      var rest := Insert(x, s[1..]);
      assert s == [s[0]] + s[1..];
      InsertBehind(x, s, rest);
      [s[0]] + rest
  }

  lemma InsertFront(x: Bytes, s: seq<Bytes>)
    requires s != [] && LE(x, s[0])
    ensures Sorted(s) ==> Sorted([x] + s)
  {
    if Sorted(s) {
      forall k | 0 < k < |s| ensures LE(x, s[k]) {
        LETransitive(x, s[0], s[k]);
      }
    }
  }

  lemma InsertBehind(x: Bytes, s: seq<Bytes>, rest: seq<Bytes>)
    requires s != [] && !LE(x, s[0])
    requires multiset(rest) == multiset{x} + multiset(s[1..])
    requires Sorted(s[1..]) ==> Sorted(rest)
    ensures Sorted(s) ==> Sorted([s[0]] + rest)
  {
    if Sorted(s) {
      LETotal(x, s[0]);
      forall k | 0 <= k < |rest| ensures LE(s[0], rest[k]) {
        assert rest[k] in multiset(rest);
        if rest[k] != x {
          assert rest[k] in s[1..];
        }
      }
    }
  }

  function Sort(s: seq<Bytes>): (r: seq<Bytes>)
    ensures multiset(r) == multiset(s)
    ensures Sorted(r)
  {
    if s == [] then [] else
      assert s == [s[0]] + s[1..];
      Insert(s[0], Sort(s[1..]))
  }

  lemma Without(s: seq<Bytes>, i: nat)
    requires i < |s|
    ensures multiset(s) == multiset{s[i]} + multiset(s[..i] + s[i + 1..])
  {
    assert s == s[..i] + [s[i]] + s[i + 1..];
  }

  lemma Cancel(x: Bytes, m: multiset<Bytes>, n: multiset<Bytes>)
    requires multiset{x} + m == multiset{x} + n
    ensures m == n
  {
    assert m == (multiset{x} + m) - multiset{x};
  }

  lemma FirstIsLeast(s: seq<Bytes>, x: Bytes)
    requires Sorted(s) && x in s
    ensures LE(s[0], x)
  {
    hide LE;
    LETotal(x, x);
  }

  lemma HeadsAgree(a: seq<Bytes>, b: seq<Bytes>)
    requires Sorted(a) && Sorted(b)
    requires multiset(a) == multiset(b)
    requires a != []
    ensures b != [] && a[0] == b[0]
  {
    hide LE;
    assert a[0] in multiset(b);
    assert a[0] in b;
    assert b[0] in multiset(a);
    FirstIsLeast(a, b[0]);
    FirstIsLeast(b, a[0]);
    LEAntisymmetric(a[0], b[0]);
  }

  lemma TailsAgree(a: seq<Bytes>, b: seq<Bytes>)
    requires multiset(a) == multiset(b)
    requires a != [] && b != [] && a[0] == b[0]
    ensures multiset(a[1..]) == multiset(b[1..])
  {
    assert a == [a[0]] + a[1..] && b == [b[0]] + b[1..];
    assert multiset(a) == multiset{a[0]} + multiset(a[1..]);
    assert multiset(b) == multiset{b[0]} + multiset(b[1..]);
    Cancel(a[0], multiset(a[1..]), multiset(b[1..]));
  }

  /** The byte order leaves no choice: a multiset has one sorted arrangement. */
  lemma {:induction false} SortedUnique(a: seq<Bytes>, b: seq<Bytes>)
    requires Sorted(a) && Sorted(b)
    requires multiset(a) == multiset(b)
    ensures a == b
  {
    hide LE;
    if a == [] {
      if b != [] {
        HeadsAgree(b, a);
      }
    } else {
      HeadsAgree(a, b);
      TailsAgree(a, b);
      SortedUnique(a[1..], b[1..]);
      assert a == [a[0]] + a[1..] && b == [b[0]] + b[1..];
    }
  }

  // ---- the tree -----------------------------------------------------------------------------------

  /** What a parent hashes: the two children, smaller first. */
  function Joined(a: Bytes, b: Bytes): Bytes {
    if LE(a, b) then a + b else b + a
  }

  function Pair(mh: Hash, a: Bytes, b: Bytes): Bytes {
    mh(Joined(a, b))
  }

  /** Whichever way round its children are given, a parent hashes the smaller one first. */
  lemma ParentInOrder(mh: Hash, small: Bytes, large: Bytes)
    requires LE(small, large)
    ensures Pair(mh, small, large) == Pair(mh, large, small) == mh(small + large)
  {
    if LE(large, small) { LEAntisymmetric(small, large); }
  }

  function Hashes(mh: Hash, leaves: seq<Bytes>): seq<Bytes> {
    seq(|leaves|, i requires 0 <= i < |leaves| => mh(leaves[i]))
  }

  function LeafLevel(mh: Hash, leaves: seq<Bytes>): seq<Bytes> {
    Sort(Hashes(mh, leaves))
  }

  /** The right neighbour of the node at the even position 2i, itself at the end of an odd level. */
  function Right(level: seq<Bytes>, i: nat): Bytes
    requires 2 * i < |level|
  {
    if 2 * i + 1 < |level| then level[2 * i + 1] else level[2 * i]
  }

  function Fold(mh: Hash, level: seq<Bytes>): (up: seq<Bytes>)
    ensures |up| == (|level| + 1) / 2
  {
    seq((|level| + 1) / 2,
        i requires 0 <= i < (|level| + 1) / 2 => Pair(mh, level[2 * i], Right(level, i)))
  }

  function Top(mh: Hash, level: seq<Bytes>): Bytes
    requires level != []
    decreases |level|
  {
    if |level| == 1 then level[0] else Top(mh, Fold(mh, level))
  }

  /** DOMAIN_EMPTY_MERKLE, "empty-merkle-v1" in ASCII. */
  const EMPTY_TAG: Bytes := [101, 109, 112, 116, 121, 45, 109, 101, 114, 107, 108, 101, 45, 118, 49]

  function Root(mh: Hash, leaves: seq<Bytes>): Bytes {
    var level := LeafLevel(mh, leaves);
    if level == [] then mh(EMPTY_TAG) else Top(mh, level)
  }

  method MerkleRoot(mh: Hash, leaves: seq<Bytes>) returns (root: Bytes)
    ensures root == Root(mh, leaves)
  {
    var cur := LeafLevel(mh, leaves);
    if cur == [] {
      return mh(EMPTY_TAG);
    }
    while |cur| > 1
      invariant cur != []
      invariant Top(mh, cur) == Root(mh, leaves)
      decreases |cur|
    {
      cur := Fold(mh, cur);
    }
    root := cur[0];
  }

  // ---- proofs -------------------------------------------------------------------------------------

  function Sibling(level: seq<Bytes>, idx: nat): Bytes
    requires idx < |level|
  {
    var sib := if idx % 2 == 0 then idx + 1 else idx - 1;
    if sib < |level| then level[sib] else level[idx]
  }

  function Path(mh: Hash, level: seq<Bytes>, idx: nat): seq<Bytes>
    requires idx < |level|
    decreases |level|
  {
    if |level| == 1 then [] else [Sibling(level, idx)] + Path(mh, Fold(mh, level), idx / 2)
  }

  function Climb(mh: Hash, h: Bytes, proof: seq<Bytes>): Bytes
    decreases |proof|
  {
    if proof == [] then h else Climb(mh, Pair(mh, h, proof[0]), proof[1..])
  }

  predicate Accepts(mh: Hash, leaf: Bytes, proof: seq<Bytes>, root: Bytes) {
    Climb(mh, mh(leaf), proof) == root
  }

  lemma JoinedSymmetric(a: Bytes, b: Bytes)
    ensures Joined(a, b) == Joined(b, a)
  {
    LETotal(a, b);
    if LE(a, b) && LE(b, a) {
      LEAntisymmetric(a, b);
    }
  }

  /** A node and its sibling are the pair one level up hashes, in either order. */
  lemma SiblingsFold(mh: Hash, level: seq<Bytes>, idx: nat)
    requires idx < |level| && |level| > 1
    ensures idx / 2 < |Fold(mh, level)|
    ensures Joined(level[idx], Sibling(level, idx)) == Joined(level[2 * (idx / 2)], Right(level, idx / 2))
    ensures Pair(mh, level[idx], Sibling(level, idx)) == Fold(mh, level)[idx / 2]
  {
    JoinedSymmetric(level[idx], Sibling(level, idx));
  }

  /** Climbing a path from its own node ends at the top, whatever the position and the parity. */
  lemma {:induction false} PathClimbs(mh: Hash, level: seq<Bytes>, idx: nat)
    requires idx < |level|
    ensures Climb(mh, level[idx], Path(mh, level, idx)) == Top(mh, level)
    decreases |level|
  {
    hide LE, Joined, Pair, Sibling;
    if |level| > 1 {
      var up, sib := Fold(mh, level), Sibling(level, idx);
      SiblingsFold(mh, level, idx);
      PathClimbs(mh, up, idx / 2);
      assert ([sib] + Path(mh, up, idx / 2))[1..] == Path(mh, up, idx / 2);
    }
  }

  lemma HashInLevel(mh: Hash, leaves: seq<Bytes>, leaf: Bytes)
    ensures mh(leaf) in LeafLevel(mh, leaves) <==> mh(leaf) in Hashes(mh, leaves)
    ensures leaf in leaves ==> mh(leaf) in LeafLevel(mh, leaves)
  {
    hide Sort;
    var x, hashes := mh(leaf), Hashes(mh, leaves);
    assert x in LeafLevel(mh, leaves) <==> x in multiset(hashes);
    if leaf in leaves {
      var k :| 0 <= k < |leaves| && leaves[k] == leaf;
      assert hashes[k] == x;
    }
  }

  predicate FirstAt(level: seq<Bytes>, x: Bytes, idx: nat) {
    idx < |level| && level[idx] == x && x !in level[..idx]
  }

  method IndexOf(level: seq<Bytes>, x: Bytes) returns (idx: nat)
    requires x in level
    ensures FirstAt(level, x, idx)
  {
    idx := 0;
    while level[idx] != x
      invariant idx < |level| && x !in level[..idx]
      decreases |level| - idx
    {
      idx := idx + 1;
    }
  }

  lemma PathStep(mh: Hash, level: seq<Bytes>, idx: nat)
    requires idx < |level|
    ensures |level| == 1 ==> Path(mh, level, idx) == []
    ensures |level| > 1 ==> idx / 2 < |Fold(mh, level)|
    ensures |level| > 1 ==> Path(mh, level, idx) == [Sibling(level, idx)] + Path(mh, Fold(mh, level), idx / 2)
  {
  }

  /** The prover's loop: one sibling a level, the node itself where it has none. */
  method Siblings(mh: Hash, level: seq<Bytes>, first: nat) returns (proof: seq<Bytes>)
    requires first < |level|
    ensures proof == Path(mh, level, first)
  {
    hide Path, Fold;
    var cur, idx := level, first;
    proof := [];
    while |cur| > 1
      invariant 0 <= idx < |cur|
      invariant proof + Path(mh, cur, idx) == Path(mh, level, first)
      decreases |cur|
    {
      PathStep(mh, cur, idx);
      var sib := if idx % 2 == 0 then idx + 1 else idx - 1;
      var s := if sib < |cur| then cur[sib] else cur[idx];
      assert proof + ([s] + Path(mh, Fold(mh, cur), idx / 2)) == proof + [s] + Path(mh, Fold(mh, cur), idx / 2);
      proof, cur, idx := proof + [s], Fold(mh, cur), idx / 2;
    }
    PathStep(mh, cur, idx);
  }

  /** The prover: the first position that holds the hash, then the sibling at every level. A proof is
    * returned exactly when the hash is a leaf hash, and the verifier takes every proof returned. */
  method MerkleProof(mh: Hash, leaves: seq<Bytes>, leaf: Bytes) returns (r: Option<seq<Bytes>>)
    ensures r.Some? <==> mh(leaf) in Hashes(mh, leaves)
    ensures leaf in leaves ==> r.Some?
    ensures r.Some? ==> Accepts(mh, leaf, r.value, Root(mh, leaves))
    ensures r.Some? ==>
      var level := LeafLevel(mh, leaves);
      exists idx: nat :: FirstAt(level, mh(leaf), idx) && r.value == Path(mh, level, idx)
  {
    hide LE, Sort, Climb, Path, Top;
    var level := LeafLevel(mh, leaves);
    HashInLevel(mh, leaves, leaf);
    if mh(leaf) !in level {
      return None;
    }
    var idx := IndexOf(level, mh(leaf));
    var proof := Siblings(mh, level, idx);
    PathClimbs(mh, level, idx);
    r := Some(proof);
  }

  method VerifyMerkleProof(mh: Hash, leaf: Bytes, proof: seq<Bytes>, root: Bytes) returns (ok: bool)
    ensures ok <==> Accepts(mh, leaf, proof, root)
  {
    var h := mh(leaf);
    for i := 0 to |proof|
      invariant Climb(mh, h, proof[i..]) == Climb(mh, mh(leaf), proof)
    {
      assert proof[i..][1..] == proof[i + 1..];
      h := Pair(mh, h, proof[i]);
    }
    ok := h == root;
  }

  // ---- order of the leaves ------------------------------------------------------------------------

  lemma HashesWithout(mh: Hash, s: seq<Bytes>, i: nat)
    requires i < |s|
    ensures multiset(Hashes(mh, s)) == multiset{mh(s[i])} + multiset(Hashes(mh, s[..i] + s[i + 1..]))
  {
    assert Hashes(mh, s)[..i] + Hashes(mh, s)[i + 1..] == Hashes(mh, s[..i] + s[i + 1..]);
    Without(Hashes(mh, s), i);
  }

  lemma {:induction false} HashesMultiset(mh: Hash, a: seq<Bytes>, b: seq<Bytes>)
    requires multiset(a) == multiset(b)
    ensures multiset(Hashes(mh, a)) == multiset(Hashes(mh, b))
  {
    assert |multiset(a)| == |a| && |multiset(b)| == |b|;
    if a == [] {
      assert Hashes(mh, a) == Hashes(mh, b);
    } else {
      assert a[0] in multiset(b);
      var i :| 0 <= i < |b| && b[i] == a[0];
      Without(a, 0);
      Without(b, i);
      HashesWithout(mh, a, 0);
      HashesWithout(mh, b, i);
      Cancel(a[0], multiset(a[..0] + a[1..]), multiset(b[..i] + b[i + 1..]));
      HashesMultiset(mh, a[..0] + a[1..], b[..i] + b[i + 1..]);
    }
  }

  /** Prover and verifier need not agree on an order: permuting the leaves keeps the root. */
  lemma RootIgnoresOrder(mh: Hash, a: seq<Bytes>, b: seq<Bytes>)
    requires multiset(a) == multiset(b)
    ensures Root(mh, a) == Root(mh, b)
  {
    HashesMultiset(mh, a, b);
    SortedUnique(LeafLevel(mh, a), LeafLevel(mh, b));
  }

  // ---- binding ------------------------------------------------------------------------------------

  ghost predicate Digests(mh: Hash) {
    forall b: Bytes :: |mh(b)| == 32
  }

  ghost predicate CollisionFree(mh: Hash, inputs: set<Bytes>) {
    forall a, b :: a in inputs && b in inputs && mh(a) == mh(b) ==> a == b
  }

  /** Every input hashed above a level. */
  function NodeInputs(mh: Hash, level: seq<Bytes>): set<Bytes>
    decreases |level|
  {
    if |level| <= 1 then {}
    else (set i | 0 <= i < (|level| + 1) / 2 :: Joined(level[2 * i], Right(level, i))) + NodeInputs(mh, Fold(mh, level))
  }

  function LeafInputs(leaves: seq<Bytes>): set<Bytes> {
    set l | l in leaves
  }

  function TreeNodes(mh: Hash, leaves: seq<Bytes>): set<Bytes> {
    NodeInputs(mh, LeafLevel(mh, leaves))
  }

  /** Every input a verification hashes after the leaf itself. */
  function ClimbInputs(mh: Hash, h: Bytes, proof: seq<Bytes>): set<Bytes>
    decreases |proof|
  {
    if proof == [] then {}
    else {Joined(h, proof[0])} + ClimbInputs(mh, Pair(mh, h, proof[0]), proof[1..])
  }

  /** Every node of the tree, the level itself included. */
  function AllNodes(mh: Hash, level: seq<Bytes>): set<Bytes>
    decreases |level|
  {
    (set x | x in level) + (if |level| <= 1 then {} else AllNodes(mh, Fold(mh, level)))
  }

  ghost predicate ChildOf(mh: Hash, level: seq<Bytes>, x: Bytes, a: Bytes, b: Bytes) {
    a in AllNodes(mh, level) && b in AllNodes(mh, level) &&
    Joined(a, b) in NodeInputs(mh, level) && x == Pair(mh, a, b)
  }

  lemma {:induction false} TopIsNode(mh: Hash, level: seq<Bytes>)
    requires level != []
    ensures Top(mh, level) in AllNodes(mh, level)
    decreases |level|
  {
    if |level| > 1 {
      TopIsNode(mh, Fold(mh, level));
    }
  }

  /** A node is on the bottom level or the parent of two nodes of the tree. */
  lemma {:induction false} NodeHasChildren(mh: Hash, level: seq<Bytes>, x: Bytes) returns (a: Bytes, b: Bytes)
    requires x in AllNodes(mh, level) && x !in level
    ensures ChildOf(mh, level, x, a, b)
    decreases |level|
  {
    var up := Fold(mh, level);
    if x in up {
      var i :| 0 <= i < |up| && up[i] == x;
      a, b := level[2 * i], Right(level, i);
    } else {
      a, b := NodeHasChildren(mh, up, x);
    }
  }

  lemma {:induction false} NodeSize(mh: Hash, level: seq<Bytes>, x: Bytes)
    requires Digests(mh)
    requires forall y :: y in level ==> |y| == 32
    requires x in AllNodes(mh, level)
    ensures |x| == 32
    decreases |level|
  {
    if x !in level {
      NodeSize(mh, Fold(mh, level), x);
    }
  }

  /** Two joins of digests with the same bytes join the same two nodes. */
  lemma JoinedSplits(a: Bytes, b: Bytes, h: Bytes, s: Bytes)
    requires |a| == 32 && |b| == 32 && |h| == 32
    requires Joined(a, b) == Joined(h, s)
    ensures h == a || h == b
  {
    assert |s| == 32;
    var l, r := if LE(a, b) then a else b, if LE(a, b) then b else a;
    var u, v := if LE(h, s) then h else s, if LE(h, s) then s else h;
    assert (l + r)[..32] == l && (l + r)[32..] == r;
    assert (u + v)[..32] == u && (u + v)[32..] == v;
  }

  ghost predicate Sound(mh: Hash, leaves: seq<Bytes>, inputs: set<Bytes>) {
    Digests(mh) && CollisionFree(mh, inputs) &&
    LeafInputs(leaves) <= inputs && TreeNodes(mh, leaves) <= inputs
  }

  lemma LeafLevelOrigin(mh: Hash, leaves: seq<Bytes>, x: Bytes) returns (leaf: Bytes)
    requires x in LeafLevel(mh, leaves)
    ensures leaf in leaves && mh(leaf) == x
  {
    assert x in multiset(LeafLevel(mh, leaves));
    assert x in Hashes(mh, leaves);
    var k :| 0 <= k < |leaves| && Hashes(mh, leaves)[k] == x;
    leaf := leaves[k];
  }

  lemma LeafLevelSizes(mh: Hash, leaves: seq<Bytes>)
    requires Digests(mh)
    ensures forall y :: y in LeafLevel(mh, leaves) ==> |y| == 32
  {
    forall y | y in LeafLevel(mh, leaves) ensures |y| == 32 {
      var leaf := LeafLevelOrigin(mh, leaves, y);
    }
  }

  /** Going down: a climb that ends in the tree was in the tree all along. */
  lemma {:induction false} ClimbStaysInTree(
    mh: Hash, leaves: seq<Bytes>, h: Bytes, proof: seq<Bytes>, inputs: set<Bytes>)
    requires Sound(mh, leaves, inputs)
    requires ClimbInputs(mh, h, proof) <= inputs
    requires LeafInputs(leaves) !! ClimbInputs(mh, h, proof)
    requires |h| == 32
    requires Climb(mh, h, proof) in AllNodes(mh, LeafLevel(mh, leaves))
    ensures h in AllNodes(mh, LeafLevel(mh, leaves))
    decreases |proof|
  {
    if proof != [] {
      var level := LeafLevel(mh, leaves);
      var x := Pair(mh, h, proof[0]);
      ClimbStaysInTree(mh, leaves, x, proof[1..], inputs);
      if x in level {
        var leaf := LeafLevelOrigin(mh, leaves, x);
        assert false;
      } else {
        var a, b := NodeHasChildren(mh, level, x);
        LeafLevelSizes(mh, leaves);
        NodeSize(mh, level, a);
        NodeSize(mh, level, b);
        JoinedSplits(a, b, h, proof[0]);
      }
    }
  }

  /** Whatever the length of the proof and of its siblings: when nothing hashed by the tree and by this verification
    * collides, and no leaf is hashed on the way up, an accepted leaf is a leaf or a node input of the tree. */
  lemma AcceptedIsKnown(mh: Hash, leaves: seq<Bytes>, leaf: Bytes, proof: seq<Bytes>)
    requires leaves != []
    requires Digests(mh)
    requires CollisionFree(mh, LeafInputs(leaves) + TreeNodes(mh, leaves) + {leaf} + ClimbInputs(mh, mh(leaf), proof))
    requires LeafInputs(leaves) !! ClimbInputs(mh, mh(leaf), proof)
    requires Accepts(mh, leaf, proof, Root(mh, leaves))
    ensures leaf in leaves || leaf in TreeNodes(mh, leaves)
  {
    var level := LeafLevel(mh, leaves);
    var inputs := LeafInputs(leaves) + TreeNodes(mh, leaves) + {leaf} + ClimbInputs(mh, mh(leaf), proof);
    assert |multiset(level)| == |leaves|;
    TopIsNode(mh, level);
    ClimbStaysInTree(mh, leaves, mh(leaf), proof, inputs);
    if mh(leaf) in level {
      var l := LeafLevelOrigin(mh, leaves, mh(leaf));
      assert l in inputs && leaf in inputs;
    } else {
      var a, b := NodeHasChildren(mh, level, mh(leaf));
      assert Joined(a, b) in inputs && leaf in inputs;
    }
  }

  /** Binding: so a leaf that is no node input is present. */
  lemma AcceptedIsPresent(mh: Hash, leaves: seq<Bytes>, leaf: Bytes, proof: seq<Bytes>)
    requires leaves != []
    requires Digests(mh)
    requires CollisionFree(mh, LeafInputs(leaves) + TreeNodes(mh, leaves) + {leaf} + ClimbInputs(mh, mh(leaf), proof))
    requires LeafInputs(leaves) !! ClimbInputs(mh, mh(leaf), proof)
    requires leaf !in TreeNodes(mh, leaves)
    requires Accepts(mh, leaf, proof, Root(mh, leaves))
    ensures leaf in leaves
  {
    AcceptedIsKnown(mh, leaves, leaf, proof);
  }

  lemma {:induction false} NodeInputSizes(mh: Hash, level: seq<Bytes>, x: Bytes)
    requires Digests(mh)
    requires forall y :: y in level ==> |y| == 32
    requires x in NodeInputs(mh, level)
    ensures |x| == 64
    decreases |level|
  {
    var here := set i | 0 <= i < (|level| + 1) / 2 :: Joined(level[2 * i], Right(level, i));
    if x !in here {
      NodeInputSizes(mh, Fold(mh, level), x);
    }
  }

  lemma {:induction false} ClimbInputSizes(mh: Hash, h: Bytes, proof: seq<Bytes>, x: Bytes)
    requires Digests(mh) && |h| == 32
    requires forall s :: s in proof ==> |s| == 32
    requires x in ClimbInputs(mh, h, proof)
    ensures |x| == 64
    decreases |proof|
  {
    if x != Joined(h, proof[0]) {
      ClimbInputSizes(mh, Pair(mh, h, proof[0]), proof[1..], x);
    }
  }

  /** Length alone separates leaves from nodes: with 32-byte siblings and no 64-byte leaf, acceptance of
    * some proof is the same as membership. */
  lemma MembershipBySize(mh: Hash, leaves: seq<Bytes>, leaf: Bytes, proof: seq<Bytes>)
    requires leaves != []
    requires Digests(mh)
    requires CollisionFree(mh, LeafInputs(leaves) + TreeNodes(mh, leaves) + {leaf} + ClimbInputs(mh, mh(leaf), proof))
    requires forall s :: s in proof ==> |s| == 32
    requires |leaf| != 64 && forall l :: l in leaves ==> |l| != 64
    ensures Accepts(mh, leaf, proof, Root(mh, leaves)) ==> leaf in leaves
    ensures leaf in leaves ==> exists p: seq<Bytes> :: Accepts(mh, leaf, p, Root(mh, leaves))
  {
    LeafLevelSizes(mh, leaves);
    forall x | x in TreeNodes(mh, leaves) ensures |x| == 64 {
      NodeInputSizes(mh, LeafLevel(mh, leaves), x);
    }
    forall x | x in ClimbInputs(mh, mh(leaf), proof) ensures |x| == 64 {
      ClimbInputSizes(mh, mh(leaf), proof, x);
    }
    if Accepts(mh, leaf, proof, Root(mh, leaves)) {
      AcceptedIsPresent(mh, leaves, leaf, proof);
    }
    if leaf in leaves {
      var p := PresentHasProof(mh, leaves, leaf);
    }
  }

  lemma {:induction false} PathInputs(mh: Hash, level: seq<Bytes>, idx: nat)
    requires idx < |level|
    ensures ClimbInputs(mh, level[idx], Path(mh, level, idx)) <= NodeInputs(mh, level)
    decreases |level|
  {
    hide LE, Joined, Pair, Sibling;
    if |level| > 1 {
      var up, sib := Fold(mh, level), Sibling(level, idx);
      SiblingsFold(mh, level, idx);
      PathInputs(mh, up, idx / 2);
      assert ([sib] + Path(mh, up, idx / 2))[1..] == Path(mh, up, idx / 2);
      var here := set i | 0 <= i < (|level| + 1) / 2 :: Joined(level[2 * i], Right(level, i));
      assert Joined(level[2 * (idx / 2)], Right(level, idx / 2)) in here;
    }
  }

  lemma PresentHasProof(mh: Hash, leaves: seq<Bytes>, leaf: Bytes) returns (p: seq<Bytes>)
    requires leaf in leaves
    ensures Accepts(mh, leaf, p, Root(mh, leaves))
    ensures ClimbInputs(mh, mh(leaf), p) <= TreeNodes(mh, leaves)
  {
    var level := LeafLevel(mh, leaves);
    HashInLevel(mh, leaves, leaf);
    var i :| 0 <= i < |level| && level[i] == mh(leaf);
    p := Path(mh, level, i);
    PathClimbs(mh, level, i);
    PathInputs(mh, level, i);
  }

  // ---- what a root binds ---------------------------------------------------------------------------

  /** Equal roots mean equal leaf sets, for any two trees together free of collisions and of leaves that
    * are node inputs; the tag hashed for the empty set counts as a node input. */
  lemma RootsBind(mh: Hash, a: seq<Bytes>, b: seq<Bytes>)
    requires Digests(mh)
    requires CollisionFree(mh, LeafInputs(a) + LeafInputs(b) + TreeNodes(mh, a) + TreeNodes(mh, b) + {EMPTY_TAG})
    requires LeafInputs(a) + LeafInputs(b) !! TreeNodes(mh, a) + TreeNodes(mh, b) + {EMPTY_TAG}
    requires Root(mh, a) == Root(mh, b)
    ensures LeafInputs(a) == LeafInputs(b)
  {
    hide Digests, CollisionFree, LeafInputs, TreeNodes, Root;
    assert LeafInputs(b) + LeafInputs(a) + TreeNodes(mh, b) + TreeNodes(mh, a) + {EMPTY_TAG} ==
           LeafInputs(a) + LeafInputs(b) + TreeNodes(mh, a) + TreeNodes(mh, b) + {EMPTY_TAG};
    RootsInclude(mh, a, b);
    RootsInclude(mh, b, a);
  }

  lemma RootsInclude(mh: Hash, a: seq<Bytes>, b: seq<Bytes>)
    requires Digests(mh)
    requires CollisionFree(mh, LeafInputs(a) + LeafInputs(b) + TreeNodes(mh, a) + TreeNodes(mh, b) + {EMPTY_TAG})
    requires LeafInputs(a) + LeafInputs(b) !! TreeNodes(mh, a) + TreeNodes(mh, b) + {EMPTY_TAG}
    requires Root(mh, a) == Root(mh, b)
    ensures LeafInputs(a) <= LeafInputs(b)
  {
    hide Root, TreeNodes, Climb, ClimbInputs, LeafLevel;
    if b == [] {
      if a != [] {
        assert EMPTY_TAG in TreeNodes(mh, a) + TreeNodes(mh, b) + {EMPTY_TAG};
        EmptyRootExactly(mh, a);
        assert a == [EMPTY_TAG] ==> EMPTY_TAG in LeafInputs(a);
      }
    } else {
      forall leaf | leaf in LeafInputs(a) ensures leaf in LeafInputs(b) {
        var p := PresentHasProof(mh, a, leaf);
        AcceptedIsPresent(mh, b, leaf, p);
      }
    }
  }

  lemma OneLeaf(mh: Hash, leaf: Bytes)
    ensures LeafLevel(mh, [leaf]) == [mh(leaf)]
    ensures Root(mh, [leaf]) == mh(leaf)
  {
    hide LE;
    assert Hashes(mh, [leaf]) == [mh(leaf)];
    SortedUnique(LeafLevel(mh, [leaf]), [mh(leaf)]);
  }

  /** The empty root is exactly that of no leaves and of the tag alone. */
  lemma EmptyRootExactly(mh: Hash, a: seq<Bytes>)
    requires Digests(mh)
    requires CollisionFree(mh, LeafInputs(a) + TreeNodes(mh, a) + {EMPTY_TAG})
    ensures Root(mh, a) == Root(mh, []) <==> a == [] || a == [EMPTY_TAG]
  {
    hide LE;
    var level := LeafLevel(mh, a);
    assert |multiset(level)| == |a|;
    assert LeafLevel(mh, []) == [];
    if |a| == 1 {
      assert a == [a[0]];
      OneLeaf(mh, a[0]);
      assert a[0] in LeafInputs(a);
    } else if |a| > 1 {
      var x := TopIsJoined(mh, level);
      LeafLevelSizes(mh, a);
      NodeInputSizes(mh, level, x);
    }
  }

  lemma {:induction false} TopIsJoined(mh: Hash, level: seq<Bytes>) returns (x: Bytes)
    requires |level| > 1
    ensures x in NodeInputs(mh, level) && mh(x) == Top(mh, level)
    decreases |level|
  {
    hide Joined;
    var up := Fold(mh, level);
    if |up| == 1 {
      x := Joined(level[0], Right(level, 0));
      assert up[0] == mh(x);
      assert Joined(level[2 * 0], Right(level, 0)) == x;
    } else {
      x := TopIsJoined(mh, up);
    }
  }

  /** A single leaf equal to the tag has the empty root, for every hash. */
  lemma TagHasEmptyRoot(mh: Hash)
    ensures Root(mh, [EMPTY_TAG]) == Root(mh, [])
  {
    OneLeaf(mh, EMPTY_TAG);
    assert LeafLevel(mh, []) == [];
  }

  /** Repetitions need not show: the duplicate-last rule gives the largest of three leaves, repeated once more, the same
    * root. */
  lemma RepeatsAreInvisible(mh: Hash, a: Bytes, b: Bytes)
    requires LE(mh(a), mh(b))
    ensures Root(mh, [a, b, b]) == Root(mh, [a, b, b, b])
  {
    var x, y := mh(a), mh(b);
    var three, four := [x, y, y], [x, y, y, y];
    hide LE, Top, Fold, LeafLevel;
    LETotal(y, y);
    SortedAs(mh, [a, b, b], three);
    SortedAs(mh, [a, b, b, b], four);
    FoldsAlike(mh, x, y);
  }

  lemma SortedAs(mh: Hash, leaves: seq<Bytes>, level: seq<Bytes>)
    requires Sorted(level)
    requires Hashes(mh, leaves) == level
    ensures LeafLevel(mh, leaves) == level
  {
    hide LE;
    SortedUnique(LeafLevel(mh, leaves), level);
  }

  lemma FoldsAlike(mh: Hash, x: Bytes, y: Bytes)
    ensures Top(mh, [x, y, y]) == Top(mh, [x, y, y, y])
  {
    hide LE;
    var three, four := [x, y, y], [x, y, y, y];
    assert Right(three, 0) == y && Right(three, 1) == y && Right(four, 0) == y && Right(four, 1) == y;
    assert Fold(mh, three) == [Pair(mh, x, y), Pair(mh, y, y)] == Fold(mh, four);
  }
}
