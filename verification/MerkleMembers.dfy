/**
 Exactly which byte strings have an accepted proof in the sorted-pair tree: its leaves, its node inputs, and whatever
 climbs into a leaf.
 */
module MerkleMembers {
  import opened SortedMerkle

  // ---- what passes without being a leaf ------------------------------------------------------------

  lemma {:induction false} NodeInputHasPath(mh: Hash, level: seq<Bytes>, x: Bytes) returns (p: seq<Bytes>)
    requires x in NodeInputs(mh, level)
    ensures Climb(mh, mh(x), p) == Top(mh, level)
    ensures ClimbInputs(mh, mh(x), p) <= NodeInputs(mh, level)
    decreases |level|
  {
    hide Joined, Right, Climb, ClimbInputs, Path, Top;
    var up := Fold(mh, level);
    TopStep(mh, level);
    if i :| 0 <= i < |up| && x == Joined(level[2 * i], Right(level, i)) {
      assert up[i] == mh(x);
      p := Path(mh, up, i);
      PathClimbs(mh, up, i);
      PathInputs(mh, up, i);
    } else {
      p := NodeInputHasPath(mh, up, x);
    }
  }

  lemma TopStep(mh: Hash, level: seq<Bytes>)
    requires |level| > 1
    ensures Fold(mh, level) != [] && Top(mh, level) == Top(mh, Fold(mh, level))
  {
  }

  /** Without the separation of leaves from node inputs binding fails: for every hash, every 64 bytes that a node of any
    * tree hashes pass as a leaf of it. */
  lemma NodeInputPassesAsLeaf(mh: Hash, leaves: seq<Bytes>, x: Bytes) returns (p: seq<Bytes>)
    requires Digests(mh) && x in TreeNodes(mh, leaves)
    ensures Accepts(mh, x, p, Root(mh, leaves)) && |x| == 64
    ensures ClimbInputs(mh, mh(x), p) <= TreeNodes(mh, leaves)
  {
    LeafLevelSizes(mh, leaves);
    NodeInputSizes(mh, LeafLevel(mh, leaves), x);
    p := NodeInputHasPath(mh, LeafLevel(mh, leaves), x);
  }

  /** The other way round: if a leaf is what a node over u would hash, u passes, though it is no node input and, by its
    * length, no leaf. */
  lemma BelowALeafPasses(mh: Hash, u: Bytes, s: Bytes)
    requires Digests(mh) && |u| != 32 + |s|
    ensures var leaves := [Joined(mh(u), s)];
            Accepts(mh, u, [s], Root(mh, leaves)) && u !in leaves && TreeNodes(mh, leaves) == {}
  {
    assert |Joined(mh(u), s)| == 32 + |s|;
    hide Joined, LE;
    OneLeaf(mh, Joined(mh(u), s));
    var x := Pair(mh, mh(u), s);
    assert [s][1..] == [] && Climb(mh, x, []) == x;
  }

  // ---- exactly what passes -------------------------------------------------------------------------

  /** Nothing hashed by the tree and by this verification collides. */
  ghost predicate Unambiguous(mh: Hash, leaves: seq<Bytes>, x: Bytes, p: seq<Bytes>) {
    CollisionFree(mh, LeafInputs(leaves) + TreeNodes(mh, leaves) + {x} + ClimbInputs(mh, mh(x), p))
  }

  /** Climbing from x passes through a leaf of the tree. */
  ghost predicate ThroughLeaf(mh: Hash, leaves: seq<Bytes>, x: Bytes, p: seq<Bytes>) {
    !(LeafInputs(leaves) !! ClimbInputs(mh, mh(x), p))
  }

  ghost predicate Passes(mh: Hash, leaves: seq<Bytes>, x: Bytes, p: seq<Bytes>) {
    Unambiguous(mh, leaves, x, p) && Accepts(mh, x, p, Root(mh, leaves))
  }

  lemma {:induction false} ClimbConcat(mh: Hash, h: Bytes, p: seq<Bytes>, q: seq<Bytes>)
    ensures Climb(mh, h, p + q) == Climb(mh, Climb(mh, h, p), q)
    ensures ClimbInputs(mh, h, p + q) == ClimbInputs(mh, h, p) + ClimbInputs(mh, Climb(mh, h, p), q)
    decreases |p|
  {
    hide Joined;
    if p == [] {
      assert p + q == q;
    } else {
      assert (p + q)[0] == p[0] && (p + q)[1..] == p[1..] + q;
      ClimbConcat(mh, Pair(mh, h, p[0]), p[1..], q);
    }
  }

  /** The part of a climb up to a given input. */
  lemma {:induction false} ClimbTo(mh: Hash, h: Bytes, p: seq<Bytes>, x: Bytes) returns (q: seq<Bytes>)
    requires x in ClimbInputs(mh, h, p)
    ensures Climb(mh, h, q) == mh(x) && ClimbInputs(mh, h, q) <= ClimbInputs(mh, h, p)
    decreases |p|
  {
    hide Joined;
    if x == Joined(h, p[0]) {
      q := [p[0]];
      assert q[1..] == [];
      assert Climb(mh, mh(x), []) == mh(x);
    } else {
      var rest := ClimbTo(mh, Pair(mh, h, p[0]), p[1..], x);
      q := [p[0]] + rest;
      assert q[1..] == rest;
    }
  }

  /** From a leaf on the way the leaf's own path leads to the root. */
  lemma ThroughLeafPasses(mh: Hash, leaves: seq<Bytes>, x: Bytes, p: seq<Bytes>) returns (q: seq<Bytes>)
    requires Unambiguous(mh, leaves, x, p) && ThroughLeaf(mh, leaves, x, p)
    ensures Passes(mh, leaves, x, q)
  {
    hide Root, TreeNodes, Climb, ClimbInputs;
    var leaf :| leaf in LeafInputs(leaves) && leaf in ClimbInputs(mh, mh(x), p);
    var start := ClimbTo(mh, mh(x), p, leaf);
    var rest := PresentHasProof(mh, leaves, leaf);
    q := start + rest;
    ClimbConcat(mh, mh(x), start, rest);
  }

  lemma KnownPasses(mh: Hash, leaves: seq<Bytes>, x: Bytes) returns (p: seq<Bytes>)
    requires x in leaves || x in TreeNodes(mh, leaves)
    ensures Accepts(mh, x, p, Root(mh, leaves)) && ClimbInputs(mh, mh(x), p) <= TreeNodes(mh, leaves)
  {
    if x in leaves {
      p := PresentHasProof(mh, leaves, x);
    } else {
      p := NodeInputHasPath(mh, LeafLevel(mh, leaves), x);
    }
  }

  /** Some climb from x runs into a leaf of the tree. */
  ghost predicate BelowALeaf(mh: Hash, leaves: seq<Bytes>, x: Bytes) {
    exists p :: Unambiguous(mh, leaves, x, p) && ThroughLeaf(mh, leaves, x, p)
  }

  /** Exactly what is accepted: a leaf, a node input, or something below a leaf. */
  lemma PassesExactly(mh: Hash, leaves: seq<Bytes>, x: Bytes)
    requires leaves != [] && Digests(mh) && Unambiguous(mh, leaves, x, [])
    ensures (exists p :: Passes(mh, leaves, x, p)) <==>
              x in leaves || x in TreeNodes(mh, leaves) || BelowALeaf(mh, leaves, x)
  {
    hide Root, TreeNodes, Climb, ClimbInputs;
    if p :| Passes(mh, leaves, x, p) {
      if !ThroughLeaf(mh, leaves, x, p) { AcceptedIsKnown(mh, leaves, x, p); }
    }
    if x in leaves || x in TreeNodes(mh, leaves) {
      var p := KnownPasses(mh, leaves, x);
      FewerInputs(mh, leaves, x, p);
      assert Passes(mh, leaves, x, p);
    } else if BelowALeaf(mh, leaves, x) {
      var p :| Unambiguous(mh, leaves, x, p) && ThroughLeaf(mh, leaves, x, p);
      var q := ThroughLeafPasses(mh, leaves, x, p);
    }
  }

  lemma FewerInputs(mh: Hash, leaves: seq<Bytes>, x: Bytes, p: seq<Bytes>)
    requires Unambiguous(mh, leaves, x, []) && ClimbInputs(mh, mh(x), p) <= TreeNodes(mh, leaves)
    ensures Unambiguous(mh, leaves, x, p)
  {
    hide TreeNodes;
  }

  /** A proof that hashes no leaf on the way up exists, and is accepted, exactly for leaves and node inputs. */
  lemma ApartPassesExactly(mh: Hash, leaves: seq<Bytes>, x: Bytes)
    requires leaves != [] && Digests(mh) && Unambiguous(mh, leaves, x, [])
    requires LeafInputs(leaves) !! TreeNodes(mh, leaves)
    ensures (exists p :: Passes(mh, leaves, x, p) && !ThroughLeaf(mh, leaves, x, p)) <==>
              x in leaves || x in TreeNodes(mh, leaves)
  {
    hide Root, TreeNodes, Climb, ClimbInputs;
    if p :| Passes(mh, leaves, x, p) && !ThroughLeaf(mh, leaves, x, p) {
      AcceptedIsKnown(mh, leaves, x, p);
    }
    if x in leaves || x in TreeNodes(mh, leaves) {
      var p := KnownPasses(mh, leaves, x);
      FewerInputs(mh, leaves, x, p);
      assert Passes(mh, leaves, x, p) && !ThroughLeaf(mh, leaves, x, p);
    }
  }
}
