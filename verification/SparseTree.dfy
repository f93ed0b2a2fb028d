/**
 The sparse storage tree of execnode/stark/storage_tree.py: what its root means -- the plain tree over every position --
 and the shortcuts the store takes to get it.
 */
module SparseTree {
  import opened Field
  import opened Numbers

  type Digest = nat

  /** alghash2's leaf and node hashes. */
  datatype Hash = Hash(leaf: Elem -> Digest, node: (Digest, Digest) -> Digest)

  type Values = map<nat, Elem>

  function Get(values: Values, k: nat): Elem {
    if k in values then values[k] else 0
  }

  /** k >> level */
  function Up(k: nat, level: nat): nat
    decreases level
  {
    if level == 0 then k else Up(k, level - 1) / 2
  }

  /** The digest of the subtree of the given height at the given index, all of its positions counted. */
  function Plain(h: Hash, values: Values, level: nat, index: nat): Digest
    decreases level
  {
    if level == 0 then h.leaf(Get(values, index))
    else h.node(Plain(h, values, level - 1, 2 * index), Plain(h, values, level - 1, 2 * index + 1))
  }

  function Root(h: Hash, values: Values, depth: nat): Digest {
    Plain(h, values, depth, 0)
  }

  function Empty(h: Hash, level: nat): Digest {
    if level == 0 then h.leaf(0) else h.node(Empty(h, level - 1), Empty(h, level - 1))
  }

  // ---- positions -----------------------------------------------------------------------------------

  /** The subtree (level, index) covers the positions from index << level to just before (index + 1) << level. */
  lemma {:induction false} UpRange(k: nat, level: nat, index: nat)
    ensures Up(k, level) == index <==> index * Pow2(level) <= k < (index + 1) * Pow2(level)
  {
    if level > 0 {
      var p, half := Pow2(level - 1), Up(k, level - 1);
      UpRange(k, level - 1, half);
      Doubled(index, p);
      Ordered(2 * index, half, p);
      Ordered(half + 1, 2 * index, p);
      Ordered(half + 1, 2 * index + 2, p);
      Ordered(2 * index + 2, half, p);
    }
  }

  lemma Doubled(index: nat, p: nat)
    ensures (2 * index) * p == index * (2 * p) && (2 * index + 2) * p == (index + 1) * (2 * p)
  {
  }

  lemma Ordered(a: nat, b: nat, p: nat)
    ensures a <= b ==> a * p <= b * p
  {
  }

  ghost predicate Under(values: Values, level: nat, index: nat, k: nat) {
    k in values && Up(k, level) == index
  }

  ghost predicate Vacant(values: Values, level: nat, index: nat) {
    forall k :: k in values ==> Up(k, level) != index
  }

  ghost predicate Sole(values: Values, level: nat, index: nat, k: nat) {
    Under(values, level, index, k) && forall j :: Under(values, level, index, j) ==> j == k
  }

  // ---- the shortcuts -------------------------------------------------------------------------------

  lemma {:induction false} VacantIsEmpty(h: Hash, values: Values, level: nat, index: nat)
    requires Vacant(values, level, index)
    ensures Plain(h, values, level, index) == Empty(h, level)
  {
    if level > 0 {
      VacantIsEmpty(h, values, level - 1, 2 * index);
      VacantIsEmpty(h, values, level - 1, 2 * index + 1);
    }
  }

  /** One leaf folded straight up against empty subtrees. */
  function Chain(h: Hash, k: nat, v: Elem, level: nat): Digest {
    if level == 0 then h.leaf(v)
    else if Up(k, level - 1) % 2 == 1 then h.node(Empty(h, level - 1), Chain(h, k, v, level - 1))
    else h.node(Chain(h, k, v, level - 1), Empty(h, level - 1))
  }

  lemma {:induction false} SoleIsChain(h: Hash, values: Values, level: nat, index: nat, k: nat)
    requires Sole(values, level, index, k)
    ensures Plain(h, values, level, index) == Chain(h, k, values[k], level)
  {
    if level > 0 {
      var half := Up(k, level - 1);
      var other := if half % 2 == 1 then half - 1 else half + 1;
      assert Sole(values, level - 1, half, k) by {
        forall j: nat | j in values && Up(j, level - 1) == half ensures j == k {
          assert Under(values, level, index, j);
        }
      }
      SoleIsChain(h, values, level - 1, half, k);
      forall j | j in values ensures Up(j, level - 1) != other {
        if Up(j, level - 1) == other { assert Under(values, level, index, j); }
      }
      VacantIsEmpty(h, values, level - 1, other);
    }
  }

  /** A write outside a subtree leaves its digest. */
  lemma {:induction false} Elsewhere(h: Hash, x: Values, y: Values, key: nat, level: nat, index: nat)
    requires Up(key, level) != index
    requires forall k :: k != key ==> Get(x, k) == Get(y, k)
    ensures Plain(h, x, level, index) == Plain(h, y, level, index)
  {
    if level > 0 {
      Elsewhere(h, x, y, key, level - 1, 2 * index);
      Elsewhere(h, x, y, key, level - 1, 2 * index + 1);
    }
  }

  lemma {:induction false} SameLeaves(h: Hash, x: Values, y: Values, level: nat, index: nat)
    requires forall k :: Get(x, k) == Get(y, k)
    ensures Plain(h, x, level, index) == Plain(h, y, level, index)
  {
    if level > 0 {
      SameLeaves(h, x, y, level - 1, 2 * index);
      SameLeaves(h, x, y, level - 1, 2 * index + 1);
    }
  }

  // ---- paths ---------------------------------------------------------------------------------------

  function Sibling(i: nat): nat {
    if i % 2 == 0 then i + 1 else i - 1
  }

  /** The siblings of a position from `level` levels below the root up. */
  function PathOf(h: Hash, values: Values, key: nat, levels: nat): (sibs: seq<Digest>)
    ensures |sibs| == levels
  {
    if levels == 0 then []
    else PathOf(h, values, key, levels - 1) + [Plain(h, values, levels - 1, Sibling(Up(key, levels - 1)))]
  }

  /** storage_tree.fold: bit i of the position says on which side the sibling stands. */
  function Fold(h: Hash, v: Elem, key: nat, sibs: seq<Digest>): Digest {
    if sibs == [] then h.leaf(v)
    else
      var i := |sibs| - 1;
      var below := Fold(h, v, key, sibs[..i]);
      if Up(key, i) % 2 == 0 then h.node(below, sibs[i]) else h.node(sibs[i], below)
  }

  method FoldUp(h: Hash, v: Elem, key: nat, sibs: seq<Digest>) returns (root: Digest)
    ensures root == Fold(h, v, key, sibs)
  {
    root := h.leaf(v);
    var bits := key;
    for i := 0 to |sibs|
      invariant bits == Up(key, i)
      invariant root == Fold(h, v, key, sibs[..i])
    {
      assert sibs[..i + 1][..i] == sibs[..i];
      root := if bits % 2 == 0 then h.node(root, sibs[i]) else h.node(sibs[i], root);
      bits := bits / 2;
    }
    assert sibs[..|sibs|] == sibs;
  }

  /** Folding a new value up the old path gives the root after the write: an update needs no more of the tree. */
  lemma {:induction false} FoldIsWrite(h: Hash, values: Values, after: Values, key: nat, levels: nat)
    requires forall k :: k != key ==> Get(after, k) == Get(values, k)
    ensures Fold(h, Get(after, key), key, PathOf(h, values, key, levels)) == Plain(h, after, levels, Up(key, levels))
  {
    if levels > 0 {
      hide Plain, Up, Sibling, Get;
      var sibs, i := PathOf(h, values, key, levels), levels - 1;
      assert sibs[..i] == PathOf(h, values, key, i);
      FoldIsWrite(h, values, after, key, i);
      SiblingApart(Up(key, i));
      Elsewhere(h, values, after, key, i, Sibling(Up(key, i)));
      Halves(h, after, i, Up(key, i));
      UpStep(key, i);
    }
  }

  lemma SiblingApart(i: nat)
    ensures Sibling(i) != i
  {
  }

  lemma UpStep(key: nat, level: nat)
    ensures Up(key, level + 1) == Up(key, level) / 2
  {
  }

  /** A parent, seen from either child. */
  lemma Halves(h: Hash, values: Values, level: nat, i: nat)
    ensures Plain(h, values, level + 1, i / 2) ==
            var here, other := Plain(h, values, level, i), Plain(h, values, level, Sibling(i));
            if i % 2 == 0 then h.node(here, other) else h.node(other, here)
  {
  }

  /** The ideal hash: no collisions between leaves, nor between nodes. */
  ghost predicate Injective(h: Hash) {
    && (forall a, b :: h.leaf(a) == h.leaf(b) ==> a == b)
    && (forall a, b, c, d :: h.node(a, b) == h.node(c, d) ==> a == c && b == d)
  }

  lemma NodesEqual(h: Hash, a: Digest, b: Digest, c: Digest, d: Digest)
    requires Injective(h) && h.node(a, b) == h.node(c, d)
    ensures a == c && b == d
  {
  }

  /** A fold that reaches the root is the tree's own path, from the tree's own value. */
  lemma {:induction false} FoldBinds(h: Hash, values: Values, v: Elem, key: nat, sibs: seq<Digest>)
    requires Injective(h)
    requires Fold(h, v, key, sibs) == Plain(h, values, |sibs|, Up(key, |sibs|))
    ensures v == Get(values, key) && sibs == PathOf(h, values, key, |sibs|)
    decreases |sibs|
  {
    hide Plain, Up, Sibling, Get, Injective, Fold, PathOf;
    if sibs == [] {
      LeafBinds(h, values, v, key);
    } else {
      var i, init := |sibs| - 1, sibs[..|sibs| - 1];
      var half := Up(key, i);
      var below, here, other := Fold(h, v, key, init), Plain(h, values, i, half), Plain(h, values, i, Sibling(half));
      FoldLast(h, v, key, sibs);
      Halves(h, values, i, half);
      UpStep(key, i);
      if half % 2 == 0 {
        NodesEqual(h, below, sibs[i], here, other);
      } else {
        NodesEqual(h, sibs[i], below, other, here);
      }
      FoldBinds(h, values, v, key, init);
      PathLast(h, values, key, i);
      assert sibs == init + [sibs[i]];
    }
  }

  lemma LeafBinds(h: Hash, values: Values, v: Elem, key: nat)
    requires Injective(h) && Fold(h, v, key, []) == Plain(h, values, 0, Up(key, 0))
    ensures v == Get(values, key) && PathOf(h, values, key, 0) == []
  {
  }

  lemma FoldLast(h: Hash, v: Elem, key: nat, sibs: seq<Digest>)
    requires sibs != []
    ensures var i := |sibs| - 1;
            var below := Fold(h, v, key, sibs[..i]);
            Fold(h, v, key, sibs) == if Up(key, i) % 2 == 0 then h.node(below, sibs[i]) else h.node(sibs[i], below)
  {
  }

  lemma PathLast(h: Hash, values: Values, key: nat, levels: nat)
    ensures PathOf(h, values, key, levels + 1) ==
            PathOf(h, values, key, levels) + [Plain(h, values, levels, Sibling(Up(key, levels)))]
  {
  }

  /** Equal roots mean equal values at every position. */
  lemma {:induction false} RootBinds(h: Hash, x: Values, y: Values, level: nat, index: nat, k: nat)
    requires Injective(h) && Plain(h, x, level, index) == Plain(h, y, level, index)
    requires Up(k, level) == index
    ensures Get(x, k) == Get(y, k)
    decreases level
  {
    if level > 0 {
      hide Plain, Up, Sibling, Get, Injective;
      var i := level - 1;
      var half := Up(k, i);
      UpStep(k, i);
      Halves(h, x, i, half);
      Halves(h, y, i, half);
      var a, b := Plain(h, x, i, half), Plain(h, x, i, Sibling(half));
      var c, d := Plain(h, y, i, half), Plain(h, y, i, Sibling(half));
      if half % 2 == 0 { NodesEqual(h, a, b, c, d); } else { NodesEqual(h, b, a, d, c); }
      RootBinds(h, x, y, i, half, k);
    }
  }

  // ---- stateless transitions -----------------------------------------------------------------------

  datatype StorageOp =
    | Read(key: nat, val: Elem, siblings: seq<Digest>)
    | Write(key: nat, old_: Elem, new_: Elem, siblings: seq<Digest>)

  function Written(values: Values, key: nat, v: Elem): Values {
    if v == 0 then values - {key} else values[key := v]
  }

  /** verify_transition on values: each read must be right, each write must state the old value. */
  ghost predicate Honest(values: Values, op: StorageOp) {
    Get(values, op.key) == if op.Read? then op.val else op.old_
  }

  function Done(values: Values, op: StorageOp): Values {
    if op.Read? then values else Written(values, op.key, op.new_)
  }

  /** One step of verify_transition on a bare root; None is a rejection. */
  function Advance(h: Hash, root: Digest, op: StorageOp): Digest {
    if op.Read? then root else Fold(h, op.new_, op.key, op.siblings)
  }

  predicate Authentic(h: Hash, root: Digest, op: StorageOp) {
    Fold(h, if op.Read? then op.val else op.old_, op.key, op.siblings) == root
  }

  ghost predicate InTree(depth: nat, op: StorageOp) {
    op.key < Pow2(depth) && |op.siblings| == depth
  }

  /** A step the bare root accepts is a true statement about the values, and its new root is theirs. */
  lemma {:induction false} StepSound(h: Hash, values: Values, depth: nat, op: StorageOp)
    requires Injective(h) && InTree(depth, op) && Authentic(h, Root(h, values, depth), op)
    ensures Honest(values, op)
    ensures Advance(h, Root(h, values, depth), op) == Root(h, Done(values, op), depth)
  {
    UpRange(op.key, depth, 0);
    FoldBinds(h, values, if op.Read? then op.val else op.old_, op.key, op.siblings);
    if op.Write? { FoldIsWrite(h, values, Done(values, op), op.key, depth); }
  }

  function Final(values: Values, ops: seq<StorageOp>): Values
    decreases |ops|
  {
    if ops == [] then values else Final(Done(values, ops[0]), ops[1..])
  }

  function FinalRoot(h: Hash, root: Digest, ops: seq<StorageOp>): (r: (bool, Digest))
    decreases |ops|
  {
    if ops == [] then (true, root)
    else if !Authentic(h, root, ops[0]) then (false, root)
    else FinalRoot(h, Advance(h, root, ops[0]), ops[1..])
  }

  ghost predicate AllHonest(values: Values, ops: seq<StorageOp>)
    decreases |ops|
  {
    ops == [] || (Honest(values, ops[0]) && AllHonest(Done(values, ops[0]), ops[1..]))
  }

  method VerifyTransition(h: Hash, pre: Digest, ops: seq<StorageOp>) returns (ok: bool, post: Digest)
    ensures ok == FinalRoot(h, pre, ops).0
    ensures ok ==> post == FinalRoot(h, pre, ops).1
  {
    post := pre;
    for i := 0 to |ops|
      invariant FinalRoot(h, post, ops[i..]) == FinalRoot(h, pre, ops)
    {
      assert ops[i..][1..] == ops[i + 1..];
      var op := ops[i];
      var at := FoldUp(h, if op.Read? then op.val else op.old_, op.key, op.siblings);
      if at != post {
        return false, post;
      }
      if op.Write? {
        post := FoldUp(h, op.new_, op.key, op.siblings);
      }
    }
    ok := true;
  }

  /** Verifying a transition without the state is running it: whatever list of operations is accepted from the root of
    * some values, every read and old value in it was right, and it ends at the root of the values written. */
  lemma {:induction false} TransitionSound(h: Hash, values: Values, depth: nat, ops: seq<StorageOp>)
    requires Injective(h) && forall i :: 0 <= i < |ops| ==> InTree(depth, ops[i])
    requires FinalRoot(h, Root(h, values, depth), ops).0
    ensures AllHonest(values, ops)
    ensures FinalRoot(h, Root(h, values, depth), ops).1 == Root(h, Final(values, ops), depth)
    decreases |ops|
  {
    if ops != [] {
      StepSound(h, values, depth, ops[0]);
      TransitionSound(h, Done(values, ops[0]), depth, ops[1..]);
    }
  }
}
