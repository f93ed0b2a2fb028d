/** The root a settlement commits (settlement_proofs.zkvm_leaves, zkvm_root): the sorted Merkle root over one canonical
  * leaf for every storage slot of every zkVM contract. */
module SettleRoot {
  import opened Field
  import opened SettleLog
  import opened SettleCall
  import M = SortedMerkle

  datatype Kv = Kv(cid: Addr, slot: Elem, value: Elem)

  /** The Merkle hash, and the canonical JSON bytes of ["kv", cid, "slots", slot, value]. */
  datatype Scheme = Scheme(mh: M.Hash, encode: Kv -> M.Bytes)

  predicate Holds(contracts: Contracts, kv: Kv) {
    && kv.cid in contracts && contracts[kv.cid].zk
    && kv.slot in contracts[kv.cid].slots && contracts[kv.cid].slots[kv.slot] == kv.value
  }

  function SlotsOf(contracts: Contracts, cid: Addr): (r: set<Kv>)
    requires cid in contracts
    ensures forall kv :: kv in r <==> Holds(contracts, kv) && kv.cid == cid
  {
    var slots := contracts[cid].slots;
    var r := if contracts[cid].zk then set slot | slot in slots :: Kv(cid, slot, slots[slot]) else {};
    assert forall kv :: Holds(contracts, kv) && kv.cid == cid ==> kv == Kv(cid, kv.slot, slots[kv.slot]);
    r
  }

  function Kvs(contracts: Contracts): (r: set<Kv>)
    ensures forall kv :: kv in r <==> Holds(contracts, kv)
  {
    var r := set cid, kv | cid in contracts && kv in SlotsOf(contracts, cid) :: kv;
    assert forall kv :: Holds(contracts, kv) ==> kv in SlotsOf(contracts, kv.cid);
    r
  }

  // ---- leaves in some order ------------------------------------------------------------------------

  ghost function Bag(sch: Scheme, kvs: set<Kv>): multiset<M.Bytes> {
    if kvs == {} then multiset{} else
      var kv :| kv in kvs;
      multiset{sch.encode(kv)} + Bag(sch, kvs - {kv})
  }

  lemma {:induction false} BagRemove(sch: Scheme, kvs: set<Kv>, kv: Kv)
    requires kv in kvs
    ensures Bag(sch, kvs) == multiset{sch.encode(kv)} + Bag(sch, kvs - {kv})
    decreases |kvs|
  {
    var first :| first in kvs && Bag(sch, kvs) == multiset{sch.encode(first)} + Bag(sch, kvs - {first});
    if first != kv {
      BagRemove(sch, kvs - {first}, kv);
      BagRemove(sch, kvs - {kv}, first);
      assert kvs - {first} - {kv} == kvs - {kv} - {first};
    }
  }

  ghost function Listing(bag: multiset<M.Bytes>): (leaves: seq<M.Bytes>)
    ensures multiset(leaves) == bag
    decreases |bag|
  {
    if bag == multiset{} then [] else
      var x :| x in bag;
      var rest := Listing(bag - multiset{x});
      assert multiset([x] + rest) == multiset{x} + multiset(rest) == bag;
      [x] + rest
  }

  ghost function RootOf(sch: Scheme, contracts: Contracts): M.Bytes {
    M.Root(sch.mh, Listing(Bag(sch, Kvs(contracts))))
  }

  lemma BagOfNothing(sch: Scheme)
    ensures Bag(sch, {}) == multiset{}
  {
  }

  /** zkvm_root. The loop may visit the slots in any order. */
  method ZkvmRoot(sch: Scheme, contracts: Contracts) returns (root: M.Bytes)
    ensures root == RootOf(sch, contracts)
  {
    hide M.Root, Bag, Kvs;
    var leaves: seq<M.Bytes> := [];
    var todo := Kvs(contracts);
    ghost var done: multiset<M.Bytes> := multiset{};
    while todo != {}
      invariant multiset(leaves) == done
      invariant done + Bag(sch, todo) == Bag(sch, Kvs(contracts))
      decreases |todo|
    {
      var kv :| kv in todo;
      BagRemove(sch, todo, kv);
      leaves := leaves + [sch.encode(kv)];
      done := done + multiset{sch.encode(kv)};
      todo := todo - {kv};
    }
    assert Bag(sch, {}) == multiset{} by { BagOfNothing(sch); }
    M.RootIgnoresOrder(sch.mh, leaves, Listing(Bag(sch, Kvs(contracts))));
    root := M.MerkleRoot(sch.mh, leaves);
  }

  lemma {:induction false} BagHas(sch: Scheme, kvs: set<Kv>, kv: Kv)
    requires kv in kvs
    ensures sch.encode(kv) in Bag(sch, kvs)
  {
    BagRemove(sch, kvs, kv);
  }

  lemma {:induction false} BagOrigin(sch: Scheme, kvs: set<Kv>, leaf: M.Bytes) returns (kv: Kv)
    requires leaf in Bag(sch, kvs)
    ensures kv in kvs && sch.encode(kv) == leaf
    decreases |kvs|
  {
    var x :| x in kvs && Bag(sch, kvs) == multiset{sch.encode(x)} + Bag(sch, kvs - {x});
    if leaf == sch.encode(x) {
      kv := x;
    } else {
      kv := BagOrigin(sch, kvs - {x}, leaf);
    }
  }

  ghost function Leaves(sch: Scheme, contracts: Contracts): seq<M.Bytes> {
    Listing(Bag(sch, Kvs(contracts)))
  }

  /** The inputs hashed for two roots do not collide, and no leaf is a node input or the empty-tree tag. */
  ghost predicate Apart(sch: Scheme, x: Contracts, y: Contracts) {
    var a, b := Leaves(sch, x), Leaves(sch, y);
    var nodes := M.TreeNodes(sch.mh, a) + M.TreeNodes(sch.mh, b) + {M.EMPTY_TAG};
    && M.Digests(sch.mh)
    && M.CollisionFree(sch.mh, M.LeafInputs(a) + M.LeafInputs(b)
                               + M.TreeNodes(sch.mh, a) + M.TreeNodes(sch.mh, b) + {M.EMPTY_TAG})
    && M.LeafInputs(a) + M.LeafInputs(b) !! nodes
    && forall p, q :: p in Kvs(x) + Kvs(y) && q in Kvs(x) + Kvs(y) && sch.encode(p) == sch.encode(q) ==> p == q
  }

  /** A settled root binds the storage of every zkVM contract. */
  lemma {:induction false} RootBindsStorage(sch: Scheme, x: Contracts, y: Contracts)
    requires Apart(sch, x, y)
    requires RootOf(sch, x) == RootOf(sch, y)
    ensures Kvs(x) == Kvs(y)
  {
    hide M.Root, M.TreeNodes, M.LeafInputs, M.CollisionFree, Kvs, Bag;
    M.RootsBind(sch.mh, Leaves(sch, x), Leaves(sch, y));
    LeavesInclude(sch, x, y);
    LeavesInclude(sch, y, x);
  }

  lemma {:induction false} LeavesInclude(sch: Scheme, x: Contracts, y: Contracts)
    requires M.LeafInputs(Leaves(sch, x)) <= M.LeafInputs(Leaves(sch, y))
    requires forall p, q :: p in Kvs(x) + Kvs(y) && q in Kvs(x) + Kvs(y) && sch.encode(p) == sch.encode(q) ==> p == q
    ensures Kvs(x) <= Kvs(y)
  {
    forall kv | kv in Kvs(x) ensures kv in Kvs(y) {
      BagHas(sch, Kvs(x), kv);
      var leaf := sch.encode(kv);
      assert leaf in multiset(Leaves(sch, x));
      assert leaf in M.LeafInputs(Leaves(sch, x));
      assert leaf in M.LeafInputs(Leaves(sch, y));
      assert leaf in multiset(Leaves(sch, y));
      var q := BagOrigin(sch, Kvs(y), leaf);
      assert kv in Kvs(x) + Kvs(y) && q in Kvs(x) + Kvs(y);
    }
  }
}
