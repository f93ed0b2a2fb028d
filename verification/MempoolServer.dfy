/** The same fields and methods of memserver.py run one call at a time: the caches then always tell the truth. */
module MempoolServer {
  import opened Options
  import opened Mempool

  class Server {
    var pool: seq<Tx>
    var poolGen: nat
    var txidSetCache: Option<Cached>
    var poolHashCache: Option<Hashed>
    const digest: seq<Tx> -> Digest

    ghost predicate Valid()
      reads this
    {
      && Distinct(pool)
      && (txidSetCache.Some? ==>
            && txidSetCache.value.gen <= poolGen
            && (txidSetCache.value.gen == poolGen ==> txidSetCache.value.ids == Ids(pool)))
      && (poolHashCache.Some? ==>
            && poolHashCache.value.gen <= poolGen
            && (poolHashCache.value.gen == poolGen ==> poolHashCache.value.hash == digest(pool)))
    }

    constructor (digest: seq<Tx> -> Digest)
      ensures Valid() && pool == [] && this.digest == digest
    {
      this.digest := digest;
      pool, poolGen, txidSetCache, poolHashCache := [], 0, None, None;
    }

    /** The property setter: new content, then a new generation. */
    method SetPool(value: seq<Tx>)
      requires Valid() && Distinct(value)
      modifies this`pool, this`poolGen
      ensures Valid() && pool == value && poolGen == old(poolGen) + 1
    {
      pool := value;
      poolGen := poolGen + 1;
    }

    method PoolTxidSet() returns (ids: set<Txid>)
      requires Valid()
      modifies this`txidSetCache
      ensures Valid() && ids == Ids(pool)
    {
      var c := txidSetCache;
      if c.None? || c.value.gen != poolGen {
        c := Some(Cached(poolGen, set x | x in pool :: x.id));
        txidSetCache := c;
      }
      ids := c.value.ids;
    }

    /** get_transaction_pool_hash: nothing for an empty pool. */
    method PoolHash() returns (hash: Option<Digest>)
      requires Valid()
      modifies this`poolHashCache
      ensures Valid() && hash == if pool == [] then None else Some(digest(pool))
    {
      var list := pool;
      if list == [] {
        return None;
      }
      var cached, gen := poolHashCache, poolGen;
      if cached.Some? && cached.value.gen == gen {
        return Some(cached.value.hash);
      }
      var made := digest(list);
      poolHashCache := Some(Hashed(gen, made));
      hash := Some(made);
    }

    /** The locked tail of merge_transaction. */
    method Add(tx: Tx)
      requires Valid()
      modifies this
      ensures Valid() && pool == Applied(old(pool), Merge(tx))
      ensures pool == old(pool) + if exists x :: x in old(pool) && x.id == tx.id then [] else [tx]
    {
      var ids := PoolTxidSet();
      if tx.id !in ids {
        forall i | 0 <= i < |pool| ensures pool[i].id != tx.id { assert pool[i] in pool; }
        pool := pool + [tx];
        poolGen := poolGen + 1;
      }
    }

    /** purge_txs_of_sender, the culls and the evictions: rebuild the list from what is kept. */
    method Rebuild(keep: Tx -> bool)
      requires Valid()
      modifies this`pool, this`poolGen
      ensures Valid()
      ensures exists mask :: |mask| == |old(pool)| && pool == Masked(old(pool), mask) &&
                             forall i :: 0 <= i < |mask| ==> mask[i] == keep(old(pool)[i])
    {
      var list := pool;
      var kept: seq<Tx>, mask: seq<bool> := [], [];
      for i := 0 to |list|
        modifies {}
        invariant |mask| == i && forall k :: 0 <= k < i ==> mask[k] == keep(list[k])
        invariant kept == Masked(list[..i], mask)
      {
        MaskedPush(list[..i], mask, list[i], keep(list[i]));
        assert list[..i] + [list[i]] == list[..i + 1];
        mask := mask + [keep(list[i])];
        if keep(list[i]) {
          kept := kept + [list[i]];
        }
      }
      assert list[..|list|] == list;
      MaskedDistinct(list, mask);
      SetPool(kept);
    }
  }

  lemma {:induction false} MaskedPush(list: seq<Tx>, mask: seq<bool>, tx: Tx, keep: bool)
    requires |list| == |mask|
    ensures Masked(list + [tx], mask + [keep]) == Masked(list, mask) + if keep then [tx] else []
    decreases |list|
  {
    if list == [] {
      assert list + [tx] == [tx] && mask + [keep] == [keep];
      assert [tx][1..] == [] && [keep][1..] == [];
    } else {
      MaskedPush(list[1..], mask[1..], tx, keep);
      assert (list + [tx])[1..] == list[1..] + [tx] && (mask + [keep])[1..] == mask[1..] + [keep];
    }
  }
}
