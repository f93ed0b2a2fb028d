/** The store itself: sorted keys, memoized nodes, and the cache of singleton folds that outlives a store. */
module SparseStore {
  import opened Options
  import opened Field
  import opened Numbers
  import opened SparseTree

  datatype ChainKey = ChainKey(depth: nat, key: nat, value: Elem)
  datatype ChainTop = ChainTop(level: nat, node: Digest)

  const FOLD_CACHE_MAX: nat := 131072

  /** _FOLD_CACHE: the highest level reached for each leaf. */
  class FoldCache {
    const h: Hash
    var entries: map<ChainKey, ChainTop>

    constructor (h: Hash)
      ensures this.h == h && Sound()
    {
      this.h := h;
      entries := map[];
    }

    ghost predicate Sound()
      reads this
    {
      forall ck :: ck in entries ==> entries[ck].node == Chain(h, ck.key, ck.value, entries[ck].level)
    }
  }

  /** bisect.bisect_left */
  method BisectLeft(keys: seq<nat>, x: nat) returns (at: nat)
    requires Increasing(keys)
    ensures at <= |keys|
    ensures forall j :: 0 <= j < at ==> keys[j] < x
    ensures forall j :: at <= j < |keys| ==> keys[j] >= x
  {
    var lo, hi := 0, |keys|;
    while lo < hi
      invariant 0 <= lo <= hi <= |keys|
      invariant forall j :: 0 <= j < lo ==> keys[j] < x
      invariant forall j :: hi <= j < |keys| ==> keys[j] >= x
    {
      var mid := (lo + hi) / 2;
      if keys[mid] < x {
        lo := mid + 1;
      } else {
        hi := mid;
      }
    }
    at := lo;
  }

  ghost predicate KeysOf(keys: seq<nat>, values: Values) {
    Increasing(keys) && forall k :: k in keys <==> k in values
  }

  function Loaded(items: seq<(int, int)>, depth: nat): Values {
    if items == [] then map[]
    else
      var before, last := Loaded(items[..|items| - 1], depth), items[|items| - 1];
      if last.1 % P == 0 then before else before[last.0 % Pow2(depth) := last.1 % P]
  }

  datatype Place = Place(level: nat, index: nat)

  ghost predicate Remembers(h: Hash, values: Values, depth: nat, memo: map<Place, Digest>) {
    forall p :: p in memo ==> 1 <= p.level <= depth && memo[p] == Plain(h, values, p.level, p.index)
  }

  class Store {
    const h: Hash
    const depth: nat
    const cache: FoldCache
    var values: Values
    var keys: seq<nat>
    var memo: map<Place, Digest>

    ghost predicate Valid()
      reads this, cache
    {
      && cache.h == h && cache.Sound()
      && KeysOf(keys, values)
      && (forall k :: k in values ==> values[k] != 0 && k < Pow2(depth))
      && Remembers(h, values, depth, memo)
    }

    /** From a dictionary's items: masked positions, reduced values, zeros left out. */
    constructor (depth: nat, items: seq<(int, int)>, cache: FoldCache)
      requires cache.Sound()
      ensures Valid() && this.depth == depth && this.cache == cache && h == cache.h
      ensures values == Loaded(items, depth)
    {
      this.h, this.depth, this.cache := cache.h, depth, cache;
      this.values, this.keys, this.memo := map[], [], map[];
      new;
      for i := 0 to |items|
        invariant Valid() && memo == map[]
        invariant values == Loaded(items[..i], depth)
      {
        assert items[..i + 1][..i] == items[..i];
        var k, v := items[i].0 % Pow2(depth), items[i].1 % P;
        if v != 0 {
          if k !in values {
            var at := BisectLeft(keys, k);
            InsertKey(keys, values, at, k, v);
            keys := keys[..at] + [k] + keys[at..];
          }
          values := values[k := v];
        }
      }
      assert items[..|items|] == items;
    }

    method SingletonFold(key: nat, level: nat) returns (node: Digest)
      requires Valid() && key in values
      modifies cache
      ensures Valid() && node == Chain(h, key, values[key], level)
    {
      hide Plain, Pow2, Increasing;
      var value := values[key];
      var ck := ChainKey(depth, key, value);
      var hit := if ck in cache.entries then Some(cache.entries[ck]) else None;
      if hit.Some? && hit.value.level == level {
        return hit.value.node;
      }
      var start := 0;
      node := h.leaf(value);
      if hit.Some? && hit.value.level < level {
        node, start := hit.value.node, hit.value.level;
      }
      for i := start to level
        invariant node == Chain(h, key, value, i)
      {
        node := if Up(key, i) % 2 == 1 then h.node(Empty(h, i), node) else h.node(node, Empty(h, i));
      }
      if hit.None? || hit.value.level < level {
        var kept := if |cache.entries| >= FOLD_CACHE_MAX then map[] else cache.entries;
        cache.entries := kept[ck := ChainTop(level, node)];
      }
    }

    /** _node: empty, one leaf, remembered, or both halves. */
    method Node(level: nat, index: nat) returns (node: Digest)
      requires Valid() && level <= depth
      modifies this`memo, cache
      ensures Valid() && node == Plain(h, values, level, index)
      decreases level
    {
      hide Plain, Chain, Empty, Up, Pow2, Increasing;
      PlainStep(h, values, level, index);
      if level == 0 {
        var v := Get(values, index);
        return if v != 0 then h.leaf(v) else h.leaf(0);
      }
      if Place(level, index) in memo {
        return memo[Place(level, index)];
      }
      var lo := index * Pow2(level);
      var first := BisectLeft(keys, lo);
      var last := BisectLeft(keys, lo + Pow2(level));
      BisectOrder(keys, lo, lo + Pow2(level), first, last);
      if last - first == 0 {
        NoneBetween(values, keys, level, index, first, last);
        VacantIsEmpty(h, values, level, index);
        return Empty(h, level);
      }
      if last - first == 1 {
        var k := keys[first];
        OneBetween(values, keys, level, index, first, last);
        SoleIsChain(h, values, level, index, k);
        node := SingletonFold(k, level);
      } else {
        var left := Node(level - 1, index * 2);
        var right := Node(level - 1, index * 2 + 1);
        node := h.node(left, right);
      }
      memo := memo[Place(level, index) := node];
    }

    method RootDigest() returns (root: Digest)
      requires Valid()
      modifies this`memo, cache
      ensures Valid() && root == Root(h, values, depth)
    {
      root := Node(depth, 0);
    }

    method Path(key: int) returns (sibs: seq<Digest>)
      requires Valid()
      modifies this`memo, cache
      ensures Valid() && sibs == PathOf(h, values, key % Pow2(depth), depth)
    {
      var at := key % Pow2(depth);
      var index := at;
      sibs := [];
      for level := 0 to depth
        invariant Valid() && index == Up(at, level) && sibs == PathOf(h, values, at, level)
      {
        var sib := Node(level, Sibling(index));
        sibs := sibs + [sib];
        index := index / 2;
      }
    }

    function Read(key: int): Elem
      reads this
    {
      Get(values, key % Pow2(depth))
    }

    /** Writes (a zero deletes) and forgets exactly the written position's ancestors. */
    method Set(key: int, value: int)
      requires Valid()
      modifies this
      ensures Valid() && values == Written(old(values), key % Pow2(depth), value % P)
    {
      var k, v := key % Pow2(depth), value % P;
      var present := k in values;
      if v == 0 && !present {
        assert values == Written(values, k, 0);
        return;
      }
      var at := BisectLeft(keys, k);
      if v != 0 {
        if !present {
          InsertKey(keys, values, at, k, v);
          keys := keys[..at] + [k] + keys[at..];
        }
        values := values[k := v];
      } else {
        RemoveKey(keys, values, at, k);
        values := values - {k};
        keys := keys[..at] + keys[at + 1..];
      }
      Forget(k);
      WriteKeeps(h, old(values), values, depth, k, old(memo), memo);
    }

    /** Drops the ancestors of a position from the memo. */
    method Forget(k: nat)
      modifies this`memo
      ensures Forgotten(old(memo), memo, k, depth)
    {
      var idx := k;
      for level := 1 to depth + 1
        invariant idx == Up(k, level - 1)
        invariant Forgotten(old(memo), memo, k, level - 1)
      {
        idx := idx / 2;
        memo := memo - {Place(level, idx)};
      }
    }
  }

  ghost predicate Forgotten(before: map<Place, Digest>, after: map<Place, Digest>, k: nat, levels: nat) {
    && (forall p :: p in after <==> p in before && !(1 <= p.level <= levels && p.index == Up(k, p.level)))
    && (forall p :: p in after ==> after[p] == before[p])
  }

  lemma WriteKeeps(h: Hash, x: Values, y: Values, depth: nat, k: nat, before: map<Place, Digest>,
                   after: map<Place, Digest>)
    requires Remembers(h, x, depth, before) && Forgotten(before, after, k, depth)
    requires forall j :: j != k ==> Get(x, j) == Get(y, j)
    ensures Remembers(h, y, depth, after)
  {
    hide Plain, Up;
    forall p | p in after ensures 1 <= p.level <= depth && after[p] == Plain(h, y, p.level, p.index) {
      Elsewhere(h, x, y, k, p.level, p.index);
    }
  }

  lemma BisectOrder(keys: seq<nat>, lo: nat, hi: nat, first: nat, last: nat)
    requires lo <= hi && first <= |keys| && last <= |keys|
    requires forall j :: 0 <= j < first ==> keys[j] < lo
    requires forall j :: last <= j < |keys| ==> keys[j] >= hi
    ensures first <= last
  {
    assert last < |keys| ==> keys[last] >= hi;
  }

  lemma PlainStep(h: Hash, values: Values, level: nat, index: nat)
    ensures level == 0 ==> Plain(h, values, level, index) == h.leaf(Get(values, index))
    ensures level > 0 ==>
              Plain(h, values, level, index) ==
              h.node(Plain(h, values, level - 1, index * 2), Plain(h, values, level - 1, index * 2 + 1))
  {
  }

  lemma InRange(values: Values, keys: seq<nat>, level: nat, index: nat, first: nat, last: nat, k: nat)
    requires KeysOf(keys, values)
    requires first <= last <= |keys|
    requires forall j :: 0 <= j < first ==> keys[j] < index * Pow2(level)
    requires forall j :: first <= j < |keys| ==> keys[j] >= index * Pow2(level)
    requires forall j :: 0 <= j < last ==> keys[j] < index * Pow2(level) + Pow2(level)
    requires forall j :: last <= j < |keys| ==> keys[j] >= index * Pow2(level) + Pow2(level)
    ensures k in values && Up(k, level) == index <==> exists j :: first <= j < last && keys[j] == k
  {
    hide Up;
    UpRange(k, level, index);
    assert (index + 1) * Pow2(level) == index * Pow2(level) + Pow2(level);
    if k in values && Up(k, level) == index {
      var j :| 0 <= j < |keys| && keys[j] == k;
      assert first <= j < last;
    }
  }

  lemma NoneBetween(values: Values, keys: seq<nat>, level: nat, index: nat, first: nat, last: nat)
    requires KeysOf(keys, values)
    requires first == last <= |keys|
    requires forall j :: 0 <= j < first ==> keys[j] < index * Pow2(level)
    requires forall j :: first <= j < |keys| ==> keys[j] >= index * Pow2(level)
    requires forall j :: 0 <= j < last ==> keys[j] < index * Pow2(level) + Pow2(level)
    requires forall j :: last <= j < |keys| ==> keys[j] >= index * Pow2(level) + Pow2(level)
    ensures Vacant(values, level, index)
  {
    hide Up, Pow2;
    forall k | k in values ensures Up(k, level) != index {
      InRange(values, keys, level, index, first, last, k);
    }
  }

  lemma OneBetween(values: Values, keys: seq<nat>, level: nat, index: nat, first: nat, last: nat)
    requires KeysOf(keys, values)
    requires first + 1 == last <= |keys|
    requires forall j :: 0 <= j < first ==> keys[j] < index * Pow2(level)
    requires forall j :: first <= j < |keys| ==> keys[j] >= index * Pow2(level)
    requires forall j :: 0 <= j < last ==> keys[j] < index * Pow2(level) + Pow2(level)
    requires forall j :: last <= j < |keys| ==> keys[j] >= index * Pow2(level) + Pow2(level)
    ensures Sole(values, level, index, keys[first])
  {
    hide Up, Pow2;
    InRange(values, keys, level, index, first, last, keys[first]);
    forall j: nat | Under(values, level, index, j) ensures j == keys[first] {
      InRange(values, keys, level, index, first, last, j);
    }
  }

  lemma InsertKey(keys: seq<nat>, values: Values, at: nat, k: nat, v: Elem)
    requires KeysOf(keys, values) && k !in values && at <= |keys|
    requires forall j :: 0 <= j < at ==> keys[j] < k
    requires forall j :: at <= j < |keys| ==> keys[j] >= k
    ensures KeysOf(keys[..at] + [k] + keys[at..], values[k := v])
  {
    var next := keys[..at] + [k] + keys[at..];
    assert k !in keys;
    forall x ensures x in next <==> x in values[k := v] {
      assert x in keys <==> x in keys[..at] || x in keys[at..];
    }
  }

  lemma RemoveKey(keys: seq<nat>, values: Values, at: nat, k: nat)
    requires KeysOf(keys, values) && k in values && at <= |keys|
    requires forall j :: 0 <= j < at ==> keys[j] < k
    requires forall j :: at <= j < |keys| ==> keys[j] >= k
    ensures at < |keys| && keys[at] == k
    ensures KeysOf(keys[..at] + keys[at + 1..], values - {k})
  {
    hide Pow2;
    var i :| 0 <= i < |keys| && keys[i] == k;
    assert at <= i && k <= keys[at];
    assert keys[at] <= keys[i];
    RemovedKeys(keys, at);
  }

  lemma RemovedKeys(keys: seq<nat>, at: nat)
    requires Increasing(keys) && at < |keys|
    ensures Increasing(keys[..at] + keys[at + 1..])
    ensures forall x :: x in keys[..at] + keys[at + 1..] <==> x in keys && x != keys[at]
  {
    var next := keys[..at] + keys[at + 1..];
    forall x | x in keys && x != keys[at] ensures x in next {
      var j :| 0 <= j < |keys| && keys[j] == x;
      assert next[if j < at then j else j - 1] == x;
    }
  }
}
