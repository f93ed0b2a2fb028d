/** Totals over finite maps, for the ledgers. */
module Sums {
  function Get<K>(m: map<K, int>, k: K): int {
    if k in m then m[k] else 0
  }

  ghost function Total<K(!new)>(m: map<K, int>): int {
    if m == map[] then 0 else
      var k :| k in m;
      m[k] + Total(m - {k})
  }

  /** Whichever key is taken out first. */
  lemma {:induction false} TotalRemove<K(!new)>(m: map<K, int>, k: K)
    requires k in m
    ensures Total(m) == m[k] + Total(m - {k})
    decreases |m|
  {
    var first :| first in m && Total(m) == m[first] + Total(m - {first});
    if first != k {
      TotalRemove(m - {first}, k);
      TotalRemove(m - {k}, first);
      assert m - {first} - {k} == m - {k} - {first};
    }
  }

  /** A row set to v, absent when v is 0: how every ledger here writes a balance. */
  function Put<K(!new)>(m: map<K, int>, k: K, v: int): (r: map<K, int>)
    ensures forall x :: Get(r, x) == if x == k then v else Get(m, x)
  {
    if v == 0 then m - {k} else m[k := v]
  }

  lemma TotalPut<K(!new)>(m: map<K, int>, k: K, v: int)
    ensures Total(Put(m, k, v)) == Total(m) - Get(m, k) + v
  {
    if k in m { TotalRemove(m, k); }
    if v == 0 {
      if k !in m { assert m - {k} == m; }
    } else {
      TotalRemove(m[k := v], k);
      assert m[k := v] - {k} == m - {k};
      if k !in m { assert m - {k} == m; }
    }
  }

  ghost predicate Positive<K(!new)>(m: map<K, int>) {
    forall k :: k in m ==> m[k] > 0
  }

  lemma {:induction false} TotalCovers<K(!new)>(m: map<K, int>, k: K)
    requires Positive(m)
    ensures 0 <= Get(m, k) <= Total(m)
    decreases |m|
  {
    if m != map[] {
      var x :| x in m;
      TotalRemove(m, x);
      TotalCovers(m - {x}, k);
    }
  }
}
