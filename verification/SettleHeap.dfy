/** The objects behind the prover's contracts. A bundle keeps a reference to each contract's storage dictionary; the
  * calls proved after it rebind `storage` on the same live contract objects. */
module SettleHeap {
  import opened Options
  import opened Field
  import opened ZkVM
  import opened SettleLog
  import opened SettleCall
  import opened SettleSpan
  import SettleAgree

  /** A storage dictionary. */
  class Slots {
    var slots: map<Elem, Elem>

    constructor (slots: map<Elem, Elem>)
      ensures this.slots == slots
    {
      this.slots := slots;
    }
  }

  /** A contract dictionary, its "storage" entry a reference. */
  class Live {
    const code: Code
    const zk: bool
    var storage: Slots

    constructor (code: Code, zk: bool, storage: Slots)
      ensures this.code == code && this.zk == zk && this.storage == storage
    {
      this.code, this.zk, this.storage := code, zk, storage;
    }
  }

  type Heap = map<Addr, Live>

  ghost predicate Apart(live: Heap) {
    forall x, y :: x in live && y in live && live[x] == live[y] ==> x == y
  }

  ghost function View(live: Heap): Contracts
    reads live.Values, set c | c in live.Values :: c.storage
  {
    map cid | cid in live :: Contract(live[cid].code, live[cid].zk, live[cid].storage.slots)
  }

  /** An entry of a bundle's pre_contracts. */
  datatype Recorded = Recorded(code: Code, storage: Slots)

  method Record(live: Heap) returns (rec: map<Addr, Recorded>)
    ensures rec.Keys == set cid | cid in live && live[cid].zk
    ensures forall cid :: cid in rec ==> rec[cid] == Recorded(live[cid].code, live[cid].storage)
  {
    rec := map cid | cid in live && live[cid].zk :: Recorded(live[cid].code, live[cid].storage);
  }

  /** c["storage"] = {...}: a new dictionary for one contract. */
  method Rebind(live: Heap, cid: Addr, st: map<Elem, Elem>)
    requires Apart(live) && cid in live
    modifies live[cid]
    ensures View(live) == old(View(live))[cid := old(View(live))[cid].(slots := st)]
  {
    live[cid].storage := new Slots(st);
  }

  /** Runs a span's calls on the live objects: each rebinds its contract's storage to a new dictionary. */
  method Advance(env: Env, s: State, live: Heap, calls: seq<Call>) returns (r: Option<Ran>)
    requires Apart(live) && View(live) == s.contracts
    modifies live.Values
    ensures r == Span(env, s, calls)
    ensures r.Some? ==> View(live) == r.value.post.contracts
  {
    hide CallStep, Span, View, Apart;
    var now, done: seq<Done> := s, [];
    SpanNothing(env, s);
    for i := 0 to |calls|
      invariant View(live) == now.contracts
      invariant Span(env, s, calls[..i]) == Some(Ran(now, done))
    {
      SpanPush(env, s, calls[..i], calls[i]);
      SpanConcat(env, s, calls[..i + 1], calls[i + 1..]);
      assert calls[..i] + [calls[i]] == calls[..i + 1];
      assert calls[..i + 1] + calls[i + 1..] == calls;
      var d := CallStep(env, now, calls[i]);
      if d.None? {
        return None;
      }
      SettleAgree.CallRanOn(env, now, calls[i]);
      var cid := d.value.call.pub.cid;
      KnownCid(live, now, d.value);
      Rebind(live, cid, d.value.out.st);
      now, done := d.value.post, done + [d.value];
    }
    assert calls[..|calls|] == calls;
    r := Some(Ran(now, done));
  }

  lemma KnownCid(live: Heap, s: State, d: Done)
    requires View(live) == s.contracts && SettleAgree.RanOn(s.contracts, d)
    ensures d.call.pub.cid in live
  {
  }

  /** A recorded segment start survives every later call: the bundle still reads the storage it was made from. */
  method RecordThenAdvance(env: Env, s: State, live: Heap, calls: seq<Call>)
    returns (rec: map<Addr, Recorded>, r: Option<Ran>)
    requires Apart(live) && View(live) == s.contracts
    modifies live.Values
    ensures r == Span(env, s, calls)
    ensures rec.Keys == set cid | cid in s.contracts && s.contracts[cid].zk
    ensures forall cid :: cid in rec ==>
              rec[cid].code == s.contracts[cid].code && rec[cid].storage.slots == s.contracts[cid].slots
  {
    rec := Record(live);
    r := Advance(env, s, live, calls);
  }
}
