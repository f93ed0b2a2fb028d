/**
 The mempool's generation-tagged caches (memserver.py) as interleaved steps. Threads share list objects, the property's
 current list, the generation, the two caches and the mempool lock; one step is one read or write of them. A list is
 iterated element by element, so a set under construction can see an append.
 */
module Mempool {
  import opened Options

  type Txid = nat
  datatype Tx = Tx(id: Txid, body: nat)
  type Digest = nat

  datatype Cached = Cached(gen: nat, ids: set<Txid>)
  datatype Hashed = Hashed(gen: nat, hash: Digest)

  /** What a lookup of the txid set is for: a merge under the lock, or a look from outside. */
  datatype For = Merging(tx: Tx) | Looking

  datatype Pc =
    | Idle
    // the lock: a merge, or a purge, cull or eviction keeping the masked transactions
    | WantLock(what: Op)
    // _pool_txid_set
    | ReadCache(why: For)
    | HaveCache(why: For, cache: Option<Cached>)
    | Rebuild(why: For)
    | HaveGen(why: For, gen: nat)
    | Building(why: For, gen: nat, obj: nat, i: nat, acc: set<Txid>)
    | Built(why: For, made: Cached)
    | Answer(why: For, ids: set<Txid>)
    // the writers' tails
    | Append(tx: Tx)
    | Filter(mask: seq<bool>)
    | Assign(mask: seq<bool>, kept: seq<Tx>)
    | Bump
    | Unlock
    // get_transaction_pool_hash
    | HashList(obj: nat)
    | HashCache(obj: nat)
    | HashGen(obj: nat, held: Option<Hashed>)
    | HashTest(obj: nat, held: Option<Hashed>, gen: nat)
    | HashStore(gen: nat, copy: seq<Tx>)

  datatype Op = Merge(tx: Tx) | Keep(mask: seq<bool>)

  /** What an idle thread starts next. */
  datatype Choice = Start(op: Op) | Look | Hash

  datatype State = State(lists: seq<seq<Tx>>, cur: nat, gen: nat, cache: Option<Cached>, hashed: Option<Hashed>,
                         lock: Option<nat>, threads: seq<Pc>, ops: seq<Op>)
  {
    ghost predicate Wf() {
      cur < |lists|
    }

    function Pool(): seq<Tx>
      requires cur < |lists|
    {
      lists[cur]
    }

    function At(t: nat, pc: Pc): State
      requires t < |threads|
    {
      this.(threads := threads[t := pc])
    }
  }

  function Ids(list: seq<Tx>): set<Txid> {
    set x | x in list :: x.id
  }

  /** The transactions a mask keeps; a mask that is too short drops the rest. */
  function Masked(list: seq<Tx>, mask: seq<bool>): seq<Tx>
    decreases |list|
  {
    if list == [] || mask == [] then []
    else (if mask[0] then [list[0]] else []) + Masked(list[1..], mask[1..])
  }

  function Locked(why: For): Pc {
    if why.Merging? then Unlock else Idle
  }

  function Begin(op: Op): Pc {
    match op
    case Merge(tx) => ReadCache(Merging(tx))
    case Keep(m) => Filter(m)
  }

  /** One step of thread t; None when it cannot move. `h` hashes the sorted pool. */
  function Next(h: seq<Tx> -> Digest, s: State, t: nat, c: Choice): Option<State>
    requires s.cur < |s.lists|
  {
    if t >= |s.threads| then None
    else
      match s.threads[t]
      case Idle =>
        (match c
         case Start(op) => Some(s.At(t, WantLock(op)))
         case Look => Some(s.At(t, ReadCache(Looking)))
         case Hash => Some(s.At(t, HashList(s.cur))))
      case WantLock(op) =>
        if s.lock.Some? then None
        else
          Some(s.(lock := Some(t)).At(t, Begin(op)))
      case ReadCache(why) => Some(s.At(t, HaveCache(why, s.cache)))
      case HaveCache(why, cache) =>
        if cache.Some? && cache.value.gen == s.gen then Some(s.At(t, Answer(why, cache.value.ids)))
        else Some(s.At(t, Rebuild(why)))
      case Rebuild(why) => Some(s.At(t, HaveGen(why, s.gen)))
      case HaveGen(why, g) => Some(s.At(t, Building(why, g, s.cur, 0, {})))
      case Building(why, g, obj, i, acc) =>
        if obj < |s.lists| && i < |s.lists[obj]| then
          Some(s.At(t, Building(why, g, obj, i + 1, acc + {s.lists[obj][i].id})))
        else Some(s.At(t, Built(why, Cached(g, acc))))
      case Built(why, made) => Some(s.(cache := Some(made)).At(t, Answer(why, made.ids)))
      case Answer(why, ids) =>
        if why.Merging? && why.tx.id !in ids then Some(s.At(t, Append(why.tx)))
        else Some(s.At(t, Locked(why)))
      case Append(tx) =>
        Some(s.(lists := s.lists[s.cur := s.Pool() + [tx]], ops := s.ops + [Merge(tx)]).At(t, Bump))
      case Filter(m) => Some(s.At(t, Assign(m, Masked(s.Pool(), m))))
      case Assign(m, kept) =>
        Some(s.(lists := s.lists + [kept], cur := |s.lists|, ops := s.ops + [Keep(m)]).At(t, Bump))
      case Bump => Some(s.(gen := s.gen + 1).At(t, Unlock))
      case Unlock => Some(s.(lock := None).At(t, Idle))
      case HashList(obj) =>
        if obj < |s.lists| && s.lists[obj] == [] then Some(s.At(t, Idle)) else Some(s.At(t, HashCache(obj)))
      case HashCache(obj) => Some(s.At(t, HashGen(obj, s.hashed)))
      case HashGen(obj, cache) => Some(s.At(t, HashTest(obj, cache, s.gen)))
      case HashTest(obj, cache, g) =>
        if cache.Some? && cache.value.gen == g then Some(s.At(t, Idle))
        else Some(s.At(t, HashStore(g, if obj < |s.lists| then s.lists[obj] else [])))
      case HashStore(g, copy) => Some(s.(hashed := Some(Hashed(g, h(copy)))).At(t, Idle))
  }

  datatype Move = Move(t: nat, c: Choice)

  /** A schedule: moves that cannot be made are passed over. */
  function Run(h: seq<Tx> -> Digest, s: State, moves: seq<Move>): State
    requires s.cur < |s.lists|
    decreases |moves|
  {
    if moves == [] then s
    else
      match Next(h, s, moves[0].t, moves[0].c)
      case None => Run(h, s, moves[1..])
      case Some(n) => if n.cur < |n.lists| then Run(h, n, moves[1..]) else s
  }

  // ---- the invariant -------------------------------------------------------------------------------

  predicate Holds(pc: Pc) {
    match pc
    case ReadCache(w) => w.Merging?
    case HaveCache(w, _) => w.Merging?
    case Rebuild(w) => w.Merging?
    case HaveGen(w, _) => w.Merging?
    case Building(w, _, _, _, _) => w.Merging?
    case Built(w, _) => w.Merging?
    case Answer(w, _) => w.Merging?
    case Append(_) => true
    case Filter(_) => true
    case Assign(_, _) => true
    case Bump => true
    case Unlock => true
    case _ => false
  }

  /** A writer has changed the content and not yet the generation. */
  ghost predicate Dirty(s: State) {
    s.lock.Some? && s.lock.value < |s.threads| && s.threads[s.lock.value].Bump?
  }

  /** The generation tells the content, except while a writer is between the two. */
  ghost predicate Current(s: State, g: nat) {
    g == s.gen && !Dirty(s)
  }

  ghost predicate Exact(s: State, c: Cached)
    requires s.Wf()
  {
    c.gen <= s.gen && (Current(s, c.gen) ==> c.ids == Ids(s.Pool()))
  }

  ghost predicate ThreadOk(s: State, t: nat)
    requires s.Wf() && t < |s.threads|
  {
    (Holds(s.threads[t]) ==> s.lock == Some(t)) &&
    match s.threads[t]
    case HaveCache(_, cache) => cache.Some? ==> Exact(s, cache.value)
    case HaveGen(why, g) => g <= s.gen && (why.Merging? ==> g == s.gen)
    case Building(why, g, obj, i, acc) =>
      && g <= s.gen && (why.Merging? ==> g == s.gen)
      && obj < |s.lists| && i <= |s.lists[obj]| && acc == Ids(s.lists[obj][..i])
      && (Current(s, g) ==> obj == s.cur)
    case Built(why, made) => Exact(s, made) && (why.Merging? ==> made.gen == s.gen)
    case Answer(why, ids) => why.Merging? ==> ids == Ids(s.Pool())
    case Append(tx) => tx.id !in Ids(s.Pool())
    case Assign(m, kept) => kept == Masked(s.Pool(), m)
    case _ => true
  }

  ghost predicate Distinct(list: seq<Tx>) {
    forall i, j :: 0 <= i < j < |list| ==> list[i].id != list[j].id
  }

  /** One operation as if nothing else ran. */
  function Applied(pool: seq<Tx>, op: Op): seq<Tx> {
    match op
    case Merge(tx) => if tx.id in Ids(pool) then pool else pool + [tx]
    case Keep(m) => Masked(pool, m)
  }

  /** The writers' operations one after another. */
  function Serial(start: seq<Tx>, ops: seq<Op>): seq<Tx>
    decreases |ops|
  {
    if ops == [] then start else Applied(Serial(start, ops[..|ops| - 1]), ops[|ops| - 1])
  }

  ghost predicate Inv(start: seq<Tx>, s: State) {
    && s.Wf()
    && (s.lock.Some? ==> s.lock.value < |s.threads| && Holds(s.threads[s.lock.value]))
    && (forall t :: 0 <= t < |s.threads| ==> ThreadOk(s, t))
    && (s.cache.Some? ==> Exact(s, s.cache.value))
    && Distinct(s.Pool())
    && s.Pool() == Serial(start, s.ops)
  }

  lemma IdsPush(list: seq<Tx>, tx: Tx)
    ensures Ids(list + [tx]) == Ids(list) + {tx.id}
  {
    forall x ensures x in Ids(list + [tx]) <==> x in Ids(list) + {tx.id} {
      if x in Ids(list) {
        var y :| y in list && y.id == x;
        assert y in list + [tx];
      }
      if x == tx.id { assert tx in list + [tx]; }
    }
  }

  lemma {:induction false} MaskedOrigin(list: seq<Tx>, mask: seq<bool>, k: nat) returns (at: nat)
    requires k < |Masked(list, mask)|
    ensures at < |list| && Masked(list, mask)[k] == list[at]
    decreases |list|
  {
    var here := if mask[0] then 1 else 0;
    if k < here {
      at := 0;
    } else {
      var rest := MaskedOrigin(list[1..], mask[1..], k - here);
      at := rest + 1;
    }
  }

  lemma {:induction false} MaskedDistinct(list: seq<Tx>, mask: seq<bool>)
    requires Distinct(list)
    ensures Distinct(Masked(list, mask))
    decreases |list|
  {
    if list != [] && mask != [] {
      assert Distinct(list[1..]);
      MaskedDistinct(list[1..], mask[1..]);
      var rest := Masked(list[1..], mask[1..]);
      forall k | 0 <= k < |rest| ensures rest[k].id != list[0].id {
        var at := MaskedOrigin(list[1..], mask[1..], k);
      }
    }
  }

  lemma SerialPush(start: seq<Tx>, ops: seq<Op>, op: Op)
    ensures Serial(start, ops + [op]) == Applied(Serial(start, ops), op)
  {
    assert (ops + [op])[..|ops|] == ops;
  }

  /** A thread that only moves itself, holding on to the lock it holds. */
  lemma LocalStep(start: seq<Tx>, s: State, t: nat, pc: Pc)
    requires Inv(start, s) && t < |s.threads| && !s.threads[t].Bump? && !pc.Bump?
    requires Holds(pc) == Holds(s.threads[t])
    requires ThreadOk(s.At(t, pc), t)
    ensures Inv(start, s.At(t, pc))
  {
    var n := s.At(t, pc);
    assert Dirty(n) == Dirty(s);
    forall u | 0 <= u < |n.threads| ensures ThreadOk(n, u) {
      if u != t { assert ThreadOk(s, u); }
    }
  }

  lemma LookupStep(h: seq<Tx> -> Digest, start: seq<Tx>, s: State, t: nat, c: Choice)
    requires Inv(start, s) && t < |s.threads|
    requires match s.threads[t]
             case ReadCache(_) | HaveCache(_, _) | Rebuild(_) | HaveGen(_, _) | Building(_, _, _, _, _) => true
             case _ => false
    ensures Next(h, s, t, c).Some? && Inv(start, Next(h, s, t, c).value)
  {
    assert ThreadOk(s, t);
    var pc := Next(h, s, t, c).value.threads[t];
    match s.threads[t]
    case ReadCache(_) => LocalStep(start, s, t, pc);
    case HaveCache(_, _) => LocalStep(start, s, t, pc);
    case Rebuild(_) => LocalStep(start, s, t, pc);
    case HaveGen(_, _) => LocalStep(start, s, t, pc);
    case Building(_, _, obj, i, _) =>
      if i < |s.lists[obj]| {
        assert s.lists[obj][..i + 1] == s.lists[obj][..i] + [s.lists[obj][i]];
        IdsPush(s.lists[obj][..i], s.lists[obj][i]);
      } else {
        assert s.lists[obj][..i] == s.lists[obj];
      }
      LocalStep(start, s, t, pc);
  }

  lemma OutsideStep(h: seq<Tx> -> Digest, start: seq<Tx>, s: State, t: nat, c: Choice)
    requires Inv(start, s) && t < |s.threads| && Next(h, s, t, c).Some?
    requires match s.threads[t]
             case Idle | HashList(_) | HashCache(_) | HashGen(_, _) | HashTest(_, _, _) => true
             case Answer(_, _) | Filter(_) => true
             case _ => false
    ensures Inv(start, Next(h, s, t, c).value)
  {
    hide Masked, Serial, Distinct;
    assert ThreadOk(s, t);
    LocalStep(start, s, t, Next(h, s, t, c).value.threads[t]);
  }

  lemma HashStoreStep(h: seq<Tx> -> Digest, start: seq<Tx>, s: State, t: nat, c: Choice)
    requires Inv(start, s) && t < |s.threads| && s.threads[t].HashStore?
    ensures Inv(start, Next(h, s, t, c).value)
  {
    hide Masked, Serial, Distinct, Ids;
    var n, moved := Next(h, s, t, c).value, s.At(t, Idle);
    LocalStep(start, s, t, Idle);
    forall u | 0 <= u < |n.threads| ensures ThreadOk(n, u) { assert ThreadOk(moved, u); }
  }

  lemma StoreStep(h: seq<Tx> -> Digest, start: seq<Tx>, s: State, t: nat, c: Choice)
    requires Inv(start, s) && t < |s.threads| && s.threads[t].Built?
    ensures Inv(start, Next(h, s, t, c).value)
  {
    assert ThreadOk(s, t);
    var n := Next(h, s, t, c).value;
    var moved := s.At(t, n.threads[t]);
    LocalStep(start, s, t, n.threads[t]);
    forall u | 0 <= u < |n.threads| ensures ThreadOk(n, u) { assert ThreadOk(moved, u); }
  }

  lemma LockStep(h: seq<Tx> -> Digest, start: seq<Tx>, s: State, t: nat, c: Choice)
    requires Inv(start, s) && t < |s.threads| && (s.threads[t].WantLock? || s.threads[t].Unlock?)
    requires Next(h, s, t, c).Some?
    ensures Inv(start, Next(h, s, t, c).value)
  {
    var n := Next(h, s, t, c).value;
    assert ThreadOk(s, t);
    assert !Dirty(s) && !Dirty(n);
    forall u | 0 <= u < |n.threads| ensures ThreadOk(n, u) { assert ThreadOk(s, u); }
  }

  /** Changing the content: every other thread's view stays right because it is no longer current. */
  lemma OtherAfterWrite(start: seq<Tx>, s: State, n: State, t: nat, u: nat)
    requires Inv(start, s) && t < |s.threads| && u < |s.threads| && u != t && Holds(s.threads[t])
    requires n.Wf() && |n.threads| == |s.threads| && n.threads[u] == s.threads[u] && n.threads[t] == Bump
    requires n.lock == s.lock && n.gen == s.gen && |n.lists| >= |s.lists|
    requires forall k :: 0 <= k < |s.lists| ==> s.lists[k] <= n.lists[k]
    ensures ThreadOk(n, u)
  {
    hide Ids, Masked, Distinct, Serial;
    assert ThreadOk(s, t) && ThreadOk(s, u);
    assert Dirty(n);
    if s.threads[u].Building? {
      var obj, i := s.threads[u].obj, s.threads[u].i;
      assert n.lists[obj][..i] == s.lists[obj][..i];
    }
  }

  lemma AppendStep(h: seq<Tx> -> Digest, start: seq<Tx>, s: State, t: nat, c: Choice)
    requires Inv(start, s) && t < |s.threads| && s.threads[t].Append?
    ensures Inv(start, Next(h, s, t, c).value)
  {
    hide Serial, Masked;
    var tx, n := s.threads[t].tx, Next(h, s, t, c).value;
    assert ThreadOk(s, t);
    SerialPush(start, s.ops, Merge(tx));
    forall i | 0 <= i < |s.Pool()| ensures s.Pool()[i].id != tx.id { assert s.Pool()[i] in s.Pool(); }
    forall u | 0 <= u < |n.threads| ensures ThreadOk(n, u) {
      if u != t { OtherAfterWrite(start, s, n, t, u); }
    }
  }

  lemma AssignStep(h: seq<Tx> -> Digest, start: seq<Tx>, s: State, t: nat, c: Choice)
    requires Inv(start, s) && t < |s.threads| && s.threads[t].Assign?
    ensures Inv(start, Next(h, s, t, c).value)
  {
    hide Serial, Masked;
    var m, n := s.threads[t].mask, Next(h, s, t, c).value;
    assert ThreadOk(s, t);
    SerialPush(start, s.ops, Keep(m));
    MaskedDistinct(s.Pool(), m);
    forall u | 0 <= u < |n.threads| ensures ThreadOk(n, u) {
      if u != t { OtherAfterWrite(start, s, n, t, u); }
    }
  }

  lemma BumpStep(h: seq<Tx> -> Digest, start: seq<Tx>, s: State, t: nat, c: Choice)
    requires Inv(start, s) && t < |s.threads| && s.threads[t].Bump?
    ensures Inv(start, Next(h, s, t, c).value)
  {
    var n := Next(h, s, t, c).value;
    assert ThreadOk(s, t);
    forall u | 0 <= u < |n.threads| ensures ThreadOk(n, u) {
      assert ThreadOk(s, u);
      if u != t { assert !Holds(s.threads[u]); }
    }
  }

  lemma Keeps(h: seq<Tx> -> Digest, start: seq<Tx>, s: State, t: nat, c: Choice)
    requires Inv(start, s) && Next(h, s, t, c).Some?
    ensures Inv(start, Next(h, s, t, c).value)
  {
    Movable(h, s, t, c);
    hide Inv, Next;
    match s.threads[t]
    case ReadCache(_) | HaveCache(_, _) | Rebuild(_) | HaveGen(_, _) | Building(_, _, _, _, _) =>
      LookupStep(h, start, s, t, c);
    case Idle | HashList(_) | HashCache(_) | HashGen(_, _) | HashTest(_, _, _) => OutsideStep(h, start, s, t, c);
    case HashStore(_, _) => HashStoreStep(h, start, s, t, c);
    case Answer(_, _) | Filter(_) => OutsideStep(h, start, s, t, c);
    case Built(_, _) => StoreStep(h, start, s, t, c);
    case WantLock(_) | Unlock => LockStep(h, start, s, t, c);
    case Append(_) => AppendStep(h, start, s, t, c);
    case Assign(_, _) => AssignStep(h, start, s, t, c);
    case Bump => BumpStep(h, start, s, t, c);
  }

  lemma Movable(h: seq<Tx> -> Digest, s: State, t: nat, c: Choice)
    requires s.cur < |s.lists| && Next(h, s, t, c).Some?
    ensures t < |s.threads|
  {
  }

  function Boot(pool: seq<Tx>, n: nat): State {
    State([pool], 0, 0, None, None, None, seq(n, _ => Idle), [])
  }

  lemma {:induction false} RunKeeps(h: seq<Tx> -> Digest, start: seq<Tx>, s: State, moves: seq<Move>)
    requires Inv(start, s)
    ensures Inv(start, Run(h, s, moves))
    decreases |moves|
  {
    hide Next;
    if moves != [] {
      var next := Next(h, s, moves[0].t, moves[0].c);
      if next.Some? {
        Keeps(h, start, s, moves[0].t, moves[0].c);
        RunKeeps(h, start, next.value, moves[1..]);
      } else {
        RunKeeps(h, start, s, moves[1..]);
      }
    }
  }

  /** On every schedule of any number of threads: the pool holds no txid twice, it is what the writers' operations give
    * one after another, and the txid set a merge decides on is exactly the pool's. */
  lemma ReachablePool(h: seq<Tx> -> Digest, start: seq<Tx>, n: nat, moves: seq<Move>)
    requires Distinct(start)
    ensures var s := Run(h, Boot(start, n), moves);
            && s.Wf() && Distinct(s.Pool()) && s.Pool() == Serial(start, s.ops)
            && forall t :: 0 <= t < |s.threads| && s.threads[t].Answer? && s.threads[t].why.Merging? ==>
                 s.threads[t].ids == Ids(s.Pool())
  {
    var s0 := Boot(start, n);
    forall t | 0 <= t < |s0.threads| ensures ThreadOk(s0, t) {}
    RunKeeps(h, start, s0, moves);
    var s := Run(h, s0, moves);
    forall t | 0 <= t < |s.threads| && s.threads[t].Answer? && s.threads[t].why.Merging?
      ensures s.threads[t].ids == Ids(s.Pool())
    {
      assert ThreadOk(s, t);
    }
  }

  // ---- the hash cache ------------------------------------------------------------------------------

  /** get_transaction_pool_hash takes the list before the generation. This read of the generation comes too late when
    * the list has been replaced since and the generation already says so. */
  ghost predicate TimelyMove(s: State, m: Move)
    requires s.Wf()
  {
    m.t < |s.threads| && s.threads[m.t].HashGen? ==> s.threads[m.t].obj == s.cur || Dirty(s)
  }

  ghost predicate Timely(h: seq<Tx> -> Digest, s: State, moves: seq<Move>)
    requires s.Wf()
    decreases |moves|
  {
    moves == [] ||
    (TimelyMove(s, moves[0]) &&
     match Next(h, s, moves[0].t, moves[0].c)
     case None => Timely(h, s, moves[1..])
     case Some(n) => n.Wf() ==> Timely(h, n, moves[1..]))
  }

  ghost predicate HashThread(s: State, t: nat)
    requires s.Wf() && t < |s.threads|
  {
    match s.threads[t]
    case HashList(obj) => obj < |s.lists|
    case HashCache(obj) => obj < |s.lists|
    case HashGen(obj, _) => obj < |s.lists|
    case HashTest(obj, _, g) => obj < |s.lists| && g <= s.gen && (Current(s, g) ==> obj == s.cur)
    case HashStore(g, copy) => g <= s.gen && (Current(s, g) ==> copy == s.Pool())
    case _ => true
  }

  ghost predicate HashInv(h: seq<Tx> -> Digest, s: State)
    requires s.Wf()
  {
    && (forall t :: 0 <= t < |s.threads| ==> HashThread(s, t))
    && (s.hashed.Some? ==>
          s.hashed.value.gen <= s.gen && (Current(s, s.hashed.value.gen) ==> s.hashed.value.hash == h(s.Pool())))
  }

  /** A generation that is current after a step was current before it, and tells the same content. */
  lemma StillCurrent(h: seq<Tx> -> Digest, start: seq<Tx>, s: State, t: nat, c: Choice)
    requires Inv(start, s) && Next(h, s, t, c).Some?
    ensures var n := Next(h, s, t, c).value;
            && n.Wf() && n.gen >= s.gen && |n.lists| >= |s.lists| && |n.threads| == |s.threads|
            && forall g: nat :: g <= s.gen && Current(n, g) ==> Current(s, g) && n.cur == s.cur && n.lists == s.lists
    ensures forall u :: 0 <= u < |s.threads| && u != t ==> Next(h, s, t, c).value.threads[u] == s.threads[u]
  {
    Movable(h, s, t, c);
    assert ThreadOk(s, t);
    assert s.lock.Some? ==> s.lock.value < |s.threads| && Holds(s.threads[s.lock.value]);
    hide Inv, ThreadOk, Masked, Ids;
    match s.threads[t]
    case Idle | WantLock(_) =>
    case ReadCache(_) | HaveCache(_, _) | Rebuild(_) | HaveGen(_, _) =>
    case Building(_, _, _, _, _) | Built(_, _) | Answer(_, _) =>
    case Append(_) =>
    case Filter(_) =>
    case Assign(_, _) =>
    case Bump =>
    case Unlock =>
    case HashList(_) | HashCache(_) | HashGen(_, _) | HashTest(_, _, _) | HashStore(_, _) =>
  }

  lemma HashKeeps(h: seq<Tx> -> Digest, start: seq<Tx>, s: State, t: nat, c: Choice)
    requires Inv(start, s) && HashInv(h, s) && TimelyMove(s, Move(t, c)) && Next(h, s, t, c).Some?
    ensures Next(h, s, t, c).value.Wf() && HashInv(h, Next(h, s, t, c).value)
  {
    Movable(h, s, t, c);
    StillCurrent(h, start, s, t, c);
    var n := Next(h, s, t, c).value;
    OwnHash(h, start, s, t, c);
    hide Inv, Next, Dirty;
    forall u | 0 <= u < |n.threads| ensures HashThread(n, u) {
      if u != t { assert HashThread(s, u); }
    }
  }

  lemma OwnHash(h: seq<Tx> -> Digest, start: seq<Tx>, s: State, t: nat, c: Choice)
    requires Inv(start, s) && HashInv(h, s) && t < |s.threads|
    requires TimelyMove(s, Move(t, c)) && Next(h, s, t, c).Some?
    ensures var n := Next(h, s, t, c).value;
            && n.Wf() && HashThread(n, t)
            && (n.hashed.Some? && n.hashed != s.hashed ==>
                  && n.hashed.value.gen <= n.gen
                  && (Current(n, n.hashed.value.gen) ==> n.hashed.value.hash == h(n.Pool())))
  {
    StillCurrent(h, start, s, t, c);
    assert HashThread(s, t);
    hide Inv, Dirty, Run;
    match s.threads[t]
    case HashStore(_, _) =>
    case HashList(_) | HashCache(_) | HashGen(_, _) | HashTest(_, _, _) =>
    case Idle =>
    case WantLock(_) | ReadCache(_) | HaveCache(_, _) | Rebuild(_) | HaveGen(_, _) | Building(_, _, _, _, _) =>
    case Built(_, _) | Answer(_, _) | Append(_) | Filter(_) | Assign(_, _) | Bump | Unlock =>
  }

  lemma {:induction false} TimelyRun(h: seq<Tx> -> Digest, start: seq<Tx>, s: State, moves: seq<Move>)
    requires Inv(start, s) && HashInv(h, s) && Timely(h, s, moves)
    ensures Inv(start, Run(h, s, moves)) && HashInv(h, Run(h, s, moves))
    decreases |moves|
  {
    hide Next, Inv, HashInv;
    if moves != [] {
      var m := moves[0];
      WfOf(start, s);
      var next := Next(h, s, m.t, m.c);
      if next.Some? {
        Keeps(h, start, s, m.t, m.c);
        HashKeeps(h, start, s, m.t, m.c);
        TimelyRun(h, start, next.value, moves[1..]);
      } else {
        TimelyRun(h, start, s, moves[1..]);
      }
    }
  }

  lemma WfOf(start: seq<Tx>, s: State)
    requires Inv(start, s)
    ensures s.Wf()
  {
  }

  /** While every read of the generation for a hash is timely, a cached hash of the current generation is the pool's. */
  lemma HashCacheExact(h: seq<Tx> -> Digest, start: seq<Tx>, n: nat, moves: seq<Move>)
    requires Distinct(start) && Timely(h, Boot(start, n), moves)
    ensures var s := Run(h, Boot(start, n), moves);
            s.Wf() && (s.hashed.Some? && Current(s, s.hashed.value.gen) ==> s.hashed.value.hash == h(s.Pool()))
  {
    hide Run, Timely;
    var s0 := Boot(start, n);
    forall t | 0 <= t < |s0.threads| ensures ThreadOk(s0, t) && HashThread(s0, t) {}
    TimelyRun(h, start, s0, moves);
  }

  ghost predicate ReadsCurrent(s: State, t: nat)
    requires s.Wf() && t < |s.threads|
  {
    match s.threads[t]
    case HashList(obj) => obj == s.cur
    case HashCache(obj) => obj == s.cur
    case HashGen(obj, _) => obj == s.cur
    case _ => true
  }

  /** Moves of one thread alone are timely, so a run whose operations do not overlap is. */
  lemma {:induction false} AloneIsTimely(h: seq<Tx> -> Digest, start: seq<Tx>, s: State, t: nat, moves: seq<Move>)
    requires Inv(start, s) && t < |s.threads| && ReadsCurrent(s, t)
    requires forall i :: 0 <= i < |moves| ==> moves[i].t == t
    ensures Timely(h, s, moves)
    decreases |moves|
  {
    if moves != [] {
      var c := moves[0].c;
      var next := Next(h, s, t, c);
      if next.Some? {
        Keeps(h, start, s, t, c);
        StillCurrent(h, start, s, t, c);
        StaysCurrent(h, s, t, c);
        AloneIsTimely(h, start, next.value, t, moves[1..]);
      } else {
        AloneIsTimely(h, start, s, t, moves[1..]);
      }
    }
  }

  lemma StaysCurrent(h: seq<Tx> -> Digest, s: State, t: nat, c: Choice)
    requires s.Wf() && t < |s.threads| && ReadsCurrent(s, t) && Next(h, s, t, c).Some?
    requires Next(h, s, t, c).value.Wf()
    ensures ReadsCurrent(Next(h, s, t, c).value, t)
  {
  }

  lemma {:induction false} TimelyConcat(h: seq<Tx> -> Digest, s: State, x: seq<Move>, y: seq<Move>)
    requires s.Wf() && Timely(h, s, x) && Run(h, s, x).Wf() && Timely(h, Run(h, s, x), y)
    ensures Timely(h, s, x + y)
    decreases |x|
  {
    hide Next, TimelyMove;
    if x == [] {
      assert x + y == y;
    } else {
      assert (x + y)[0] == x[0] && (x + y)[1..] == x[1..] + y;
      match Next(h, s, x[0].t, x[0].c)
      case None => TimelyConcat(h, s, x[1..], y);
      case Some(n) => if n.Wf() { TimelyConcat(h, n, x[1..], y); }
    }
  }

  lemma RunOn(h: seq<Tx> -> Digest, s: State, t: nat, c: Choice, rest: seq<Move>)
    requires s.Wf() && Next(h, s, t, c).Some? && Next(h, s, t, c).value.Wf()
    ensures Run(h, s, [Move(t, c)] + rest) == Run(h, Next(h, s, t, c).value, rest)
  {
    hide Next;
    assert ([Move(t, c)] + rest)[0] == Move(t, c) && ([Move(t, c)] + rest)[1..] == rest;
  }

  function Take(t: nat, rest: seq<Move>): seq<Move> {
    [Move(t, Hash)] + ([Move(t, Hash)] + ([Move(t, Hash)] + rest))
  }

  /** An untimely read caches the replaced list's hash under the new generation. The entry is current, and it is right
    * only if the two lists happen to have one hash. */
  lemma UntimelyIsStale(h: seq<Tx> -> Digest, s: State, t: nat)
    requires s.Wf() && t < |s.threads| && s.threads[t].HashGen? && s.threads[t].obj < |s.lists|
    requires !TimelyMove(s, Move(t, Hash))
    requires s.threads[t].held.Some? ==> s.threads[t].held.value.gen != s.gen
    ensures var n, was := Run(h, s, Take(t, [])), s.lists[s.threads[t].obj];
            && n.Wf() && n == s.(hashed := Some(Hashed(s.gen, h(was)))).At(t, Idle)
            && (n.hashed.value.hash == h(n.Pool()) <==> h(was) == h(s.Pool()))
  {
    hide Run;
    var a := Next(h, s, t, Hash).value;
    var b := Next(h, a, t, Hash).value;
    var d := Next(h, b, t, Hash).value;
    assert d.threads == s.threads[t := Idle];
    RunOn(h, s, t, Hash, [Move(t, Hash)] + ([Move(t, Hash)] + []));
    RunOn(h, a, t, Hash, [Move(t, Hash)] + []);
    RunOn(h, b, t, Hash, []);
    NoMoves(h, d);
  }

  lemma NoMoves(h: seq<Tx> -> Digest, s: State)
    requires s.Wf()
    ensures Run(h, s, []) == s
  {
  }

  lemma TakesList(h: seq<Tx> -> Digest, s: State, t: nat, rest: seq<Move>)
    requires s.Wf() && t < |s.threads| && s.threads[t].Idle? && s.Pool() != []
    ensures Run(h, s, Take(t, rest)) == Run(h, s.At(t, HashGen(s.cur, s.hashed)), rest)
  {
    hide Run;
    var a := s.At(t, HashList(s.cur));
    var b := a.At(t, HashCache(s.cur));
    assert s.At(t, HashGen(s.cur, s.hashed)) == b.At(t, HashGen(s.cur, s.hashed));
    RunOn(h, s, t, Hash, [Move(t, Hash)] + ([Move(t, Hash)] + rest));
    RunOn(h, a, t, Hash, [Move(t, Hash)] + rest);
    RunOn(h, b, t, Hash, rest);
  }

  function Five(t: nat, rest: seq<Move>): seq<Move> {
    [Move(t, Hash)] + ([Move(t, Hash)] + ([Move(t, Hash)] + ([Move(t, Hash)] + ([Move(t, Hash)] + rest))))
  }

  function Evicted(s: State, m: seq<bool>): State
    requires s.cur < |s.lists|
  {
    s.(lists := s.lists + [Masked(s.Pool(), m)], cur := |s.lists|, gen := s.gen + 1, ops := s.ops + [Keep(m)])
  }

  lemma Evicts(h: seq<Tx> -> Digest, s: State, t: nat, m: seq<bool>, rest: seq<Move>)
    requires s.Wf() && t < |s.threads| && s.threads[t].Idle? && s.lock.None?
    ensures Run(h, s, [Move(t, Start(Keep(m)))] + Five(t, rest)) == Run(h, Evicted(s, m), rest)
  {
    hide Run, Masked;
    var kept := Masked(s.Pool(), m);
    var a := s.At(t, WantLock(Keep(m)));
    var b := a.(lock := Some(t)).At(t, Filter(m));
    var d := b.At(t, Assign(m, kept));
    var e := d.(lists := s.lists + [kept], cur := |s.lists|, ops := s.ops + [Keep(m)]).At(t, Bump);
    var f := e.(gen := s.gen + 1).At(t, Unlock);
    var g := f.(lock := None).At(t, Idle);
    assert g.threads == s.threads;
    var one := [Move(t, Hash)];
    RunOn(h, s, t, Start(Keep(m)), Five(t, rest));
    RunOn(h, a, t, Hash, one + (one + (one + (one + rest))));
    RunOn(h, b, t, Hash, one + (one + (one + rest)));
    RunOn(h, d, t, Hash, one + (one + rest));
    RunOn(h, e, t, Hash, one + rest);
    RunOn(h, f, t, Hash, rest);
  }

  /** Such a read is reachable: thread 1 takes the list, thread 0 evicts a transaction, thread 1 reads the
    * generation. */
  lemma StaleIsReachable(h: seq<Tx> -> Digest, a: Tx, b: Tx) returns (s: State, moves: seq<Move>)
    requires a.id != b.id
    ensures s == Run(h, Boot([a, b], 2), moves)
    ensures s.Wf() && s.Pool() == [b] && s.gen == 1 && s.lock.None?
    ensures s.threads == [Idle, HashGen(0, None)] && s.lists[0] == [a, b]
    ensures !TimelyMove(s, Move(1, Hash))
  {
    hide Run, Masked;
    var s0, mask := Boot([a, b], 2), [false, true];
    var evict := [Move(0, Start(Keep(mask)))] + Five(0, []);
    var s1 := s0.At(1, HashGen(0, None));
    s := Evicted(s1, mask);
    moves := Take(1, evict);
    assert s1.threads == [Idle, HashGen(0, None)];
    KeepSecond(a, b);
    TakesList(h, s0, 1, evict);
    Evicts(h, s1, 0, mask, []);
    NoMoves(h, s);
  }

  /** Let thread 1 finish as well: every thread is idle, the lock is free, the cached hash is of the current generation,
    * and unless the two lists collide it is not the pool's. */
  lemma StaleForGood(h: seq<Tx> -> Digest, a: Tx, b: Tx) returns (s: State, moves: seq<Move>)
    requires a.id != b.id && h([a, b]) != h([b])
    ensures s == Run(h, Boot([a, b], 2), moves)
    ensures s.Wf() && s.Pool() == [b] && s.threads == [Idle, Idle] && s.lock.None?
    ensures s.hashed.Some? && Current(s, s.hashed.value.gen) && s.hashed.value.hash != h(s.Pool())
  {
    hide Run, Masked;
    var s0, mask := Boot([a, b], 2), [false, true];
    var evict := [Move(0, Start(Keep(mask)))] + Five(0, Take(1, []));
    var s1 := s0.At(1, HashGen(0, None));
    var s2 := Evicted(s1, mask);
    moves := Take(1, evict);
    s := Run(h, s0, moves);
    assert s1.threads == [Idle, HashGen(0, None)];
    KeepSecond(a, b);
    TakesList(h, s0, 1, evict);
    Evicts(h, s1, 0, mask, Take(1, []));
    UntimelyIsStale(h, s2, 1);
    assert s.threads == [Idle, Idle];
  }

  lemma KeepSecond(a: Tx, b: Tx)
    ensures Masked([a, b], [false, true]) == [b]
  {
    assert [a, b][1..] == [b] && [false, true][1..] == [true];
    assert [b][1..] == [] && [true][1..] == [];
    assert Masked([b], [true]) == [b] + Masked([b][1..], [true][1..]);
  }
}
