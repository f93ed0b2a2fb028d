/**
 What a run's log says of storage and of the chain. The machine writes a table, deleting what becomes zero; here the
 same storage is read off the log alone, and every value a run read is measured against it.
 */
module ZkStorage {
  import opened Options
  import opened Field
  import opened ZkVM
  import R = ZkReplay

  /** What a slot holds after a log: what was last stored in it, or else what it held before. */
  function Value(log: seq<Entry>, before: map<Elem, Elem>, slot: Elem): Elem {
    if log == [] then if slot in before then before[slot] else 0
    else
      var e := log[|log| - 1];
      if e.kind == IO_SSTORE && e.a == slot then e.b else Value(log[..|log| - 1], before, slot)
  }

  /** Storage keeps no zeros: a slot is there exactly when it holds something. */
  predicate Canonical(st: map<Elem, Elem>) {
    forall slot :: slot in st ==> st[slot] != 0
  }

  /** Storage is what the log makes of the storage before. */
  ghost predicate Holds(log: seq<Entry>, before: map<Elem, Elem>, st: map<Elem, Elem>) {
    && (forall slot: Elem :: (if slot in st then st[slot] else 0) == Value(log, before, slot))
    && (Canonical(before) ==> Canonical(st))
  }

  /** A storage read gives what the log before it left there, a chain read what the context says. */
  predicate ReadRight(ctx: Ctx, before: map<Elem, Elem>, sofar: seq<Entry>, e: Entry) {
    && (e.kind == IO_SLOAD ==> e.b == Value(sofar, before, e.a))
    && (e.kind == IO_BHASH ==> e.a in ctx.blockHashes && e.b == ctx.blockHashes[e.a] % P)
    && (e.kind == IO_BEACON ==> e.a in ctx.beacons && e.b == ctx.beacons[e.a] % P)
  }

  ghost predicate AllRead(ctx: Ctx, before: map<Elem, Elem>, log: seq<Entry>) {
    forall i :: 0 <= i < |log| ==> ReadRight(ctx, before, log[..i], log[i])
  }

  lemma ReadPush(ctx: Ctx, before: map<Elem, Elem>, log: seq<Entry>, e: Entry)
    requires AllRead(ctx, before, log) && ReadRight(ctx, before, log, e)
    ensures AllRead(ctx, before, log + [e])
  {
    hide ReadRight;
    forall i | 0 <= i < |log + [e]| ensures ReadRight(ctx, before, (log + [e])[..i], (log + [e])[i]) {
      assert (log + [e])[..i] == log[..i];
      if i == |log| { assert log[..i] == log; }
    }
  }

  lemma ValuePush(log: seq<Entry>, e: Entry, before: map<Elem, Elem>, slot: Elem)
    ensures Value(log + [e], before, slot) ==
            if e.kind == IO_SSTORE && e.a == slot then e.b else Value(log, before, slot)
  {
    assert (log + [e])[..|log|] == log;
  }

  /** Storing keeps it so, and nothing else needs to touch storage. */
  lemma HoldsPush(log: seq<Entry>, e: Entry, before: map<Elem, Elem>, st: map<Elem, Elem>)
    requires Holds(log, before, st)
    ensures Holds(log + [e], before, if e.kind == IO_SSTORE then Store(st, e.a, e.b) else st)
  {
    hide Value;
    forall slot: Elem ensures Value(log + [e], before, slot) ==
                              if e.kind == IO_SSTORE && e.a == slot then e.b else Value(log, before, slot) {
      ValuePush(log, e, before, slot);
    }
  }

  lemma LoadIs(log: seq<Entry>, before: map<Elem, Elem>, st: map<Elem, Elem>, slot: Elem)
    requires Holds(log, before, st)
    ensures Load(st, slot) == Value(log, before, slot)
  {
  }

  // ---- the machine ---------------------------------------------------------------------------------

  ghost predicate Reflects(ctx: Ctx, before: map<Elem, Elem>, c: Core) {
    Holds(c.io, before, c.st) && AllRead(ctx, before, c.io)
  }

  lemma PublishedRead(ctx: Ctx, ins: Ins, c: Core)
    requires Exec(ctx, ins, c).Some? && R.Published(ctx, ins, c) != []
    ensures var e := R.Published(ctx, ins, c)[0];
            && R.Published(ctx, ins, c) == [e]
            && (e.kind == IO_SLOAD ==> e.b == Load(c.st, e.a))
            && (e.kind == IO_BHASH ==> e.a in ctx.blockHashes && e.b == ctx.blockHashes[e.a] % P)
            && (e.kind == IO_BEACON ==> e.a in ctx.beacons && e.b == ctx.beacons[e.a] % P)
            && (ins.op.SSTORE? <==> e.kind == IO_SSTORE)
            && (ins.op.SSTORE? ==> e.a == c.regs[ins.d] && e.b == c.regs[ins.s])
  {
  }

  lemma StoresPublish(ctx: Ctx, ins: Ins, c: Core)
    requires R.Published(ctx, ins, c) == []
    ensures !ins.op.SSTORE?
  {
  }

  lemma ExecReflects(ctx: Ctx, before: map<Elem, Elem>, ins: Ins, c: Core)
    requires Exec(ctx, ins, c).Some? && Reflects(ctx, before, c)
    ensures Reflects(ctx, before, Exec(ctx, ins, c).value)
  {
    hide Exec, R.Published, Value, Holds, AllRead, Store, Load;
    var c' := Exec(ctx, ins, c).value;
    R.ExecPublishes(ctx, ins, c);
    if R.Published(ctx, ins, c) == [] {
      StoresPublish(ctx, ins, c);
      assert c'.io == c.io;
    } else {
      PublishedRead(ctx, ins, c);
      var e := R.Published(ctx, ins, c)[0];
      if e.kind == IO_SLOAD { LoadIs(c.io, before, c.st, e.a); }
      ReadPush(ctx, before, c.io, e);
      HoldsPush(c.io, e, before, c.st);
    }
  }

  lemma {:induction false} RunReflects(ctx: Ctx, before: map<Elem, Elem>, prog: seq<Ins>, pc: nat, c: Core, gas: nat)
    requires Reflects(ctx, before, c)
    ensures var out := RunFrom(ctx, prog, pc, c, gas);
            out.Success? ==> Holds(out.io, before, out.st) && AllRead(ctx, before, out.io)
    decreases gas
  {
    hide Exec, Holds, AllRead;
    if gas > 0 && pc < |prog| && Exec(ctx, prog[pc], c).Some? {
      ExecReflects(ctx, before, prog[pc], c);
      var to := StepAt(ctx, prog, pc, c);
      if to.Go? { RunReflects(ctx, before, prog, to.pc, to.core, gas - 1); }
    }
  }

  /** After every successful call a slot holds what the log last stored in it, or what it held before; storage without
    * zeros stays without them; and each value read was the slot's, the block's or the epoch's. */
  lemma RunStores(ctx: Ctx, prog: seq<Ins>, st: map<Elem, Elem>)
    requires Run(ctx, prog, st).Success?
    ensures var out := Run(ctx, prog, st);
            Holds(out.io, st, out.st) && AllRead(ctx, st, out.io)
  {
    RunReflects(ctx, st, prog, 0, Entry0(ctx, st), GAS_LIMIT);
  }
}
