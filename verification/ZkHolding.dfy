/**
 What a run's log says of the contract's own holding. The machine keeps a table of pending moves; here the same numbers
 are read off the log alone, and every balance read, payment and burn of every run is measured against them.
 */
module ZkHolding {
  import opened Options
  import opened Field
  import opened ZkVM
  import G = ZkGuards
  import R = ZkReplay

  // ---- the log as a ledger -------------------------------------------------------------------------

  /** The asset a log has selected and not yet used; 0 is none. */
  function Selected(log: seq<Entry>): Elem {
    if log == [] then 0
    else
      var e := log[|log| - 1];
      if e.kind == IO_ASEL then e.a
      else if e.kind == IO_PAY || e.kind == IO_AMINT then 0
      else Selected(log[..|log| - 1])
  }

  /** The entry gives to the contract itself. */
  predicate ToSelf(me: Elem, e: Entry) {
    me != 0 && e.a == me
  }

  /** What one entry, under a selection, does to the contract's own holding of an asset. */
  function Change(me: Elem, sel: Elem, e: Entry, asset: Elem): int {
    if e.kind == IO_ABURN && e.a == asset then 0 - e.b
    else if e.kind == IO_PAY && sel != 0 && sel == asset && !ToSelf(me, e) then 0 - e.b
    else if e.kind == IO_AMINT && sel == asset && ToSelf(me, e) then e.b
    else 0
  }

  /** Mints to itself, less burns, less payments to others. */
  function Net(me: Elem, log: seq<Entry>, asset: Elem): int {
    if log == [] then 0
    else
      var before := log[..|log| - 1];
      Net(me, before, asset) + Change(me, Selected(before), log[|log| - 1], asset)
  }

  /** What the contract holds of the asset after this much of its log. */
  function Own(ctx: Ctx, log: seq<Entry>, asset: Elem): int {
    (if asset in ctx.abal then ctx.abal[asset] else 0) + Net(ctx.selfd % P, log, asset)
  }

  /** A balance read gives the holding, a burn or a payment to another is covered by it. */
  predicate EntryRight(ctx: Ctx, before: seq<Entry>, e: Entry) {
    var sel, me := Selected(before), ctx.selfd % P;
    && (e.kind == IO_ABAL ==> e.b == Own(ctx, before, e.a) % P)
    && (e.kind == IO_ABURN ==> e.b <= Own(ctx, before, e.a))
    && (e.kind == IO_PAY && sel != 0 && !ToSelf(me, e) ==> e.b <= Own(ctx, before, sel))
  }

  predicate LogRight(ctx: Ctx, log: seq<Entry>) {
    forall i :: 0 <= i < |log| ==> EntryRight(ctx, log[..i], log[i])
  }

  // ---- the machine agrees --------------------------------------------------------------------------

  /** The machine's selection and pending moves are the log's. */
  ghost predicate Follows(ctx: Ctx, c: Core) {
    && c.asel == Selected(c.io)
    && (forall a: Elem :: Holding(ctx, c.apend, a) == Own(ctx, c.io, a))
    && LogRight(ctx, c.io)
  }

  lemma LogPush(ctx: Ctx, log: seq<Entry>, e: Entry)
    requires LogRight(ctx, log) && EntryRight(ctx, log, e)
    ensures LogRight(ctx, log + [e])
  {
    hide EntryRight;
    forall i | 0 <= i < |log + [e]| ensures EntryRight(ctx, (log + [e])[..i], (log + [e])[i]) {
      assert (log + [e])[..i] == log[..i];
      if i == |log| { assert log[..i] == log; }
    }
  }

  lemma NetPush(ctx: Ctx, log: seq<Entry>, e: Entry, asset: Elem)
    ensures Own(ctx, log + [e], asset) == Own(ctx, log, asset) + Change(ctx.selfd % P, Selected(log), e, asset)
    ensures Selected(log + [e]) ==
            if e.kind == IO_ASEL then e.a else if e.kind == IO_PAY || e.kind == IO_AMINT then 0 else Selected(log)
  {
    assert (log + [e])[..|log|] == log;
  }

  /** Only a payment, a mint and a burn move anything. */
  lemma QuietMoves(ctx: Ctx, ins: Ins, c: Core)
    requires Exec(ctx, ins, c).Some? && !ins.op.PAY? && !ins.op.AMINT? && !ins.op.ABURN?
    ensures Exec(ctx, ins, c).value.apend == c.apend && |R.Published(ctx, ins, c)| <= 1
    ensures R.Published(ctx, ins, c) != [] ==>
              var e := R.Published(ctx, ins, c)[0];
              e.kind != IO_PAY && e.kind != IO_AMINT && e.kind != IO_ABURN
  {
    match ins.op
    case NOP | MOVI | MOV | ADD | SUB | MUL | EQ | NEZ | NOTB | LT | RANGE | LO32 | CTX | ACTX | ARG =>
    case DIVMOD | DIVMODW | JMP | JNZ | REQUIRE | HINIT | HABS | HOUT | SLOAD | SSTORE | BHASH | BEACON =>
    case ASEL | ABAL | ARENOUNCE | RET =>
    case HR(_) =>
  }

  /** What one instruction does to the contract's own holding. */
  lemma ExecMoves(ctx: Ctx, ins: Ins, c: Core)
    requires Exec(ctx, ins, c).Some?
    ensures var c', published := Exec(ctx, ins, c).value, R.Published(ctx, ins, c);
            && |published| <= 1
            && (published == [] ==> c'.apend == c.apend)
            && (published != [] ==> forall a: Elem ::
                  Holding(ctx, c'.apend, a) ==
                  Holding(ctx, c.apend, a) + Change(ctx.selfd % P, c.asel, published[0], a))
  {
    if !ins.op.PAY? && !ins.op.AMINT? && !ins.op.ABURN? {
      hide Exec, R.Published;
      QuietMoves(ctx, ins, c);
    }
  }

  /** What is published of a read, a burn or a payment, against the holding. */
  lemma ExecCovered(ctx: Ctx, ins: Ins, c: Core)
    requires Exec(ctx, ins, c).Some? && R.Published(ctx, ins, c) != []
    ensures var e := R.Published(ctx, ins, c)[0];
            && (e.kind == IO_ABAL ==> e.b == Holding(ctx, c.apend, e.a) % P)
            && (e.kind == IO_ABURN ==> e.b <= Holding(ctx, c.apend, e.a))
            && (e.kind == IO_PAY && c.asel != 0 && !ToSelf(ctx.selfd % P, e) ==> e.b <= Holding(ctx, c.apend, c.asel))
            && (e.kind == IO_ASEL ==> ins.op.ASEL? && e.a == c.regs[ins.s])
            && (e.kind == IO_PAY || e.kind == IO_AMINT <==> ins.op.PAY? || ins.op.AMINT?)
            && (ins.op.ASEL? ==> e.kind == IO_ASEL)
  {
  }

  lemma ExecFollows(ctx: Ctx, ins: Ins, c: Core)
    requires Exec(ctx, ins, c).Some? && Follows(ctx, c)
    ensures Follows(ctx, Exec(ctx, ins, c).value)
  {
    hide Exec, R.Published, Holding, Change, Own, Selected;
    var c', published := Exec(ctx, ins, c).value, R.Published(ctx, ins, c);
    R.ExecPublishes(ctx, ins, c);
    ExecMoves(ctx, ins, c);
    if published == [] {
      SilentSelection(ctx, ins, c);
      assert c'.io == c.io;
    } else {
      var e := published[0];
      assert c'.io == c.io + [e];
      ExecCovered(ctx, ins, c);
      LogPush(ctx, c.io, e);
      forall a: Elem ensures Holding(ctx, c'.apend, a) == Own(ctx, c'.io, a) { NetPush(ctx, c.io, e, a); }
      NetPush(ctx, c.io, e, 0);
    }
  }

  lemma SilentSelection(ctx: Ctx, ins: Ins, c: Core)
    requires R.Published(ctx, ins, c) == []
    ensures !ins.op.ASEL? && !ins.op.PAY? && !ins.op.AMINT?
  {
  }

  lemma StartFollows(ctx: Ctx, st: map<Elem, Elem>)
    ensures Follows(ctx, Entry0(ctx, st))
  {
  }

  /** In every run, each balance read is the holding the log so far amounts to, and each burn and each payment to
    * another is covered by it. */
  lemma {:induction false} RunFollows(ctx: Ctx, prog: seq<Ins>, pc: nat, c: Core, gas: nat)
    requires Follows(ctx, c)
    ensures var out := RunFrom(ctx, prog, pc, c, gas); out.Success? ==> LogRight(ctx, out.io)
    decreases gas
  {
    hide Exec, Follows;
    if gas > 0 && pc < |prog| && Exec(ctx, prog[pc], c).Some? {
      ExecFollows(ctx, prog[pc], c);
      FollowsRight(ctx, Exec(ctx, prog[pc], c).value);
      var to := StepAt(ctx, prog, pc, c);
      if to.Go? { RunFollows(ctx, prog, to.pc, to.core, gas - 1); }
    }
  }

  lemma FollowsRight(ctx: Ctx, c: Core)
    requires Follows(ctx, c)
    ensures LogRight(ctx, c.io)
  {
  }

  lemma RunHolds(ctx: Ctx, prog: seq<Ins>, st: map<Elem, Elem>)
    requires Run(ctx, prog, st).Success?
    ensures LogRight(ctx, Run(ctx, prog, st).io)
  {
    StartFollows(ctx, st);
    RunFollows(ctx, prog, 0, Entry0(ctx, st), GAS_LIMIT);
  }

  /** And nothing else makes one revert: a burn reverts exactly when it exceeds the holding, a payment exactly when it
    * pays an asset to another and exceeds the holding of it, and a balance read or a mint never. */
  lemma SpendsExactly(ctx: Ctx, ins: Ins, c: Core)
    requires Follows(ctx, c)
    ensures var rd, rs, sel := c.regs[ins.d], c.regs[ins.s], Selected(c.io);
            && (ins.op.ABURN? ==> (Exec(ctx, ins, c).None? <==> rs > Own(ctx, c.io, rd)))
            && (ins.op.PAY? ==>
                  (Exec(ctx, ins, c).None? <==>
                    sel != 0 && !ToSelf(ctx.selfd % P, Entry(IO_PAY, rd, rs)) && rs > Own(ctx, c.io, sel)))
            && (ins.op.ABAL? || ins.op.AMINT? ==> Exec(ctx, ins, c).Some?)
  {
  }

  /** Every state a call reaches is such a state. */
  lemma {:induction false} TraceFollows(ctx: Ctx, prog: seq<Ins>, st: map<Elem, Elem>, n: nat)
    requires G.Trace(ctx, prog, st, n).Go?
    ensures Follows(ctx, G.Trace(ctx, prog, st, n).core)
  {
    hide Exec, Follows;
    if n == 0 {
      StartFollows(ctx, st);
    } else {
      TraceFollows(ctx, prog, st, n - 1);
      var at := G.Trace(ctx, prog, st, n - 1);
      ExecFollows(ctx, prog[at.pc], at.core);
    }
  }
}
