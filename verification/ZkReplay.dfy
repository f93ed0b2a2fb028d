/**
 Replaying a call's public log instead of executing it (zkvm.replay_io), and why that settles the same storage the
 execution produced.
 */
module ZkReplay {
  import opened Options
  import opened Field
  import opened ZkVM
  import opened ZkGuards

  datatype Effect =
    | PayEffect(asset: Elem, to: Elem, amount: Elem)
    | MintEffect(asset: Elem, to: Elem, amount: Elem)
    | BurnEffect(asset: Elem, amount: Elem)
    | BalEffect(asset: Elem, value: Elem)
    | RenounceEffect(asset: Elem)

  /** The replayer's state: storage, what has been collected, the return value once seen, the live selection. */
  datatype Rep = Rep(st: map<Elem, Elem>, payouts: seq<(Elem, Elem)>, chain: seq<Entry>, effects: seq<Effect>,
                     ret: Option<Elem>, sel: Elem)

  predicate AssetKind(k: Kind) {
    k.IO_ASEL? || k.IO_AMINT? || k.IO_ABURN? || k.IO_ABAL? || k.IO_ARENOUNCE?
  }

  /** One log entry; None is a rejected log. */
  function ReplayStep(withAssets: bool, r: Rep, e: Entry): Option<Rep> {
    if r.ret.Some? then None
    else if AssetKind(e.kind) && !withAssets then None
    else if r.sel != 0 && e.kind != IO_PAY && e.kind != IO_AMINT then None
    else
      match e.kind
      case IO_SLOAD => if Load(r.st, e.a) != e.b then None else Some(r)
      case IO_SSTORE => Some(r.(st := Store(r.st, e.a, e.b)))
      case IO_PAY =>
        if r.sel != 0 then Some(r.(effects := r.effects + [PayEffect(r.sel, e.a, e.b)], sel := 0))
        else Some(r.(payouts := r.payouts + [(e.a, e.b)]))
      case IO_AMINT =>
        if r.sel == 0 then None
        else Some(r.(effects := r.effects + [MintEffect(r.sel, e.a, e.b)], sel := 0))
      case IO_BHASH => Some(r.(chain := r.chain + [e]))
      case IO_BEACON => Some(r.(chain := r.chain + [e]))
      case IO_RET => Some(r.(ret := Some(e.a)))
      case IO_ASEL => if e.a == 0 || e.b != 0 then None else Some(r.(sel := e.a))
      case IO_ABURN => if e.a == 0 then None else Some(r.(effects := r.effects + [BurnEffect(e.a, e.b)]))
      case IO_ABAL => if e.a == 0 then None else Some(r.(effects := r.effects + [BalEffect(e.a, e.b)]))
      case IO_ARENOUNCE =>
        if e.a == 0 || e.b != 0 then None else Some(r.(effects := r.effects + [RenounceEffect(e.a)]))
  }

  function Fresh(st: map<Elem, Elem>): Rep {
    Rep(st, [], [], [], None, 0)
  }

  function ReplayFold(withAssets: bool, log: seq<Entry>, st: map<Elem, Elem>): Option<Rep> {
    if log == [] then Some(Fresh(st))
    else
      var r :- ReplayFold(withAssets, log[..|log| - 1], st);
      ReplayStep(withAssets, r, log[|log| - 1])
  }

  /** The whole log: accepted when it ends in a return with no selection pending. */
  function ReplayIo(withAssets: bool, log: seq<Entry>, st: map<Elem, Elem>): Option<Rep> {
    var r :- ReplayFold(withAssets, log, st);
    if r.ret.None? || r.sel != 0 then None else Some(r)
  }

  /** The replay loop. */
  method Replay(withAssets: bool, log: seq<Entry>, st: map<Elem, Elem>) returns (r: Option<Rep>)
    ensures r == ReplayIo(withAssets, log, st)
  {
    var rep := Fresh(st);
    for i := 0 to |log|
      invariant ReplayFold(withAssets, log[..i], st) == Some(rep)
    {
      assert log[..i + 1][..i] == log[..i];
      match ReplayStep(withAssets, rep, log[i]) {
        case None =>
          FoldStops(withAssets, log, st, i + 1);
          return None;
        case Some(next) => rep := next;
      }
    }
    assert log[..|log|] == log;
    return if rep.ret.None? || rep.sel != 0 then None else Some(rep);
  }

  /** A rejected prefix rejects the log. */
  lemma FoldStops(withAssets: bool, log: seq<Entry>, st: map<Elem, Elem>, i: nat)
    requires i <= |log| && ReplayFold(withAssets, log[..i], st).None?
    ensures ReplayFold(withAssets, log, st).None?
    decreases |log|
  {
    if i < |log| {
      assert log[..|log| - 1][..i] == log[..i];
      FoldStops(withAssets, log[..|log| - 1], st, i);
    } else {
      assert log[..i] == log;
    }
  }

  lemma FoldPush(withAssets: bool, log: seq<Entry>, e: Entry, st: map<Elem, Elem>)
    ensures ReplayFold(withAssets, log + [e], st) ==
            match ReplayFold(withAssets, log, st) case None => None case Some(r) => ReplayStep(withAssets, r, e)
  {
    assert (log + [e])[..|log|] == log;
  }

  // ---- a run's own log -----------------------------------------------------------------------------

  /** Reads, burns and renounces of asset 0 are logged by a run but refused by a replay. */
  predicate ZeroAsset(e: Entry) {
    (e.kind == IO_ABURN || e.kind == IO_ABAL || e.kind == IO_ARENOUNCE) && e.a == 0
  }

  predicate NoZeroAsset(log: seq<Entry>) {
    forall i :: 0 <= i < |log| ==> !ZeroAsset(log[i])
  }

  /** The replay of what has been logged so far is at the machine's storage and selection. */
  ghost predicate Mirrors(st: map<Elem, Elem>, c: Core) {
    var r := ReplayFold(true, c.io, st);
    if NoZeroAsset(c.io) then r.Some? && r.value.st == c.st && r.value.sel == c.asel && r.value.ret.None?
    else r.None?
  }

  /** The entries an instruction publishes. */
  function Published(ctx: Ctx, ins: Ins, c: Core): seq<Entry> {
    var rd, rs := c.regs[ins.d], c.regs[ins.s];
    match ins.op
    case SLOAD => [Entry(IO_SLOAD, rs, Load(c.st, rs))]
    case SSTORE => [Entry(IO_SSTORE, rd, rs)]
    case PAY => [Entry(IO_PAY, rd, rs)]
    case BHASH => if rs in ctx.blockHashes then [Entry(IO_BHASH, rs, ctx.blockHashes[rs] % P)] else []
    case BEACON => if rs in ctx.beacons then [Entry(IO_BEACON, rs, ctx.beacons[rs] % P)] else []
    case ASEL => [Entry(IO_ASEL, rs, 0)]
    case AMINT => [Entry(IO_AMINT, rd, rs)]
    case ABURN => [Entry(IO_ABURN, rd, rs)]
    case ABAL => [Entry(IO_ABAL, rs, Holding(ctx, c.apend, rs) % P)]
    case ARENOUNCE => [Entry(IO_ARENOUNCE, rd, 0)]
    case RET => [Entry(IO_RET, rs, 0)]
    case _ => []
  }

  /** What an instruction does to the log, the storage and the selection. */
  lemma ExecPublishes(ctx: Ctx, ins: Ins, c: Core)
    requires Exec(ctx, ins, c).Some?
    ensures var c' := Exec(ctx, ins, c).value;
            && c'.io == c.io + Published(ctx, ins, c)
            && c'.st == (if ins.op.SSTORE? then Store(c.st, c.regs[ins.d], c.regs[ins.s]) else c.st)
            && c'.asel == (if ins.op.ASEL? then c.regs[ins.s] else if ins.op.PAY? || ins.op.AMINT? then 0 else c.asel)
    ensures ins.op.ASEL? ==> c.regs[ins.s] != 0
  {
    match ins.op
    case NOP | MOVI | MOV | ADD | SUB | MUL | EQ | NEZ | NOTB | LT | RANGE | LO32 | CTX | ACTX | ARG =>
    case DIVMOD | DIVMODW | JMP | JNZ | REQUIRE | HINIT | HABS | HOUT | SLOAD | SSTORE | BHASH | BEACON =>
    case PAY | ASEL | AMINT | ABURN | ABAL | ARENOUNCE | RET =>
    case HR(_) =>
  }

  /** One instruction logs at most one entry, and replaying that entry makes the same change. */
  lemma EntryMirrors(ctx: Ctx, ins: Ins, c: Core, r: Rep)
    requires Exec(ctx, ins, c).Some?
    requires c.asel != 0 ==> ins.op.PAY? || ins.op.AMINT?
    requires ins.op.AMINT? ==> c.asel != 0
    requires r.st == c.st && r.sel == c.asel && r.ret.None?
    ensures var c' := Exec(ctx, ins, c).value;
            || (c'.io == c.io && c'.st == c.st && c'.asel == c.asel && !ins.op.RET?)
            || exists e :: c'.io == c.io + [e] && Replayed(r, e, c', if ins.op.RET? then Some(c.regs[ins.s]) else None)
  {
    hide Exec;
    var c' := Exec(ctx, ins, c).value;
    ExecPublishes(ctx, ins, c);
    var p := Published(ctx, ins, c);
    if p != [] {
      assert c'.io == c.io + [p[0]];
      assert Replayed(r, p[0], c', if ins.op.RET? then Some(c.regs[ins.s]) else None);
    }
  }

  ghost predicate Replayed(r: Rep, e: Entry, c': Core, ret: Option<Elem>) {
    var r' := ReplayStep(true, r, e);
    if ZeroAsset(e) then r'.None?
    else r'.Some? && r'.value.st == c'.st && r'.value.sel == c'.asel && r'.value.ret == ret
  }

  lemma NoZeroPush(log: seq<Entry>, e: Entry)
    ensures NoZeroAsset(log + [e]) <==> NoZeroAsset(log) && !ZeroAsset(e)
  {
    if NoZeroAsset(log + [e]) {
      forall i | 0 <= i < |log| ensures !ZeroAsset(log[i]) { assert (log + [e])[i] == log[i]; }
      assert (log + [e])[|log|] == e;
    }
  }

  /** Guards at the next instruction, as EntryMirrors wants them. */
  lemma GuardsAt(prog: seq<Ins>, pc: nat, c: Core)
    requires Guarded(prog) && GuardInv(prog, pc, c) && pc < |prog|
    ensures c.asel != 0 ==> prog[pc].op.PAY? || prog[pc].op.AMINT?
    ensures prog[pc].op.AMINT? ==> c.asel != 0
  {
    assert AselGuarded(prog, pc);
    if c.asel != 0 { assert AselGuarded(prog, pc - 1); }
  }

  /** The log only grows. */
  lemma LogGrows(ctx: Ctx, ins: Ins, c: Core)
    requires Exec(ctx, ins, c).Some?
    ensures c.io <= Exec(ctx, ins, c).value.io
  {
    hide Exec, Published;
    ExecPublishes(ctx, ins, c);
  }

  /** Whether a finished run's log replays to the run's own result. */
  ghost predicate Settles(out: Outcome, st: map<Elem, Elem>) {
    out.Success? ==>
      var r := ReplayIo(true, out.io, st);
      if NoZeroAsset(out.io) then r.Some? && r.value.ret == Some(out.ret) && r.value.st == out.st
      else r.None?
  }

  lemma {:induction false} RunSettles(ctx: Ctx, prog: seq<Ins>, pc: nat, c: Core, gas: nat, st: map<Elem, Elem>)
    requires Guarded(prog) && GuardInv(prog, pc, c) && Mirrors(st, c)
    ensures Settles(RunFrom(ctx, prog, pc, c, gas), st)
    decreases gas
  {
    hide Exec, ReplayStep, ReplayFold, NoZeroAsset, ZeroAsset;
    if gas > 0 && pc < |prog| && Exec(ctx, prog[pc], c).Some? {
      var ins := prog[pc];
      var c' := Exec(ctx, ins, c).value;
      GuardsAt(prog, pc, c);
      SelExec(ctx, ins, c);
      MirrorStep(ctx, ins, c, st);
      var to := StepAt(ctx, prog, pc, c);
      if to.Go? {
        GuardStep(ctx, prog, pc, c);
        RunSettles(ctx, prog, to.pc, to.core, gas - 1, st);
      }
    }
  }

  lemma {:induction false} MirrorStep(ctx: Ctx, ins: Ins, c: Core, st: map<Elem, Elem>)
    requires Exec(ctx, ins, c).Some? && Mirrors(st, c)
    requires c.asel != 0 ==> ins.op.PAY? || ins.op.AMINT?
    requires ins.op.AMINT? ==> c.asel != 0
    ensures var c' := Exec(ctx, ins, c).value;
            if !ins.op.RET? then Mirrors(st, c')
            else Settles(Success(c.regs[ins.s], c'.st, c'.io), st)
  {
    hide Exec, ReplayStep, ReplayFold, NoZeroAsset, ZeroAsset;
    var c' := Exec(ctx, ins, c).value;
    var r := ReplayFold(true, c.io, st);
    var rep := if r.Some? then r.value else Rep(c.st, [], [], [], None, c.asel);
    EntryMirrors(ctx, ins, c, rep);
    if !(c'.io == c.io && c'.st == c.st && c'.asel == c.asel && !ins.op.RET?) {
      var e :| c'.io == c.io + [e] && Replayed(rep, e, c', if ins.op.RET? then Some(c.regs[ins.s]) else None);
      FoldPush(true, c.io, e, st);
      NoZeroPush(c.io, e);
      if ins.op.RET? { SelExec(ctx, ins, c); }
    }
  }

  /**
   Replay is execution: for a program the gate accepts, the log of any successful call, replayed on the storage the
   call started from, is accepted exactly when it reads, burns or renounces no asset 0, and then gives the call's
   return value and final storage.
   */
  lemma ReplayIsExecution(ctx: Ctx, prog: seq<Ins>, st: map<Elem, Elem>)
    requires Guarded(prog) && Run(ctx, prog, st).Success?
    ensures var out := Run(ctx, prog, st);
            var r := ReplayIo(true, out.io, st);
            && (r.Some? <==> NoZeroAsset(out.io))
            && (r.Some? ==> r.value.ret == Some(out.ret) && r.value.st == out.st)
  {
    NoEarlyCompare(prog);
    RunSettles(ctx, prog, 0, Entry0(ctx, st), GAS_LIMIT, st);
  }

  // ---- exactly one return --------------------------------------------------------------------------

  predicate NoRet(log: seq<Entry>) {
    forall i :: 0 <= i < |log| ==> log[i].kind != IO_RET
  }

  /** A log with one RET, last. */
  predicate EndsInRet(log: seq<Entry>) {
    log != [] && log[|log| - 1].kind == IO_RET && NoRet(log[..|log| - 1])
  }

  lemma RetLogged(ctx: Ctx, ins: Ins, c: Core)
    requires Exec(ctx, ins, c).Some? && NoRet(c.io)
    ensures var c' := Exec(ctx, ins, c).value;
            if ins.op.RET? then c'.io == c.io + [Entry(IO_RET, c.regs[ins.s], 0)] else NoRet(c'.io)
  {
    hide Exec;
    ExecPublishes(ctx, ins, c);
  }

  /** Every successful call's log has exactly one return entry, at its end. */
  lemma {:induction false} OneRet(ctx: Ctx, prog: seq<Ins>, pc: nat, c: Core, gas: nat)
    requires NoRet(c.io)
    ensures var out := RunFrom(ctx, prog, pc, c, gas); out.Success? ==> EndsInRet(out.io)
    decreases gas
  {
    hide Exec;
    if gas > 0 && pc < |prog| && Exec(ctx, prog[pc], c).Some? {
      RetLogged(ctx, prog[pc], c);
      var to := StepAt(ctx, prog, pc, c);
      if to.Go? {
        OneRet(ctx, prog, to.pc, to.core, gas - 1);
      } else {
        assert to.core.io[..|to.core.io| - 1] == c.io;
      }
    }
  }

  // ---- a proven log determines the execution -------------------------------------------------------

  /**
   One instruction with storage taken away: a load returns whatever the oracle says at that point of the log. This
   is what the execution proof establishes -- the program emitted this log for some loaded values.
   */
  function OracleExec(ctx: Ctx, oracle: nat -> Elem, ins: Ins, c: Core): Option<Core> {
    if ins.op.SLOAD? then
      var v := oracle(|c.io|);
      Some(c.Log(IO_SLOAD, c.regs[ins.s], v).Set(ins.d, v))
    else Exec(ctx, ins, c)
  }

  function OracleRun(ctx: Ctx, oracle: nat -> Elem, prog: seq<Ins>, pc: nat, c: Core, gas: nat): Outcome
    decreases gas
  {
    if gas == 0 || pc >= |prog| then Failure
    else
      var ins := prog[pc];
      match OracleExec(ctx, oracle, ins, c)
      case None => Failure
      case Some(c') =>
        if ins.op.RET? then Success(c.regs[ins.s], c'.st, c'.io)
        else if ins.op.JMP? || (ins.op.JNZ? && c.regs[ins.s] != 0) then
          OracleRun(ctx, oracle, prog, ins.imm, c', gas - 1)
        else OracleRun(ctx, oracle, prog, pc + 1, c', gas - 1)
  }

  /** Nothing but storage instructions looks at or changes storage. */
  lemma StorageApart(ctx: Ctx, ins: Ins, c: Core, st: map<Elem, Elem>)
    requires !ins.op.SLOAD?
    ensures match Exec(ctx, ins, c)
            case None => Exec(ctx, ins, c.(st := st)).None?
            case Some(c') =>
              Exec(ctx, ins, c.(st := st)) ==
              Some(c'.(st := if ins.op.SSTORE? then Store(st, c.regs[ins.d], c.regs[ins.s]) else st))
  {
    match ins.op
    case NOP | MOVI | MOV | ADD | SUB | MUL | EQ | NEZ | NOTB | LT | RANGE | LO32 | CTX | ACTX | ARG =>
    case DIVMOD | DIVMODW | JMP | JNZ | REQUIRE | HINIT | HABS | HOUT | SLOAD | SSTORE | BHASH | BEACON =>
    case PAY | ASEL | AMINT | ABURN | ABAL | ARENOUNCE | RET =>
    case HR(_) =>
  }

  lemma LoadExec(ctx: Ctx, ins: Ins, c: Core)
    requires ins.op.SLOAD?
    ensures var v := Load(c.st, c.regs[ins.s]);
            Exec(ctx, ins, c) == Some(c.Log(IO_SLOAD, c.regs[ins.s], v).Set(ins.d, v))
  {
  }

  lemma {:induction false} OracleLogGrows(ctx: Ctx, oracle: nat -> Elem, prog: seq<Ins>, pc: nat, c: Core, gas: nat)
    requires OracleRun(ctx, oracle, prog, pc, c, gas).Success?
    ensures c.io <= OracleRun(ctx, oracle, prog, pc, c, gas).io
    decreases gas
  {
    hide Exec;
    var ins := prog[pc];
    if !ins.op.SLOAD? { LogGrows(ctx, ins, c); }
    var c' := OracleExec(ctx, oracle, ins, c).value;
    if !ins.op.RET? {
      if ins.op.JMP? || (ins.op.JNZ? && c.regs[ins.s] != 0) {
        OracleLogGrows(ctx, oracle, prog, ins.imm, c', gas - 1);
      } else {
        OracleLogGrows(ctx, oracle, prog, pc + 1, c', gas - 1);
      }
    }
  }

  /**
   Soundness of settling by replay. If the program can emit a log at all -- with loaded values taken from anywhere --
   and the log replays on the real storage, then really executing the call on that storage succeeds with the same
   return value and log, and its final storage is the replayed one.
   */
  lemma ProvenLogIsExecution(ctx: Ctx, oracle: nat -> Elem, prog: seq<Ins>, junk: map<Elem, Elem>, st: map<Elem, Elem>)
    requires Guarded(prog) && |ctx.args| <= MAX_ARGS
    requires OracleRun(ctx, oracle, prog, 0, Entry0(ctx, junk), GAS_LIMIT).Success?
    requires ReplayIo(true, OracleRun(ctx, oracle, prog, 0, Entry0(ctx, junk), GAS_LIMIT).io, st).Some?
    ensures var proven := OracleRun(ctx, oracle, prog, 0, Entry0(ctx, junk), GAS_LIMIT);
            Run(ctx, prog, st) ==
            Success(proven.ret, ReplayIo(true, proven.io, st).value.st, proven.io)
  {
    NoEarlyCompare(prog);
    var c := Entry0(ctx, st);
    assert Entry0(ctx, junk) == c.(st := junk);
    OracleIsRun(ctx, oracle, prog, 0, c, junk, GAS_LIMIT, st);
  }

  lemma {:induction false} OracleIsRun(ctx: Ctx, oracle: nat -> Elem, prog: seq<Ins>, pc: nat, c: Core,
                                       junk: map<Elem, Elem>, gas: nat, st: map<Elem, Elem>)
    requires Guarded(prog) && GuardInv(prog, pc, c) && Mirrors(st, c)
    requires OracleRun(ctx, oracle, prog, pc, c.(st := junk), gas).Success?
    requires ReplayFold(true, OracleRun(ctx, oracle, prog, pc, c.(st := junk), gas).io, st).Some?
    ensures var proven := OracleRun(ctx, oracle, prog, pc, c.(st := junk), gas);
            var r := ReplayFold(true, proven.io, st).value;
            RunFrom(ctx, prog, pc, c, gas) == Success(proven.ret, r.st, proven.io)
    decreases gas
  {
    hide Exec, ReplayStep, ReplayFold, NoZeroAsset, ZeroAsset;
    var ins, o := prog[pc], c.(st := junk);
    var proven := OracleRun(ctx, oracle, prog, pc, o, gas);
    var o' := OracleExec(ctx, oracle, ins, o).value;
    OracleStep(ctx, oracle, prog, pc, c, junk, gas, st);
    var c' := Exec(ctx, ins, c).value;
    GuardsAt(prog, pc, c);
    MirrorStep(ctx, ins, c, st);
    if ins.op.RET? {
      RetSettles(st, c', proven);
    } else {
      GuardStep(ctx, prog, pc, c);
      var to := StepAt(ctx, prog, pc, c);
      assert o' == c'.(st := o'.st);
      OracleIsRun(ctx, oracle, prog, to.pc, c', o'.st, gas - 1, st);
    }
  }

  lemma RetSettles(st: map<Elem, Elem>, c': Core, proven: Outcome)
    requires proven.Success? && proven.io == c'.io && ReplayFold(true, proven.io, st).Some?
    requires Settles(Success(proven.ret, c'.st, c'.io), st)
    requires NoZeroAsset(c'.io) || ReplayIo(true, c'.io, st).None?
    ensures ReplayFold(true, proven.io, st).value.st == c'.st
  {
    FoldZero(c'.io, st);
  }

  /** A log with an asset-0 entry does not fold. */
  lemma FoldZero(log: seq<Entry>, st: map<Elem, Elem>)
    requires ReplayFold(true, log, st).Some?
    ensures NoZeroAsset(log)
  {
    if log != [] {
      FoldZero(log[..|log| - 1], st);
      NoZeroPush(log[..|log| - 1], log[|log| - 1]);
      assert log[..|log| - 1] + [log[|log| - 1]] == log;
    }
  }

  /** The real machine takes the oracle's step, because the log replays. */
  lemma {:induction false} OracleStep(ctx: Ctx, oracle: nat -> Elem, prog: seq<Ins>, pc: nat, c: Core,
                                      junk: map<Elem, Elem>, gas: nat, st: map<Elem, Elem>)
    requires Mirrors(st, c) && OracleRun(ctx, oracle, prog, pc, c.(st := junk), gas).Success?
    requires ReplayFold(true, OracleRun(ctx, oracle, prog, pc, c.(st := junk), gas).io, st).Some?
    ensures pc < |prog| && gas > 0 && OracleExec(ctx, oracle, prog[pc], c.(st := junk)).Some?
    ensures Exec(ctx, prog[pc], c).Some?
    ensures var o' := OracleExec(ctx, oracle, prog[pc], c.(st := junk)).value;
            o' == Exec(ctx, prog[pc], c).value.(st := o'.st)
  {
    hide Exec, ReplayFold, NoZeroAsset, ZeroAsset;
    var ins, o := prog[pc], c.(st := junk);
    var o' := OracleExec(ctx, oracle, ins, o).value;
    if ins.op.SLOAD? {
      var log := OracleRun(ctx, oracle, prog, pc, o, gas).io;
      OracleLogGrows(ctx, oracle, prog, pc + 1, o', gas - 1);
      assert log[..|o'.io|] == o'.io;
      if ReplayFold(true, o'.io, st).None? { FoldStops(true, log, st, |o'.io|); }
      var e := Entry(IO_SLOAD, c.regs[ins.s], oracle(|c.io|));
      assert o'.io == c.io + [e];
      FoldPush(true, c.io, e, st);
      LoadExec(ctx, ins, c);
    } else {
      StorageApart(ctx, ins, c, junk);
    }
  }
}
