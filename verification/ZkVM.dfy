/**
 The provable register machine of execnode/zkvm.py: eight registers of field elements, an alghash sponge,
 flat storage, pending asset moves, and an ordered public I/O log.
 */
module ZkVM {
  import opened Options
  import opened Field

  const GAS_LIMIT: nat := 131070
  const ROUNDS: nat := 27
  const MAX_ARGS: nat := 1024

  type Reg = r: nat | r < 8
  type Regs = s: seq<Elem> | |s| == 8 witness [0, 0, 0, 0, 0, 0, 0, 0]

  datatype Op =
    | NOP | MOVI | MOV | ADD | SUB | MUL | EQ | NEZ | NOTB | LT | RANGE | DIVMOD | LO32
    | JMP | JNZ | REQUIRE | CTX | HINIT | HABS | HOUT | HR(round: nat)
    | SLOAD | SSTORE | PAY | BHASH | BEACON | RET | ARG | DIVMODW
    | ASEL | AMINT | ABURN | ABAL | ACTX | ARENOUNCE

  /** One instruction [op, d, s, imm]; an unused operand is 0. */
  datatype Ins = Ins(op: Op, d: Reg, s: Reg, imm: nat)

  datatype Kind =
    | IO_SLOAD | IO_SSTORE | IO_PAY | IO_BHASH | IO_BEACON | IO_RET
    | IO_ASEL | IO_AMINT | IO_ABURN | IO_ABAL | IO_ARENOUNCE

  datatype Entry = Entry(kind: Kind, a: Elem, b: Elem)

  /** Round constants and capacity start value of the alghash sponge (BLAKE2b-derived in the source). */
  datatype Sponge = Sponge(rc: nat -> (Elem, Elem), iv: Elem)

  /** Everything a call reads and cannot change. */
  datatype Ctx = Ctx(caller: nat, value: nat, cursor: nat, time: nat, asset: nat, selfd: nat,
                     args: seq<Elem>, blockHashes: map<Elem, nat>, beacons: map<Elem, nat>,
                     abal: map<Elem, nat>, sponge: Sponge)
  {
    function ArgOrZero(i: nat): Elem {
      if i < |args| then args[i] else 0
    }

    /** The four CTX values: caller, value, cursor, time. */
    function CtxValue(i: nat): Elem
      requires i < 4
    {
      [caller, value, cursor, time][i] % P
    }

    /** The ACTX values: escrowed asset, own digest, and two reserved zeros. */
    function ActxValue(i: nat): Elem
      requires i < 4
    {
      [asset, selfd, 0, 0][i] % P
    }
  }

  /** The machine without its program counter. */
  datatype Core = Core(regs: Regs, h0: Elem, h1: Elem, st: map<Elem, Elem>, io: seq<Entry>,
                       asel: Elem, apend: map<Elem, int>)
  {
    function Set(r: Reg, v: Elem): Core {
      this.(regs := regs[r := v])
    }

    function Log(kind: Kind, a: Elem, b: Elem): Core {
      this.(io := io + [Entry(kind, a, b)])
    }
  }

  function Load(st: map<Elem, Elem>, slot: Elem): Elem {
    if slot in st then st[slot] else 0
  }

  /** A zero write deletes, so storage never holds a zero it was given by SSTORE. */
  function Store(st: map<Elem, Elem>, slot: Elem, v: Elem): map<Elem, Elem> {
    if v == 0 then st - {slot} else st[slot := v]
  }

  // ---- the alghash sponge --------------------------------------------------------------------------

  function Pow7(x: Elem): Elem {
    var x2 := Mul(x, x);
    Mul(Mul(Mul(x2, x2), x2), x)
  }

  function Round(sp: Sponge, r: nat, h: (Elem, Elem)): (Elem, Elem) {
    var t0 := Pow7(Add(h.0, sp.rc(r).0));
    var t1 := Pow7(Add(h.1, sp.rc(r).1));
    (Add(Mul(2, t0), t1), Add(t0, Mul(3, t1)))
  }

  /** The rounds in order, as the assembler lists their opcodes. */
  function RoundOrder(): (rounds: seq<nat>)
    ensures |rounds| == ROUNDS
    ensures forall r :: 0 <= r < ROUNDS ==> rounds[r] == r
  {
    seq(ROUNDS, r requires 0 <= r < ROUNDS => r)
  }

  function Permute(sp: Sponge, rounds: seq<nat>, h: (Elem, Elem)): (Elem, Elem) {
    if rounds == [] then h else Permute(sp, rounds[1..], Round(sp, rounds[0], h))
  }

  /** alghash.hashn's sponge: absorb each element into the rate, permute. */
  function Absorb(sp: Sponge, xs: seq<Elem>, h: (Elem, Elem)): (Elem, Elem) {
    if xs == [] then h else Absorb(sp, xs[1..], Permute(sp, RoundOrder(), (Add(h.0, xs[0]), h.1)))
  }

  function HashN(sp: Sponge, xs: seq<Elem>): Elem {
    Absorb(sp, xs, (0, sp.iv)).0
  }

  // ---- asset holding -------------------------------------------------------------------------------

  function Pending(apend: map<Elem, int>, a: Elem): int {
    if a in apend then apend[a] else 0
  }

  /** The contract's holding of asset a, counting this call's own pending moves. */
  function Holding(ctx: Ctx, apend: map<Elem, int>, a: Elem): int {
    (if a in ctx.abal then ctx.abal[a] else 0) + Pending(apend, a)
  }

  function Spend(ctx: Ctx, apend: map<Elem, int>, a: Elem, amt: Elem): Option<map<Elem, int>> {
    if amt > Holding(ctx, apend, a) then None else Some(apend[a := Pending(apend, a) - amt])
  }

  /** The part of PAY that moves an asset: paying oneself leaves one's own holding alone. */
  function PayAsset(ctx: Ctx, apend: map<Elem, int>, asset: Elem, to: Elem, amt: Elem): Option<map<Elem, int>> {
    if ctx.ActxValue(1) != 0 && to == ctx.ActxValue(1) then Some(apend) else Spend(ctx, apend, asset, amt)
  }

  function MintAsset(ctx: Ctx, apend: map<Elem, int>, asset: Elem, to: Elem, amt: Elem): map<Elem, int> {
    if ctx.ActxValue(1) != 0 && to == ctx.ActxValue(1)
    then apend[asset := Pending(apend, asset) + amt] else apend
  }

  // ---- one instruction -----------------------------------------------------------------------------

  function Bit(b: bool): Elem {
    if b then 1 else 0
  }

  /** x op y for the windowed divisions; None where the machine reverts. */
  function DivRem(wide: bool, x: Elem, y: Elem): Option<(Elem, Elem)> {
    var divisorCap := if wide then 0x8000_0000 else 0x8000;
    var quotientCap := if wide then TWO_32 else 0x1_0000_0000_0000;
    if !(1 <= y <= divisorCap) then None
    else if x / y >= quotientCap then None
    else
      DivWithinField(x, y);
      Some((x / y, x % y))
  }

  lemma DivWithinField(x: nat, y: nat)
    requires 1 <= y
    ensures 0 <= x / y <= x
    ensures 0 <= x % y < y
  {
  }

  /**
   The data effect of one instruction; None is a revert. Jumps have none, and RET only logs.
   Deployed immediates are below P (ValidCode), so the reduction in MOVI never changes one.
   */
  function Exec(ctx: Ctx, ins: Ins, c: Core): Option<Core> {
    var d, s, imm := ins.d, ins.s, ins.imm;
    var rd, rs := c.regs[d], c.regs[s];
    match ins.op
    case NOP => Some(c)
    case MOVI => Some(c.Set(d, imm % P))
    case MOV => Some(c.Set(d, rs))
    case ADD => Some(c.Set(d, Add(rd, rs)))
    case SUB => Some(c.Set(d, Sub(rd, rs)))
    case MUL => Some(c.Set(d, Mul(rd, rs)))
    case EQ => Some(c.Set(d, Bit(Sub(rd, rs) == 0)))
    case NEZ => Some(c.Set(d, Bit(rd != 0)))
    case NOTB => if rd > 1 then None else Some(c.Set(d, 1 - rd))
    case LT =>
      var distance := if rd < rs then rs - rd - 1 else rd - rs;
      if distance >= TWO_63 then None else Some(c.Set(d, Bit(rd < rs)))
    case RANGE => if rd >= TWO_62 then None else Some(c)
    case DIVMOD =>
      var qr :- DivRem(false, rd, rs);
      Some(c.Set(7, qr.1).Set(d, qr.0))
    case DIVMODW =>
      var qr :- DivRem(true, rd, rs);
      Some(c.Set(7, qr.1).Set(d, qr.0))
    case LO32 =>
      if rd / TWO_32 == TWO_32 - 1 && rd % TWO_32 != 0 then None else Some(c.Set(d, rd % TWO_32))
    case JMP => Some(c)
    case JNZ => Some(c)
    case REQUIRE => if rs == 0 then None else Some(c)
    case CTX => if imm > 3 then None else Some(c.Set(d, ctx.CtxValue(imm)))
    case ACTX => if imm > 3 then None else Some(c.Set(d, ctx.ActxValue(imm)))
    case HINIT => Some(c.(h0 := 0, h1 := ctx.sponge.iv))
    case HABS => Some(c.(h0 := Add(c.h0, rs)))
    case HOUT => Some(c.Set(d, c.h0))
    case HR(r) =>
      var h := Round(ctx.sponge, r, (c.h0, c.h1));
      Some(c.(h0 := h.0, h1 := h.1))
    case SLOAD => Some(c.Log(IO_SLOAD, rs, Load(c.st, rs)).Set(d, Load(c.st, rs)))
    case SSTORE => Some(c.(st := Store(c.st, rd, rs)).Log(IO_SSTORE, rd, rs))
    case PAY =>
      if c.asel == 0 then Some(c.Log(IO_PAY, rd, rs))
      else
        var ap :- PayAsset(ctx, c.apend, c.asel, rd, rs);
        Some(c.(apend := ap, asel := 0).Log(IO_PAY, rd, rs))
    case BHASH =>
      if rs !in ctx.blockHashes then None
      else Some(c.Log(IO_BHASH, rs, ctx.blockHashes[rs] % P).Set(d, ctx.blockHashes[rs] % P))
    case BEACON =>
      if rs !in ctx.beacons then None
      else Some(c.Log(IO_BEACON, rs, ctx.beacons[rs] % P).Set(d, ctx.beacons[rs] % P))
    case ARG => if rs >= |ctx.args| then None else Some(c.Set(d, ctx.args[rs]))
    case ASEL => if rs == 0 then None else Some(c.(asel := rs).Log(IO_ASEL, rs, 0))
    case AMINT =>
      Some(c.(apend := MintAsset(ctx, c.apend, c.asel, rd, rs), asel := 0).Log(IO_AMINT, rd, rs))
    case ABURN =>
      var ap :- Spend(ctx, c.apend, rd, rs);
      Some(c.(apend := ap).Log(IO_ABURN, rd, rs))
    case ABAL =>
      var v := Holding(ctx, c.apend, rs) % P;
      Some(c.Log(IO_ABAL, rs, v).Set(d, v))
    case ARENOUNCE => Some(c.Log(IO_ARENOUNCE, rd, 0))
    case RET => Some(c.Log(IO_RET, rs, 0))
  }

  // ---- runs ----------------------------------------------------------------------------------------

  datatype Step = Go(pc: nat, core: Core) | Halt(ret: Elem, core: Core) | Revert

  /** One trip round the interpreter loop; a program counter outside the program reverts. */
  function StepAt(ctx: Ctx, prog: seq<Ins>, pc: nat, c: Core): Step {
    if pc >= |prog| then Revert
    else
      var ins := prog[pc];
      match Exec(ctx, ins, c)
      case None => Revert
      case Some(c') =>
        if ins.op.RET? then Halt(c.regs[ins.s], c')
        else if ins.op.JMP? || (ins.op.JNZ? && c.regs[ins.s] != 0) then Go(ins.imm, c')
        else Go(pc + 1, c')
  }

  datatype Outcome = Success(ret: Elem, st: map<Elem, Elem>, io: seq<Entry>) | Failure

  /** The whole run from (pc, c) with the given number of steps left. */
  function RunFrom(ctx: Ctx, prog: seq<Ins>, pc: nat, c: Core, gas: nat): Outcome
    decreases gas
  {
    if gas == 0 then Failure
    else
      match StepAt(ctx, prog, pc, c)
      case Revert => Failure
      case Halt(ret, c') => Success(ret, c'.st, c'.io)
      case Go(pc', c') => RunFrom(ctx, prog, pc', c', gas - 1)
  }

  /** The state a call starts in: the first eight arguments preloaded, everything else clear. */
  function Entry0(ctx: Ctx, st: map<Elem, Elem>): Core {
    Core(seq(8, i requires 0 <= i < 8 => ctx.ArgOrZero(i)), 0, 0, st, [], 0, map[])
  }

  function Run(ctx: Ctx, prog: seq<Ins>, st: map<Elem, Elem>): Outcome {
    if |ctx.args| > MAX_ARGS then Failure else RunFrom(ctx, prog, 0, Entry0(ctx, st), GAS_LIMIT)
  }

  /** The interpreter loop itself. */
  method Interpret(ctx: Ctx, prog: seq<Ins>, st: map<Elem, Elem>) returns (out: Outcome)
    ensures out == Run(ctx, prog, st)
  {
    if |ctx.args| > MAX_ARGS {
      return Failure;
    }
    var pc, core, gas := 0, Entry0(ctx, st), 0;
    while true
      invariant gas <= GAS_LIMIT
      invariant RunFrom(ctx, prog, pc, core, GAS_LIMIT - gas) == Run(ctx, prog, st)
      decreases GAS_LIMIT - gas
    {
      if gas >= GAS_LIMIT {
        return Failure;
      }
      gas := gas + 1;
      match StepAt(ctx, prog, pc, core) {
        case Revert => return Failure;
        case Halt(ret, c) => return Success(ret, c.st, c.io);
        case Go(next, c) => pc, core := next, c;
      }
    }
  }
}
