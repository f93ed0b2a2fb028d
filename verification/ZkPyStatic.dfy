/** Facts about emitted lines that can be read off the text: what they write and which guards they respect. */
module ZkPyStatic {
  import opened Options
  import opened Field
  import opened ZkVM
  import opened ZkAsm
  import opened AsmSimulation
  import opened ZkPyExpr
  import ZkPyCorrect
  import ZkPyEval

  /** The registers a line may change. */
  function Writes(line: Line): set<Reg> {
    match line
    case Label(_) => {}
    case Jmp(_) => {}
    case Jnz(_, _) => {}
    case AssetMove(_, _, _, _) => {}
    case Rem(_, d, _) => {d, 7}
    case Plain(op, d, _) =>
      match op {
        case DIVMOD | DIVMODW => {d, 7}
        case SSTORE | PAY | ABURN | ARENOUNCE | REQUIRE | RET | RANGE | HINIT | HABS | NOP => {}
        case _ => {d}
      }
    case Hash(d, _) => {d}
    case Slot(d, _, _) => {d}
    case Lt(d, _) => {d}
    case Gte(d, _) => {d}
    case CtxOf(d, _) => {d}
    case ActxOf(d, _) => {d}
    case Movi(d, _) => {d}
  }

  /** Writes is an upper bound on what executing the line changes. */
  lemma WritesSound(ctx: ZkVM.Ctx, line: Line, c: Core, r: Reg)
    requires ExecLine(ctx, line, c).Some? && r !in Writes(line)
    requires line.Plain? ==> Authorable(line.op)
    ensures ExecLine(ctx, line, c).value.regs[r] == c.regs[r]
  {
  }

  /** Straight-line code that passes the assembler's guards and stays inside the given registers. */
  predicate Tame(line: Line, regs: set<Reg>) {
    && !line.Label? && !line.Jmp? && !line.Jnz? && !IsRet(line)
    && SlotOk(line)
    && (line.Rem? ==> line.d != line.s && line.d != 7)
    && Writes(line) <= regs + {7}
    && (line.Plain? ==> Authorable(line.op))
    && (line.Plain? && (line.op.DIVMOD? || line.op.DIVMODW?) ==> line.d != 7)
  }

  predicate AllTame(lines: seq<Line>, regs: set<Reg>) {
    forall i :: 0 <= i < |lines| ==> Tame(lines[i], regs)
  }

  lemma TameMono(line: Line, regs: set<Reg>, more: set<Reg>)
    requires Tame(line, regs) && regs <= more
    ensures Tame(line, more)
  {
  }

  lemma TameAppend(a: seq<Line>, b: seq<Line>, ra: set<Reg>, rb: set<Reg>, regs: set<Reg>)
    requires AllTame(a, ra) && AllTame(b, rb) && ra <= regs && rb <= regs
    ensures AllTame(a + b, regs)
  {
    hide Tame;
    forall i | 0 <= i < |a + b| ensures Tame((a + b)[i], regs) {
      if i < |a| { TameMono(a[i], ra, regs); } else { TameMono(b[i - |a|], rb, regs); }
    }
  }

  /** Following lowered code by one plain line that writes a free register or none. */
  lemma TamePush(a: seq<Line>, line: Line, free: set<Reg>)
    requires AllTame(a, free) && Tame(line, free)
    ensures AllTame(a + [line], free)
  {
    hide Tame;
  }

  lemma OwnTame(c: Code, free: set<Reg>)
    requires free <= TEMPS && Fits(c, free) && Own(c).Some? && AllTame(c.lines, free)
    ensures AllTame(Own(c).value.lines, free)
  {
    hide AllTame;
    if !c.owned {
      var mov := Plain(MOV, Own(c).value.reg, c.reg);
      TamePush(c.lines, mov, free);
    }
  }

  /**
   Lowered code writes only registers that were free and r7, never trips the rem guard, and never uses slot with
   equal registers -- so a register kept by m.set is not written by anything emitted afterwards.
   */
  lemma {:induction false} MatTame(v: Val, names: seq<Reg>, free: set<Reg>)
    requires Pinned(names, free) && Mat(v, names, free).Some?
    ensures AllTame(Mat(v, names, free).value.lines, free)
    decreases v, 1
  {
    hide Tame, AllTame;
    match v
    case Temp(_) => NoneTame(free);
    case Const(_) => LeafTame(v, names, free);
    case Arg(_) => LeafTame(v, names, free);
    case Ctx(_) => LeafTame(v, names, free);
    case Actx(_) => LeafTame(v, names, free);
    case Sload(cell) =>
      AddrTame(cell, names, free);
      var at, code := MatAddr(cell, names, free).value, Mat(v, names, free).value;
      PlainTame(SLOAD, code.reg, at.reg, free);
      TamePush(at.lines, Plain(SLOAD, code.reg, at.reg), free);
    case Read(op, a) =>
      MatTame(a, names, free);
      var x, code := Mat(a, names, free).value, Mat(v, names, free).value;
      PlainTame(ReadCode(op), code.reg, x.reg, free);
      TamePush(x.lines, Plain(ReadCode(op), code.reg, x.reg), free);
    case Hash(els) =>
      AllMatTame(els, names, free);
      var xs, code := MatAll(els, names, free).value, Mat(v, names, free).value;
      HashTame(code.reg, xs.regs, free);
      TamePush(xs.lines, Line.Hash(code.reg, xs.regs), free);
    case Lo32(a) => UnaryTame(v, a, names, free);
    case Notb(a) => UnaryTame(v, a, names, free);
    case Bin(_, _, _) => BinTame(v, names, free);
    case Muldiv(_, _, _) => MuldivTame(v, names, free);
    case Mux(_, _, _) => MuxTame(v, names, free);
  }

  lemma NoneTame(free: set<Reg>)
    ensures AllTame([], free)
  {
  }

  lemma LeafTame(v: Val, names: seq<Reg>, free: set<Reg>)
    requires Pinned(names, free) && Mat(v, names, free).Some? && (v.Const? || v.Arg? || v.Ctx? || v.Actx?)
    ensures AllTame(Mat(v, names, free).value.lines, free)
  {
  }

  /** Plain value-producing lines. */
  lemma PlainTame(op: Op, d: Reg, s: Reg, free: set<Reg>)
    requires d in free && free <= TEMPS && Authorable(op) && !op.RET?
    ensures Tame(Plain(op, d, s), free)
  {
  }

  lemma HashTame(d: Reg, srcs: seq<Reg>, free: set<Reg>)
    requires d in free
    ensures Tame(Line.Hash(d, srcs), free)
  {
  }

  lemma BinOpTame(op: BinOp, d: Reg, s: Reg, free: set<Reg>)
    requires d in free && free <= TEMPS && d != s
    ensures AllTame(BinLines(op, d, s), free)
  {
  }

  lemma {:induction false} UnaryTame(v: Val, a: Val, names: seq<Reg>, free: set<Reg>)
    requires Pinned(names, free) && (v == Lo32(a) || v == Notb(a)) && Mat(v, names, free).Some?
    ensures AllTame(Mat(v, names, free).value.lines, free)
    decreases v, 0
  {
    hide Tame, AllTame;
    MatTame(a, names, free);
    var x := Mat(a, names, free).value;
    OwnTame(x, free);
    var d := Own(x).value;
    var op := if v.Lo32? then LO32 else NOTB;
    PlainTame(op, d.reg, 0, free);
    TamePush(d.lines, Plain(op, d.reg, 0), free);
  }

  lemma {:induction false} BinTame(v: Val, names: seq<Reg>, free: set<Reg>)
    requires Pinned(names, free) && v.Bin? && Mat(v, names, free).Some?
    ensures AllTame(Mat(v, names, free).value.lines, free)
    decreases v, 0
  {
    var d, y := ZkPyCorrect.BinShape(v, names, free);
    hide Mat, Tame, AllTame, BinLines;
    MatTame(First(v), names, free);
    OwnTame(OwnSource(First(v), names, free, d), free);
    MatTame(Second(v), names, d.free);
    var op := BinLines(v.op, d.reg, y.reg);
    BinOpTame(v.op, d.reg, y.reg, free);
    TameAppend(y.lines, op, d.free, free, free);
    TameAppend(d.lines, y.lines + op, free, free, free);
  }

  /** The code an owned operand was copied from. */
  function OwnSource(v: Val, names: seq<Reg>, free: set<Reg>, d: Code): (x: Code)
    requires Pinned(names, free) && OwnedCode(v, names, free) == Some(d)
    ensures Mat(v, names, free) == Some(x) && Fits(x, free) && Own(x) == Some(d)
  {
    Mat(v, names, free).value
  }

  lemma {:induction false} MuldivTame(v: Val, names: seq<Reg>, free: set<Reg>)
    requires Pinned(names, free) && v.Muldiv? && Mat(v, names, free).Some?
    ensures AllTame(Mat(v, names, free).value.lines, free)
    decreases v, 0
  {
    var d, y, z := ZkPyCorrect.MuldivShape(v, names, free);
    hide Mat, Tame, AllTame;
    MatTame(v.a, names, free);
    OwnTame(OwnSource(v.a, names, free, d), free);
    MatTame(v.b, names, d.free);
    MatTame(v.c, names, d.free);
    var mul, div := [Plain(MUL, d.reg, y.reg)], [Plain(DIVMODW, d.reg, z.reg)];
    PlainTame(MUL, d.reg, y.reg, free);
    PlainTame(DIVMODW, d.reg, z.reg, free);
    OneTame(mul[0], free);
    OneTame(div[0], free);
    TameAppend(z.lines, div, d.free, free, free);
    TameAppend(mul, z.lines + div, free, free, free);
    TameAppend(y.lines, mul + (z.lines + div), d.free, free, free);
    TameAppend(d.lines, y.lines + (mul + (z.lines + div)), free, free, free);
  }

  lemma OneTame(line: Line, free: set<Reg>)
    requires Tame(line, free)
    ensures AllTame([line], free)
  {
  }

  lemma MuxLinesTame(d: Reg, k: Reg, t: Reg, f: Reg, free: set<Reg>)
    requires d in free && free <= TEMPS
    ensures AllTame(MuxLines(d, k, t, f), free)
  {
  }

  lemma {:induction false} MuxTame(v: Val, names: seq<Reg>, free: set<Reg>)
    requires Pinned(names, free) && v.Mux? && Mat(v, names, free).Some?
    ensures AllTame(Mat(v, names, free).value.lines, free)
    decreases v, 0
  {
    var k, t, f, code := ZkPyCorrect.MuxShape(v, names, free);
    hide Mat, Tame, AllTame, MuxLines;
    MatTame(v.cond, names, free);
    OwnTame(OwnSource(v.cond, names, free, k), free);
    MatTame(v.a, names, k.free);
    MatTame(v.b, names, t.free);
    var nez, mux := [Plain(NEZ, k.reg, 0)], MuxLines(code.reg, k.reg, t.reg, f.reg);
    PlainTame(NEZ, k.reg, 0, free);
    OneTame(nez[0], free);
    MuxLinesTame(code.reg, k.reg, t.reg, f.reg, free);
    TameAppend(f.lines, mux, t.free, free, free);
    TameAppend(t.lines, f.lines + mux, k.free, free, free);
    TameAppend(nez, t.lines + (f.lines + mux), free, free, free);
    TameAppend(k.lines, nez + (t.lines + (f.lines + mux)), free, free, free);
  }

  lemma {:induction false} AddrTame(cell: Cell, names: seq<Reg>, free: set<Reg>)
    requires Pinned(names, free) && MatAddr(cell, names, free).Some?
    ensures AllTame(MatAddr(cell, names, free).value.lines, free)
    decreases cell, 0
  {
    hide Tame, AllTame;
    MatTame(cell.key, names, free);
    var k, code := Mat(cell.key, names, free).value, MatAddr(cell, names, free).value;
    if cell.At? {
      OwnTame(k, free);
    } else {
      SlotTame(code.reg, cell.field, k.reg, free);
      TamePush(k.lines, Slot(code.reg, cell.field, k.reg), free);
    }
  }

  lemma SlotTame(d: Reg, field: int, k: Reg, free: set<Reg>)
    requires d in free && d != k
    ensures Tame(Slot(d, field, k), free)
  {
  }

  lemma {:induction false} AllMatTame(els: seq<Val>, names: seq<Reg>, free: set<Reg>)
    requires Pinned(names, free) && MatAll(els, names, free).Some?
    ensures AllTame(MatAll(els, names, free).value.lines, free)
    decreases els, 0
  {
    hide Tame, AllTame;
    NoneTame(free);
    if els != [] {
      var n := |els| - 1;
      AllMatTame(els[..n], names, free);
      var xs := MatAll(els[..n], names, free).value;
      MatTame(els[n], names, xs.free);
      TameAppend(xs.lines, Mat(els[n], names, xs.free).value.lines, free, xs.free, free);
    }
  }

  // ---- what lines write and read -------------------------------------------------------------------

  /** The registers a list of lines may change. */
  function Touched(lines: seq<Line>): set<Reg> {
    if lines == [] then {} else Writes(lines[0]) + Touched(lines[1..])
  }

  lemma {:induction false} TouchedAt(lines: seq<Line>, r: Reg)
    ensures r in Touched(lines) <==> exists i :: 0 <= i < |lines| && r in Writes(lines[i])
  {
    hide Writes;
    if lines != [] {
      TouchedAt(lines[1..], r);
      if r in Touched(lines[1..]) {
        var i :| 0 <= i < |lines[1..]| && r in Writes(lines[1..][i]);
        assert lines[i + 1] == lines[1..][i];
      }
      if i :| 0 <= i < |lines| && r in Writes(lines[i]) {
        if i > 0 { assert lines[1..][i - 1] == lines[i]; }
      }
    }
  }

  lemma {:induction false} UntouchedKept(ctx: ZkVM.Ctx, lines: seq<Line>, c: Core, r: Reg)
    requires ZkPyEval.ExecLines(ctx, lines, c).Some? && r !in Touched(lines)
    requires forall i :: 0 <= i < |lines| && lines[i].Plain? ==> Authorable(lines[i].op)
    ensures ZkPyEval.ExecLines(ctx, lines, c).value.regs[r] == c.regs[r]
    decreases |lines|
  {
    hide ExecLine, Writes;
    if lines != [] {
      WritesSound(ctx, lines[0], c, r);
      UntouchedKept(ctx, lines[1..], ExecLine(ctx, lines[0], c).value, r);
    }
  }

  lemma {:induction false} MatReads(v: Val, names: seq<Reg>, free: set<Reg>)
    requires Pinned(names, free) && Mat(v, names, free).Some?
    ensures TempsIn(v, Numbered(|names|))
    decreases v
  {
    match v
    case Temp(_) =>
    case Const(_) =>
    case Arg(_) =>
    case Ctx(_) =>
    case Actx(_) =>
    case Sload(cell) => AddrReads(cell, names, free);
    case Read(_, a) => MatReads(a, names, free);
    case Hash(els) => AllReads(els, names, free);
    case Lo32(a) => MatReads(a, names, free);
    case Notb(a) => MatReads(a, names, free);
    case Bin(_, _, _) =>
      MatReads(First(v), names, free);
      MatReads(Second(v), names, Own(Mat(First(v), names, free).value).value.free);
    case Muldiv(a, b, c) =>
      MatReads(a, names, free);
      var d := Own(Mat(a, names, free).value).value;
      MatReads(b, names, d.free);
      MatReads(c, names, Mat(b, names, d.free).value.Given());
    case Mux(k, a, b) =>
      MatReads(k, names, free);
      var d := Own(Mat(k, names, free).value).value;
      MatReads(a, names, d.free);
      MatReads(b, names, Mat(a, names, d.free).value.free);
  }

  lemma {:induction false} AddrReads(cell: Cell, names: seq<Reg>, free: set<Reg>)
    requires Pinned(names, free) && MatAddr(cell, names, free).Some?
    ensures TempsIn(cell.key, Numbered(|names|))
    decreases cell
  {
    MatReads(cell.key, names, free);
  }

  lemma {:induction false} AllReads(els: seq<Val>, names: seq<Reg>, free: set<Reg>)
    requires Pinned(names, free) && MatAll(els, names, free).Some?
    ensures forall e :: e in els ==> TempsIn(e, Numbered(|names|))
    decreases els
  {
    if els != [] {
      var n := |els| - 1;
      AllReads(els[..n], names, free);
      MatReads(els[n], names, MatAll(els[..n], names, free).value.free);
    }
  }
}
