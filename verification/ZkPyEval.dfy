/**
 What a zkpy expression means, and the proof that lowered code computes it: same value, same log, same reverts,
 and nothing outside the free list (and r7) disturbed.
 */
module ZkPyEval {
  import opened Options
  import opened Field
  import opened ZkVM
  import opened ZkAsm
  import opened AsmSimulation
  import opened ZkPyExpr

  // ---- meaning -------------------------------------------------------------------------------------

  /** What an expression may read besides the call context: kept temporaries, storage, pending asset moves. */
  datatype Src = Src(temps: map<nat, Elem>, st: map<Elem, Elem>, apend: map<Elem, int>)

  /** A value together with the I/O entries its evaluation publishes. */
  datatype Seen = Seen(x: Elem, log: seq<Entry>)
  datatype SeenAll = SeenAll(xs: seq<Elem>, log: seq<Entry>)

  function BinMeaning(op: BinOp, x: Elem, y: Elem): Option<Elem> {
    match op
    case AddOp => Some(Add(x, y))
    case SubOp => Some(Sub(x, y))
    case MulOp => Some(Mul(x, y))
    case DivOp =>
      var qr :- DivRem(false, x, y);
      Some(qr.0)
    case ModOp =>
      var qr :- DivRem(false, x, y);
      Some(qr.1)
    case EqOp => Some(Bit(x == y))
    case NeOp => Some(Bit(x != y))
    case LtOp => if x >= TWO_62 || y >= TWO_62 then None else Some(Bit(x < y))
    case LeOp => if x >= TWO_62 || y >= TWO_62 then None else Some(Bit(x <= y))
  }

  function ReadMeaning(ctx: ZkVM.Ctx, apend: map<Elem, int>, op: ReadOp, x: Elem): Option<Seen> {
    match op
    case ReadBhash =>
      if x !in ctx.blockHashes then None
      else Some(Seen(ctx.blockHashes[x] % P, [Entry(IO_BHASH, x, ctx.blockHashes[x] % P)]))
    case ReadBeacon =>
      if x !in ctx.beacons then None
      else Some(Seen(ctx.beacons[x] % P, [Entry(IO_BEACON, x, ctx.beacons[x] % P)]))
    case ReadAbal =>
      var v := Holding(ctx, apend, x) % P;
      Some(Seen(v, [Entry(IO_ABAL, x, v)]))
  }

  /** Strict evaluation, operands in emission order; None is a revert. */
  function Eval(ctx: ZkVM.Ctx, s: Src, v: Val): Option<Seen>
    decreases v
  {
    match v
    case Temp(t) => if t in s.temps then Some(Seen(s.temps[t], [])) else None
    case Const(n) => Some(Seen(n % TWO_64 % P, []))
    case Arg(i) =>
      if i == 0 then Some(Seen(ctx.ArgOrZero(0), []))
      else if 0 <= i < |ctx.args| then Some(Seen(ctx.args[i], []))
      else None
    case Ctx(w) => Some(Seen(if w < 4 then ctx.CtxValue(w) else 0, []))
    case Actx(w) => Some(Seen(if w < 4 then ctx.ActxValue(w) else 0, []))
    case Sload(cell) =>
      var at :- EvalAddr(ctx, s, cell);
      Some(Seen(Load(s.st, at.x), at.log + [Entry(IO_SLOAD, at.x, Load(s.st, at.x))]))
    case Read(op, a) =>
      var x :- Eval(ctx, s, a);
      var got :- ReadMeaning(ctx, s.apend, op, x.x);
      Some(Seen(got.x, x.log + got.log))
    case Hash(els) =>
      var xs :- EvalAll(ctx, s, els);
      Some(Seen(HashN(ctx.sponge, xs.xs), xs.log))
    case Lo32(a) =>
      var x :- Eval(ctx, s, a);
      Some(x.(x := x.x % TWO_32))
    case Notb(a) =>
      var x :- Eval(ctx, s, a);
      if x.x > 1 then None else Some(x.(x := 1 - x.x))
    case Bin(op, a, b) =>
      var x :- Eval(ctx, s, First(v));
      var y :- Eval(ctx, s, Second(v));
      var z :- if op.LeOp? then BinMeaning(op, y.x, x.x) else BinMeaning(op, x.x, y.x);
      Some(Seen(z, x.log + y.log))
    case Muldiv(a, b, c) =>
      var x :- Eval(ctx, s, a);
      var y :- Eval(ctx, s, b);
      var z :- Eval(ctx, s, c);
      var qr :- DivRem(true, Mul(x.x, y.x), z.x);
      Some(Seen(qr.0, x.log + y.log + z.log))
    case Mux(k, a, b) =>
      var x :- Eval(ctx, s, k);
      var t :- Eval(ctx, s, a);
      var f :- Eval(ctx, s, b);
      Some(Seen(if x.x != 0 then t.x else f.x, x.log + t.log + f.log))
  }

  function EvalAddr(ctx: ZkVM.Ctx, s: Src, cell: Cell): Option<Seen>
    decreases cell
  {
    var k :- Eval(ctx, s, cell.key);
    if cell.At? then Some(k) else Some(k.(x := (cell.field * TWO_32 + k.x) % P))
  }

  function EvalAll(ctx: ZkVM.Ctx, s: Src, els: seq<Val>): (r: Option<SeenAll>)
    ensures r.Some? ==> |r.value.xs| == |els|
    decreases els
  {
    if els == [] then Some(SeenAll([], []))
    else
      var n := |els| - 1;
      var xs :- EvalAll(ctx, s, els[..n]);
      var x :- Eval(ctx, s, els[n]);
      Some(SeenAll(xs.xs + [x.x], xs.log + x.log))
  }

  // ---- running lowered code ------------------------------------------------------------------------

  function ExecLines(ctx: ZkVM.Ctx, lines: seq<Line>, c: Core): Option<Core> {
    if lines == [] then Some(c)
    else
      var c' :- ExecLine(ctx, lines[0], c);
      ExecLines(ctx, lines[1..], c')
  }

  lemma {:induction false} ExecLinesAppend(ctx: ZkVM.Ctx, a: seq<Line>, b: seq<Line>, c: Core)
    ensures ExecLines(ctx, a + b, c) ==
            match ExecLines(ctx, a, c) case None => None case Some(c') => ExecLines(ctx, b, c')
  {
    hide ExecLine;
    if a == [] {
      assert a + b == b;
    } else {
      assert (a + b)[0] == a[0] && (a + b)[1..] == a[1..] + b;
      match ExecLine(ctx, a[0], c) {
        case None =>
        case Some(c') => ExecLinesAppend(ctx, a[1..], b, c');
      }
    }
  }

  lemma ExecLinesOne(ctx: ZkVM.Ctx, line: Line, c: Core)
    ensures ExecLines(ctx, [line], c) == ExecLine(ctx, line, c)
  {
    hide ExecLine;
    assert [line][1..] == [];
  }

  /** c' differs from c only in the free registers, r7, the sponge and the extra log. */
  ghost predicate Kept(c: Core, c': Core, free: set<Reg>, log: seq<Entry>) {
    && (forall r: Reg :: r !in free && r != 7 ==> c'.regs[r] == c.regs[r])
    && c'.st == c.st && c'.io == c.io + log && c'.asel == c.asel && c'.apend == c.apend
  }

  /** Running the lines from c reverts exactly when want is None, and otherwise leaves want's value in reg. */
  ghost predicate Computes(ctx: ZkVM.Ctx, lines: seq<Line>, c: Core, reg: Reg, free: set<Reg>, want: Option<Seen>) {
    var got := ExecLines(ctx, lines, c);
    match want
    case None => got.None?
    case Some(w) => got.Some? && got.value.regs[reg] == w.x && Kept(c, got.value, free, w.log)
  }

  ghost predicate ComputesAll(ctx: ZkVM.Ctx, codes: Codes, c: Core, free: set<Reg>, want: Option<SeenAll>) {
    var got := ExecLines(ctx, codes.lines, c);
    match want
    case None => got.None?
    case Some(w) => got.Some? && Select(got.value.regs, codes.regs) == w.xs && Kept(c, got.value, free, w.log)
  }

  /** The machine state agrees with what the expression may read. */
  ghost predicate Ready(ctx: ZkVM.Ctx, names: seq<Reg>, free: set<Reg>, s: Src, c: Core) {
    && Pinned(names, free)
    && c.regs[0] == ctx.ArgOrZero(0)
    && (forall t :: t in s.temps ==> t < |names| && c.regs[names[t]] == s.temps[t])
    && c.st == s.st && c.apend == s.apend
  }

  lemma ReadyKept(ctx: ZkVM.Ctx, names: seq<Reg>, free: set<Reg>, s: Src, c: Core, c': Core, free': set<Reg>,
                  log: seq<Entry>)
    requires Ready(ctx, names, free, s, c) && Kept(c, c', free, log) && free' <= free
    ensures Ready(ctx, names, free', s, c')
  {
  }

  lemma KeptTrans(c: Core, c1: Core, c2: Core, free: set<Reg>, f1: set<Reg>, f2: set<Reg>, l1: seq<Entry>,
                  l2: seq<Entry>)
    requires Kept(c, c1, f1, l1) && Kept(c1, c2, f2, l2) && f1 <= free && f2 <= free
    ensures Kept(c, c2, free, l1 + l2)
  {
    assert c.io + l1 + l2 == c.io + (l1 + l2);
  }

  /** Immediates a deployed program may carry: anything else is refused by assembling or by validation. */
  predicate InField(line: Line) {
    match line
    case Movi(_, imm) => 0 <= imm < P
    case Slot(_, field, _) => 0 <= field && field * TWO_32 < P
    case _ => true
  }

  predicate AllInField(lines: seq<Line>) {
    forall i :: 0 <= i < |lines| ==> InField(lines[i])
  }

  lemma AllInFieldParts(a: seq<Line>, b: seq<Line>)
    requires AllInField(a + b)
    ensures AllInField(a) && AllInField(b)
  {
    forall i | 0 <= i < |a| ensures InField(a[i]) { assert (a + b)[i] == a[i]; }
    forall i | 0 <= i < |b| ensures InField(b[i]) { assert (a + b)[|a| + i] == b[i]; }
  }

  // ---- single operations ---------------------------------------------------------------------------

  lemma MoveExec(ctx: ZkVM.Ctx, d: Reg, s: Reg, c: Core)
    ensures ExecLine(ctx, Plain(MOV, d, s), c) == Some(c.Set(d, c.regs[s]))
  {
  }

  lemma LoadExec(ctx: ZkVM.Ctx, d: Reg, s: Reg, c: Core)
    ensures ExecLine(ctx, Plain(SLOAD, d, s), c) ==
            Some(c.Log(IO_SLOAD, c.regs[s], Load(c.st, c.regs[s])).Set(d, Load(c.st, c.regs[s])))
    ensures ExecLine(ctx, Plain(ARG, d, s), c) ==
            if c.regs[s] >= |ctx.args| then None else Some(c.Set(d, ctx.args[c.regs[s]]))
  {
  }

  lemma ReadExec(ctx: ZkVM.Ctx, op: ReadOp, d: Reg, s: Reg, c: Core)
    ensures ExecLine(ctx, Plain(ReadCode(op), d, s), c) ==
            match ReadMeaning(ctx, c.apend, op, c.regs[s])
            case None => None
            case Some(w) => Some(c.(io := c.io + w.log).Set(d, w.x))
  {
  }

  lemma UnaryExec(ctx: ZkVM.Ctx, d: Reg, c: Core)
    ensures ExecLine(ctx, Plain(LO32, d, 0), c) == Some(c.Set(d, c.regs[d] % TWO_32))
    ensures ExecLine(ctx, Plain(NOTB, d, 0), c) ==
            if c.regs[d] > 1 then None else Some(c.Set(d, 1 - c.regs[d]))
    ensures ExecLine(ctx, Plain(NEZ, d, 0), c) == Some(c.Set(d, Bit(c.regs[d] != 0)))
  {
    HighHalfCanonical(c.regs[d]);
  }

  lemma ArithExec(ctx: ZkVM.Ctx, d: Reg, s: Reg, c: Core)
    ensures ExecLine(ctx, Plain(ADD, d, s), c) == Some(c.Set(d, Add(c.regs[d], c.regs[s])))
    ensures ExecLine(ctx, Plain(SUB, d, s), c) == Some(c.Set(d, Sub(c.regs[d], c.regs[s])))
    ensures ExecLine(ctx, Plain(MUL, d, s), c) == Some(c.Set(d, Mul(c.regs[d], c.regs[s])))
    ensures ExecLine(ctx, Plain(EQ, d, s), c) == Some(c.Set(d, Bit(c.regs[d] == c.regs[s])))
  {
  }

  lemma DivExec(ctx: ZkVM.Ctx, d: Reg, s: Reg, c: Core)
    ensures ExecLine(ctx, Plain(DIVMOD, d, s), c) ==
            match DivRem(false, c.regs[d], c.regs[s])
            case None => None case Some(qr) => Some(c.Set(7, qr.1).Set(d, qr.0))
    ensures ExecLine(ctx, Plain(DIVMODW, d, s), c) ==
            match DivRem(true, c.regs[d], c.regs[s])
            case None => None case Some(qr) => Some(c.Set(7, qr.1).Set(d, qr.0))
  {
  }

  /** The lines of a binary operation, on an owned destination and any other source. */
  lemma BinExec(ctx: ZkVM.Ctx, op: BinOp, d: Reg, s: Reg, c: Core)
    requires d != s && d != 7 && s != 7
    ensures var x, y := c.regs[d], c.regs[s];
            Computes(ctx, BinLines(op, d, s), c, d, {d},
                     match (if op.LeOp? then BinMeaning(op, y, x) else BinMeaning(op, x, y))
                     case None => None case Some(z) => Some(Seen(z, [])))
  {
    var lines := BinLines(op, d, s);
    var x, y := c.regs[d], c.regs[s];
    hide ExecLines;
    ExecLinesOne(ctx, lines[0], c);
    match op {
      case AddOp => hide Exec; ArithExec(ctx, d, s, c);
      case SubOp => hide Exec; ArithExec(ctx, d, s, c);
      case MulOp => hide Exec; ArithExec(ctx, d, s, c);
      case EqOp => hide Exec; ArithExec(ctx, d, s, c);
      case DivOp => hide Exec; DivExec(ctx, d, s, c);
      case ModOp => hide Exec;
      case LtOp => hide Exec;
      case NeOp => hide Exec;
        ArithExec(ctx, d, s, c);
        var c1 := c.Set(d, Bit(x == y));
        ExecLinesAppend(ctx, [lines[0]], [lines[1]], c);
        assert [lines[0]] + [lines[1]] == lines;
        ExecLinesOne(ctx, lines[1], c1);
        UnaryExec(ctx, d, c1);
      case LeOp => hide Exec;
        ExecLinesAppend(ctx, [lines[0]], [lines[1]], c);
        assert [lines[0]] + [lines[1]] == lines;
        var c1 := c.Set(d, Bit(x < y));
        ExecLinesOne(ctx, lines[1], c1);
        UnaryExec(ctx, d, c1);
    }
  }

  // ---- composing -----------------------------------------------------------------------------------

  /** The state after code that computes something. */
  ghost function After(ctx: ZkVM.Ctx, lines: seq<Line>, c: Core): Core
    requires ExecLines(ctx, lines, c).Some?
  {
    ExecLines(ctx, lines, c).value
  }

  lemma OwnCorrect(ctx: ZkVM.Ctx, code: Code, c: Core, free: set<Reg>, want: Option<Seen>)
    requires free <= TEMPS && Fits(code, free) && Own(code).Some?
    requires Computes(ctx, code.lines, c, code.reg, free, want)
    ensures var d := Own(code).value; Computes(ctx, d.lines, c, d.reg, free, want)
  {
    if !code.owned {
      hide ExecLine, ExecLines;
      var d := Own(code).value;
      var mov := Plain(MOV, d.reg, code.reg);
      ExecLinesAppend(ctx, code.lines, [mov], c);
      if want.Some? {
        var c1 := After(ctx, code.lines, c);
        ExecLinesOne(ctx, mov, c1);
        MoveExec(ctx, d.reg, code.reg, c1);
      }
    }
  }

  /** rest, seen after first. */
  function Prefixed(first: Option<Seen>, rest: Option<Seen>): Option<Seen> {
    if first.None? || rest.None? then None else Some(Seen(rest.value.x, first.value.log + rest.value.log))
  }

  /** Follow code that computes first by more lines that compute rest from wherever it ends. */
  lemma Bind(ctx: ZkVM.Ctx, a: seq<Line>, b: seq<Line>, c: Core, ra: Reg, rb: Reg, fa: set<Reg>, fb: set<Reg>,
             free: set<Reg>, first: Option<Seen>, rest: Option<Seen>)
    requires Computes(ctx, a, c, ra, fa, first)
    requires first.Some? ==> Computes(ctx, b, After(ctx, a, c), rb, fb, rest)
    requires fa <= free && fb <= free
    ensures Computes(ctx, a + b, c, rb, free, Prefixed(first, rest))
  {
    hide ExecLine, ExecLines;
    ExecLinesAppend(ctx, a, b, c);
    if first.Some? && rest.Some? {
      var c1 := After(ctx, a, c);
      KeptTrans(c, c1, After(ctx, b, c1), free, fa, fb, first.value.log, rest.value.log);
    }
  }

  /** The in-place operations that follow an operand inside a node. */
  lemma StepComputes(ctx: ZkVM.Ctx, d: Reg, s: Reg, c: Core)
    ensures Computes(ctx, [Plain(NEZ, d, 0)], c, d, {d}, Some(Seen(Bit(c.regs[d] != 0), [])))
    ensures Computes(ctx, [Plain(MUL, d, s)], c, d, {d}, Some(Seen(Mul(c.regs[d], c.regs[s]), [])))
    ensures d != 7 ==> Computes(ctx, [Plain(DIVMODW, d, s)], c, d, {d},
                                match DivRem(true, c.regs[d], c.regs[s])
                                case None => None case Some(qr) => Some(Seen(qr.0, [])))
  {
    hide ExecLine, ExecLines, DivRem;
    ExecLinesOne(ctx, Plain(NEZ, d, 0), c);
    ExecLinesOne(ctx, Plain(MUL, d, s), c);
    ExecLinesOne(ctx, Plain(DIVMODW, d, s), c);
    UnaryExec(ctx, d, c);
    ArithExec(ctx, d, s, c);
    DivExec(ctx, d, s, c);
    assert c.io + [] == c.io;
  }
}
