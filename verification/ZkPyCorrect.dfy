/** Correctness of lowering, one lemma per shape of node. */
module ZkPyCorrect {
  import opened Options
  import opened Field
  import opened ZkVM
  import opened ZkAsm
  import opened AsmSimulation
  import opened ZkPyExpr
  import opened ZkPyEval

  /** The tree lowers under free, its immediates fit the field, and the machine is ready to run it. */
  ghost predicate Lowered(ctx: ZkVM.Ctx, names: seq<Reg>, free: set<Reg>, s: Src, v: Val, c: Core) {
    && Ready(ctx, names, free, s, c) && TempsIn(v, s.temps.Keys)
    && Mat(v, names, free).Some? && AllInField(Mat(v, names, free).value.lines)
  }

  ghost predicate Right(ctx: ZkVM.Ctx, names: seq<Reg>, free: set<Reg>, s: Src, v: Val, c: Core)
    requires Pinned(names, free) && Mat(v, names, free).Some?
  {
    var code := Mat(v, names, free).value;
    Computes(ctx, code.lines, c, code.reg, free, Eval(ctx, s, v))
  }

  /** A pinned result is r0 or a kept temporary, so it is none of the free registers. */
  lemma PinnedApart(v: Val, names: seq<Reg>, free: set<Reg>, sub: set<Reg>)
    requires Pinned(names, free) && sub <= free && Mat(v, names, sub).Some?
    ensures !Owned(v) ==> Mat(v, names, sub).value.reg !in free
  {
  }

  /**
   Compiler correctness for expressions: from any machine state that agrees with the source state, the lowered
   lines revert exactly when evaluation is undefined; otherwise the result register holds the value, the log grows
   by exactly the entries evaluation publishes, and nothing outside the free list and r7 changes.
   */
  lemma {:induction false} MatCorrect(ctx: ZkVM.Ctx, names: seq<Reg>, free: set<Reg>, s: Src, v: Val, c: Core)
    requires Lowered(ctx, names, free, s, v, c)
    ensures Right(ctx, names, free, s, v, c)
    decreases v, 3
  {
    hide ExecLine;
    match v
    case Temp(t) => assert c.io + [] == c.io;
    case Const(n) => LeafCorrect(ctx, names, free, s, v, c);
    case Arg(i) => LeafCorrect(ctx, names, free, s, v, c);
    case Ctx(_) => LeafCorrect(ctx, names, free, s, v, c);
    case Actx(_) => LeafCorrect(ctx, names, free, s, v, c);
    case Sload(cell) => SloadCorrect(ctx, names, free, s, cell, c);
    case Read(_, _) => ReadCorrect(ctx, names, free, s, v, c);
    case Hash(els) => HashCorrect(ctx, names, free, s, els, c);
    case Lo32(a) => UnaryCorrect(ctx, names, free, s, v, a, c);
    case Notb(a) => UnaryCorrect(ctx, names, free, s, v, a, c);
    case Bin(_, _, _) => BinCorrect(ctx, names, free, s, v, c);
    case Muldiv(_, _, _) => MuldivCorrect(ctx, names, free, s, v, c);
    case Mux(_, _, _) => MuxCorrect(ctx, names, free, s, v, c);
  }

  lemma LeafCorrect(ctx: ZkVM.Ctx, names: seq<Reg>, free: set<Reg>, s: Src, v: Val, c: Core)
    requires Lowered(ctx, names, free, s, v, c) && (v.Const? || v.Arg? || v.Ctx? || v.Actx?)
    ensures Right(ctx, names, free, s, v, c)
  {
    hide ExecLines, Exec;
    var code := Mat(v, names, free).value;
    assert c.io + [] == c.io;
    if v == Arg(0) {
      assert ExecLines(ctx, [], c) == Some(c) by { ExecNone(ctx, c); }
    } else if v.Arg? {
      var m, g := [code.lines[0]], [code.lines[1]];
      assert m + g == code.lines && InField(code.lines[0]);
      ExecLinesAppend(ctx, m, g, c);
      ExecLinesOne(ctx, m[0], c);
      var c1 := c.Set(code.reg, v.i % P);
      ExecLinesOne(ctx, g[0], c1);
      LoadExec(ctx, code.reg, code.reg, c1);
    } else {
      ExecLinesOne(ctx, code.lines[0], c);
    }
  }

  lemma ExecNone(ctx: ZkVM.Ctx, c: Core)
    ensures ExecLines(ctx, [], c) == Some(c)
  {
  }

  lemma {:induction false} AddrCorrect(ctx: ZkVM.Ctx, names: seq<Reg>, free: set<Reg>, s: Src, cell: Cell, c: Core)
    requires Ready(ctx, names, free, s, c) && TempsIn(cell.key, s.temps.Keys)
    requires MatAddr(cell, names, free).Some? && AllInField(MatAddr(cell, names, free).value.lines)
    ensures var code := MatAddr(cell, names, free).value;
            Computes(ctx, code.lines, c, code.reg, free, EvalAddr(ctx, s, cell))
    decreases cell, 0
  {
    hide ExecLines, Exec;
    var k := Mat(cell.key, names, free).value;
    var code := MatAddr(cell, names, free).value;
    if cell.At? {
      if k.owned { assert k.lines == code.lines; } else { AllInFieldParts(k.lines, [Plain(MOV, code.reg, k.reg)]); }
      MatCorrect(ctx, names, free, s, cell.key, c);
      OwnCorrect(ctx, k, c, free, Eval(ctx, s, cell.key));
    } else {
      var line := Slot(code.reg, cell.field, k.reg);
      AllInFieldParts(k.lines, [line]);
      assert InField([line][0]);
      MatCorrect(ctx, names, free, s, cell.key, c);
      ExecLinesAppend(ctx, k.lines, [line], c);
      if Eval(ctx, s, cell.key).Some? {
        ExecLinesOne(ctx, line, After(ctx, k.lines, c));
      }
    }
  }

  lemma SloadCorrect(ctx: ZkVM.Ctx, names: seq<Reg>, free: set<Reg>, s: Src, cell: Cell, c: Core)
    requires Lowered(ctx, names, free, s, Sload(cell), c)
    ensures Right(ctx, names, free, s, Sload(cell), c)
    decreases cell, 1
  {
    hide ExecLines, ExecLine;
    var code := Mat(Sload(cell), names, free).value;
    var at := MatAddr(cell, names, free).value;
    var line := Plain(SLOAD, code.reg, at.reg);
    AllInFieldParts(at.lines, [line]);
    AddrCorrect(ctx, names, free, s, cell, c);
    ExecLinesAppend(ctx, at.lines, [line], c);
    if EvalAddr(ctx, s, cell).Some? {
      var c1 := After(ctx, at.lines, c);
      ExecLinesOne(ctx, line, c1);
      LoadExec(ctx, code.reg, at.reg, c1);
      assert c1.io + [Entry(IO_SLOAD, c1.regs[at.reg], Load(c1.st, c1.regs[at.reg]))]
          == c.io + Eval(ctx, s, Sload(cell)).value.log;
    }
  }

  lemma ReadCorrect(ctx: ZkVM.Ctx, names: seq<Reg>, free: set<Reg>, s: Src, v: Val, c: Core)
    requires Lowered(ctx, names, free, s, v, c) && v.Read?
    ensures Right(ctx, names, free, s, v, c)
    decreases v, 2
  {
    hide ExecLines, ExecLine;
    var code := Mat(v, names, free).value;
    var x := Mat(v.a, names, free).value;
    var line := Plain(ReadCode(v.rop), code.reg, x.reg);
    AllInFieldParts(x.lines, [line]);
    MatCorrect(ctx, names, free, s, v.a, c);
    ExecLinesAppend(ctx, x.lines, [line], c);
    var w := Eval(ctx, s, v.a);
    if w.Some? {
      var c1 := After(ctx, x.lines, c);
      ExecLinesOne(ctx, line, c1);
      ReadExec(ctx, v.rop, code.reg, x.reg, c1);
      var got := ReadMeaning(ctx, s.apend, v.rop, w.value.x);
      if got.Some? {
        assert c1.io + got.value.log == c.io + (w.value.log + got.value.log);
      }
    }
  }

  lemma UnaryCorrect(ctx: ZkVM.Ctx, names: seq<Reg>, free: set<Reg>, s: Src, v: Val, a: Val, c: Core)
    requires Lowered(ctx, names, free, s, v, c) && (v == Lo32(a) || v == Notb(a))
    ensures Right(ctx, names, free, s, v, c)
    decreases v, 2
  {
    hide ExecLines, ExecLine;
    var code := Mat(v, names, free).value;
    var d := OwnedCorrect(ctx, names, free, s, a, c, [Plain(if v.Lo32? then LO32 else NOTB, code.reg, 0)]);
    var line := Plain(if v.Lo32? then LO32 else NOTB, d.reg, 0);
    ExecLinesAppend(ctx, d.lines, [line], c);
    if Eval(ctx, s, a).Some? {
      var c1 := After(ctx, d.lines, c);
      ExecLinesOne(ctx, line, c1);
      UnaryExec(ctx, d.reg, c1);
    }
  }

  /** Materialize-and-own computes the value too; more is whatever lines follow. */
  lemma OwnedCorrect(ctx: ZkVM.Ctx, names: seq<Reg>, free: set<Reg>, s: Src, v: Val, c: Core, more: seq<Line>)
    returns (d: Code)
    requires Ready(ctx, names, free, s, c) && TempsIn(v, s.temps.Keys) && OwnedCode(v, names, free).Some?
    requires AllInField(OwnedCode(v, names, free).value.lines + more)
    ensures d == OwnedCode(v, names, free).value && d.owned && Fits(d, free) && AllInField(more)
    ensures Computes(ctx, d.lines, c, d.reg, free, Eval(ctx, s, v))
    decreases v, 4
  {
    hide ExecLines, ExecLine;
    var x := Mat(v, names, free).value;
    d := OwnedCode(v, names, free).value;
    AllInFieldParts(d.lines, more);
    if x.owned { assert x.lines == d.lines; } else { AllInFieldParts(x.lines, [Plain(MOV, d.reg, x.reg)]); }
    MatCorrect(ctx, names, free, s, v, c);
    OwnCorrect(ctx, x, c, free, Eval(ctx, s, v));
  }

  lemma {:induction false} AllCorrect(ctx: ZkVM.Ctx, names: seq<Reg>, free: set<Reg>, s: Src, els: seq<Val>, c: Core)
    requires Ready(ctx, names, free, s, c) && (forall e :: e in els ==> TempsIn(e, s.temps.Keys))
    requires MatAll(els, names, free).Some? && AllInField(MatAll(els, names, free).value.lines)
    ensures ComputesAll(ctx, MatAll(els, names, free).value, c, free, EvalAll(ctx, s, els))
    decreases els, 0
  {
    hide ExecLines, ExecLine;
    if els == [] {
      ExecNone(ctx, c);
      assert c.io + [] == c.io;
    } else {
      var n := |els| - 1;
      var xs := MatAll(els[..n], names, free).value;
      var x := Mat(els[n], names, xs.free).value;
      AllInFieldParts(xs.lines, x.lines);
      AllCorrect(ctx, names, free, s, els[..n], c);
      ExecLinesAppend(ctx, xs.lines, x.lines, c);
      var w := EvalAll(ctx, s, els[..n]);
      if w.Some? {
        var c1 := After(ctx, xs.lines, c);
        ReadyKept(ctx, names, free, s, c, c1, xs.free, w.value.log);
        MatCorrect(ctx, names, xs.free, s, els[n], c1);
        var y := Eval(ctx, s, els[n]);
        if y.Some? {
          var c2 := After(ctx, x.lines, c1);
          KeptTrans(c, c1, c2, free, free, xs.free, w.value.log, y.value.log);
          assert Select(c2.regs, xs.regs) == Select(c1.regs, xs.regs);
          assert Select(c2.regs, xs.regs + [x.reg]) == Select(c2.regs, xs.regs) + [c2.regs[x.reg]];
        }
      }
    }
  }

  lemma HashCorrect(ctx: ZkVM.Ctx, names: seq<Reg>, free: set<Reg>, s: Src, els: seq<Val>, c: Core)
    requires Lowered(ctx, names, free, s, Val.Hash(els), c)
    ensures Right(ctx, names, free, s, Val.Hash(els), c)
    decreases els, 1
  {
    hide ExecLines, Exec, Absorb;
    var code := Mat(Val.Hash(els), names, free).value;
    var xs := MatAll(els, names, free).value;
    var line := Line.Hash(code.reg, xs.regs);
    AllInFieldParts(xs.lines, [line]);
    AllCorrect(ctx, names, free, s, els, c);
    ExecLinesAppend(ctx, xs.lines, [line], c);
    if EvalAll(ctx, s, els).Some? {
      ExecLinesOne(ctx, line, After(ctx, xs.lines, c));
    }
  }

  /** How a binary node lowers. */
  lemma BinShape(v: Val, names: seq<Reg>, free: set<Reg>) returns (d: Code, y: Code)
    requires Pinned(names, free) && v.Bin? && Mat(v, names, free).Some?
    ensures OwnedCode(First(v), names, free) == Some(d) && Fits(d, free) && d.owned
    ensures Mat(Second(v), names, d.free) == Some(y) && Fits(y, d.free) && y.reg !in {d.reg, 7}
    ensures Mat(v, names, free) ==
            Some(Code(d.lines + (y.lines + BinLines(v.op, d.reg, y.reg)), d.reg, true, y.Given()))
  {
    hide BinLines;
    d := OwnedCode(First(v), names, free).value;
    y := Mat(Second(v), names, d.free).value;
    PinnedApart(Second(v), names, free, d.free);
    assert d.lines + y.lines + BinLines(v.op, d.reg, y.reg) == d.lines + (y.lines + BinLines(v.op, d.reg, y.reg));
  }

  lemma {:induction false} BinCorrect(ctx: ZkVM.Ctx, names: seq<Reg>, free: set<Reg>, s: Src, v: Val, c: Core)
    requires Lowered(ctx, names, free, s, v, c) && v.Bin?
    ensures Right(ctx, names, free, s, v, c)
    decreases v, 2
  {
    var d0, y := BinShape(v, names, free);
    hide ExecLines, ExecLine, BinLines, BinMeaning, Mat, OwnedCode;
    var tail := y.lines + BinLines(v.op, d0.reg, y.reg);
    var d := OwnedCorrect(ctx, names, free, s, First(v), c, tail);
    var w := Eval(ctx, s, First(v));
    var rest := if w.Some? then BinRest(ctx, s, v, w.value.x) else None;
    if w.Some? { BinTail(ctx, names, free, s, v, c, After(ctx, d.lines, c), d, y, w.value); }
    Bind(ctx, d.lines, tail, c, d.reg, d.reg, free, free, free, w, rest);
  }

  /** What remains of a binary node once its first operand is x. */
  ghost function BinRest(ctx: ZkVM.Ctx, s: Src, v: Val, x: Elem): Option<Seen>
    requires v.Bin?
  {
    var y :- Eval(ctx, s, Second(v));
    var z :- if v.op.LeOp? then BinMeaning(v.op, y.x, x) else BinMeaning(v.op, x, y.x);
    Some(Seen(z, y.log))
  }

  lemma {:induction false} BinTail(ctx: ZkVM.Ctx, names: seq<Reg>, free: set<Reg>, s: Src, v: Val, c: Core, c1: Core,
                                   d: Code, y: Code, w: Seen)
    requires v.Bin? && Ready(ctx, names, free, s, c) && TempsIn(v, s.temps.Keys)
    requires d.owned && Fits(d, free) && Mat(Second(v), names, d.free) == Some(y)
    requires AllInField(y.lines + BinLines(v.op, d.reg, y.reg)) && y.reg !in {d.reg, 7}
    requires Kept(c, c1, free, w.log) && c1.regs[d.reg] == w.x
    ensures Computes(ctx, y.lines + BinLines(v.op, d.reg, y.reg), c1, d.reg, free, BinRest(ctx, s, v, w.x))
    decreases v, 1
  {
    hide ExecLines, ExecLine, BinLines, BinMeaning, Mat;
    var op := BinLines(v.op, d.reg, y.reg);
    AllInFieldParts(y.lines, op);
    ReadyKept(ctx, names, free, s, c, c1, d.free, w.log);
    MatCorrect(ctx, names, d.free, s, Second(v), c1);
    var u := Eval(ctx, s, Second(v));
    var last := if u.None? then None
                else match (if v.op.LeOp? then BinMeaning(v.op, u.value.x, w.x) else BinMeaning(v.op, w.x, u.value.x))
                     case None => None case Some(z) => Some(Seen(z, []));
    if u.Some? {
      BinExec(ctx, v.op, d.reg, y.reg, After(ctx, y.lines, c1));
      assert u.value.log + [] == u.value.log;
    }
    Bind(ctx, y.lines, op, c1, y.reg, d.reg, d.free, {d.reg}, free, u, last);
  }

  /** How a*b//c lowers: the divisor may reuse the register b was given back. */
  lemma MuldivShape(v: Val, names: seq<Reg>, free: set<Reg>) returns (d: Code, y: Code, z: Code)
    requires Pinned(names, free) && v.Muldiv? && Mat(v, names, free).Some?
    ensures OwnedCode(v.a, names, free) == Some(d) && Fits(d, free) && d.owned
    ensures Mat(v.b, names, d.free) == Some(y) && Fits(y, d.free)
    ensures Mat(v.c, names, d.free) == Some(z) && Fits(z, d.free)
    ensures Mat(v, names, free) ==
            Some(Code(d.lines + (y.lines + ([Plain(MUL, d.reg, y.reg)] + (z.lines + [Plain(DIVMODW, d.reg, z.reg)]))),
                      d.reg, true, z.Given()))
  {
    d := OwnedCode(v.a, names, free).value;
    y := Mat(v.b, names, d.free).value;
    assert y.Given() == d.free;
    z := Mat(v.c, names, d.free).value;
    var mul, div := [Plain(MUL, d.reg, y.reg)], [Plain(DIVMODW, d.reg, z.reg)];
    assert d.lines + y.lines + mul + z.lines + div == d.lines + (y.lines + (mul + (z.lines + div)));
  }

  /** What remains once the first factor is x, and once the product is p. */
  ghost function MuldivRest(ctx: ZkVM.Ctx, s: Src, v: Val, x: Elem): Option<Seen>
    requires v.Muldiv?
  {
    var y := Eval(ctx, s, v.b);
    Prefixed(y, if y.Some? then QuotientRest(ctx, s, v, Mul(x, y.value.x)) else None)
  }

  ghost function QuotientRest(ctx: ZkVM.Ctx, s: Src, v: Val, p: Elem): Option<Seen>
    requires v.Muldiv?
  {
    var z :- Eval(ctx, s, v.c);
    var qr :- DivRem(true, p, z.x);
    Some(Seen(qr.0, z.log))
  }

  lemma MuldivEval(ctx: ZkVM.Ctx, s: Src, v: Val)
    requires v.Muldiv?
    ensures var w := Eval(ctx, s, v.a);
            Eval(ctx, s, v) == Prefixed(w, if w.Some? then MuldivRest(ctx, s, v, w.value.x) else None)
  {
    hide DivRem;
    var x, y, z := Eval(ctx, s, v.a), Eval(ctx, s, v.b), Eval(ctx, s, v.c);
    if x.Some? && y.Some? && z.Some? {
      assert x.value.log + y.value.log + z.value.log == x.value.log + (y.value.log + z.value.log);
    }
  }

  lemma {:induction false} MuldivCorrect(ctx: ZkVM.Ctx, names: seq<Reg>, free: set<Reg>, s: Src, v: Val, c: Core)
    requires Lowered(ctx, names, free, s, v, c) && v.Muldiv?
    ensures Right(ctx, names, free, s, v, c)
    decreases v, 2
  {
    var d0, y, z := MuldivShape(v, names, free);
    MuldivEval(ctx, s, v);
    hide ExecLines, ExecLine, DivRem, Mat, OwnedCode, Eval;
    var tail := y.lines + ([Plain(MUL, d0.reg, y.reg)] + (z.lines + [Plain(DIVMODW, d0.reg, z.reg)]));
    var d := OwnedCorrect(ctx, names, free, s, v.a, c, tail);
    var w := Eval(ctx, s, v.a);
    var rest := if w.Some? then MuldivRest(ctx, s, v, w.value.x) else None;
    if w.Some? { MuldivTail(ctx, names, free, s, v, c, After(ctx, d.lines, c), d, y, z, w.value); }
    Bind(ctx, d.lines, tail, c, d.reg, d.reg, free, free, free, w, rest);
  }

  lemma {:induction false} MuldivTail(ctx: ZkVM.Ctx, names: seq<Reg>, free: set<Reg>, s: Src, v: Val, c: Core,
                                      c1: Core, d: Code, y: Code, z: Code, w: Seen)
    requires v.Muldiv? && Ready(ctx, names, free, s, c) && TempsIn(v, s.temps.Keys)
    requires d.owned && Fits(d, free) && Mat(v.b, names, d.free) == Some(y) && Mat(v.c, names, d.free) == Some(z)
    requires AllInField(y.lines + ([Plain(MUL, d.reg, y.reg)] + (z.lines + [Plain(DIVMODW, d.reg, z.reg)])))
    requires Kept(c, c1, free, w.log) && c1.regs[d.reg] == w.x
    ensures Computes(ctx, y.lines + ([Plain(MUL, d.reg, y.reg)] + (z.lines + [Plain(DIVMODW, d.reg, z.reg)])), c1,
                     d.reg, free, MuldivRest(ctx, s, v, w.x))
    decreases v, 1
  {
    hide ExecLines, ExecLine, DivRem, Mat, Eval;
    var mul, tail := [Plain(MUL, d.reg, y.reg)], z.lines + [Plain(DIVMODW, d.reg, z.reg)];
    AllInFieldParts(y.lines, mul + tail);
    AllInFieldParts(mul, tail);
    ReadyKept(ctx, names, free, s, c, c1, d.free, w.log);
    MatCorrect(ctx, names, d.free, s, v.b, c1);
    var u := Eval(ctx, s, v.b);
    var rest := if u.Some? then QuotientRest(ctx, s, v, Mul(w.x, u.value.x)) else None;
    if u.Some? {
      var c2 := After(ctx, y.lines, c1);
      KeptTrans(c, c1, c2, free, free, d.free, w.log, u.value.log);
      StepComputes(ctx, d.reg, y.reg, c2);
      var p := Seen(Mul(w.x, u.value.x), []);
      var c3 := After(ctx, mul, c2);
      KeptTrans(c, c2, c3, free, free, {d.reg}, w.log + u.value.log, []);
      QuotientTail(ctx, names, free, s, v, c, c3, d, z, p.x, w.log + u.value.log + []);
      Bind(ctx, mul, tail, c2, d.reg, d.reg, {d.reg}, free, free, Some(p), rest);
      assert Prefixed(Some(p), rest) == rest by {
        if rest.Some? { assert [] + rest.value.log == rest.value.log; }
      }
    }
    Bind(ctx, y.lines, mul + tail, c1, y.reg, d.reg, d.free, free, free, u, rest);
  }

  /** The divisor and the division, once the product is in its register. */
  lemma {:induction false} QuotientTail(ctx: ZkVM.Ctx, names: seq<Reg>, free: set<Reg>, s: Src, v: Val, c: Core,
                                        c3: Core, d: Code, z: Code, p: Elem, l: seq<Entry>)
    requires v.Muldiv? && Ready(ctx, names, free, s, c) && TempsIn(v.c, s.temps.Keys)
    requires d.owned && Fits(d, free) && Mat(v.c, names, d.free) == Some(z)
    requires AllInField(z.lines + [Plain(DIVMODW, d.reg, z.reg)])
    requires Kept(c, c3, free, l) && c3.regs[d.reg] == p
    ensures Computes(ctx, z.lines + [Plain(DIVMODW, d.reg, z.reg)], c3, d.reg, free, QuotientRest(ctx, s, v, p))
    decreases v, 0
  {
    hide ExecLines, ExecLine, DivRem, Mat, Eval;
    var div := [Plain(DIVMODW, d.reg, z.reg)];
    AllInFieldParts(z.lines, div);
    ReadyKept(ctx, names, free, s, c, c3, d.free, l);
    MatCorrect(ctx, names, d.free, s, v.c, c3);
    var q := Eval(ctx, s, v.c);
    var last := if q.None? then None
                else match DivRem(true, p, q.value.x)
                     case None => None case Some(qr) => Some(Seen(qr.0, []));
    if q.Some? {
      StepComputes(ctx, d.reg, z.reg, After(ctx, z.lines, c3));
      assert q.value.log + [] == q.value.log;
    }
    Bind(ctx, z.lines, div, c3, z.reg, d.reg, d.free, {d.reg}, free, q, last);
  }

  /** The four mux instructions pick t or f. */
  lemma MuxExec(ctx: ZkVM.Ctx, d: Reg, k: Reg, t: Reg, f: Reg, c: Core)
    requires d !in {k, t, f} && c.regs[k] <= 1
    ensures Computes(ctx, MuxLines(d, k, t, f), c, d, {d},
                     Some(Seen(if c.regs[k] == 1 then c.regs[t] else c.regs[f], [])))
  {
    hide ExecLines, ExecLine;
    var x, y, b := c.regs[t], c.regs[f], c.regs[k];
    var lines := MuxLines(d, k, t, f);
    var c1 := c.Set(d, x);
    var c2 := c1.Set(d, Sub(x, y));
    var c3 := c2.Set(d, Mul(Sub(x, y), b));
    MoveExec(ctx, d, t, c);
    ArithExec(ctx, d, f, c1);
    ArithExec(ctx, d, k, c2);
    ArithExec(ctx, d, f, c3);
    ExecLinesOne(ctx, lines[0], c);
    ExecLinesOne(ctx, lines[1], c1);
    ExecLinesOne(ctx, lines[2], c2);
    ExecLinesOne(ctx, lines[3], c3);
    ExecLinesAppend(ctx, [lines[2]], [lines[3]], c2);
    ExecLinesAppend(ctx, [lines[1]], [lines[2]] + [lines[3]], c1);
    ExecLinesAppend(ctx, [lines[0]], [lines[1]] + ([lines[2]] + [lines[3]]), c);
    assert lines == [lines[0]] + ([lines[1]] + ([lines[2]] + [lines[3]]));
    MuxPicks(b, x, y);
    assert c.io + [] == c.io;
  }

  /** How a mux lowers. */
  lemma MuxShape(v: Val, names: seq<Reg>, free: set<Reg>) returns (k: Code, t: Code, f: Code, code: Code)
    requires Pinned(names, free) && v.Mux? && Mat(v, names, free).Some?
    ensures OwnedCode(v.cond, names, free) == Some(k) && Fits(k, free) && k.owned
    ensures Mat(v.a, names, k.free) == Some(t) && Fits(t, k.free)
    ensures Mat(v.b, names, t.free) == Some(f) && Fits(f, t.free)
    ensures Mat(v, names, free) == Some(code) && code.reg in f.free
    ensures code.lines == k.lines + ([Plain(NEZ, k.reg, 0)] + (t.lines + (f.lines +
                          MuxLines(code.reg, k.reg, t.reg, f.reg))))
  {
    hide MuxLines;
    k := OwnedCode(v.cond, names, free).value;
    t := Mat(v.a, names, k.free).value;
    f := Mat(v.b, names, t.free).value;
    code := Mat(v, names, free).value;
    var nez, mux := [Plain(NEZ, k.reg, 0)], MuxLines(code.reg, k.reg, t.reg, f.reg);
    assert code.lines == k.lines + nez + t.lines + f.lines + mux;
    assert k.lines + nez + t.lines + f.lines + mux == k.lines + (nez + (t.lines + (f.lines + mux)));
  }

  /** What remains of a mux once its condition is x. */
  ghost function MuxRest(ctx: ZkVM.Ctx, s: Src, v: Val, x: Elem): Option<Seen>
    requires v.Mux?
  {
    var t, f := Eval(ctx, s, v.a), Eval(ctx, s, v.b);
    Prefixed(t, Prefixed(f, Some(Seen(if t.None? || f.None? then 0 else if x != 0 then t.value.x else f.value.x, []))))
  }

  lemma MuxEval(ctx: ZkVM.Ctx, s: Src, v: Val)
    requires v.Mux?
    ensures var w := Eval(ctx, s, v.cond);
            Eval(ctx, s, v) == Prefixed(w, if w.Some? then MuxRest(ctx, s, v, w.value.x) else None)
  {
    var x, t, f := Eval(ctx, s, v.cond), Eval(ctx, s, v.a), Eval(ctx, s, v.b);
    if x.Some? && t.Some? && f.Some? {
      assert x.value.log + t.value.log + f.value.log == x.value.log + (t.value.log + (f.value.log + []));
    }
  }

  lemma {:induction false} MuxCorrect(ctx: ZkVM.Ctx, names: seq<Reg>, free: set<Reg>, s: Src, v: Val, c: Core)
    requires Lowered(ctx, names, free, s, v, c) && v.Mux?
    ensures Right(ctx, names, free, s, v, c)
    decreases v, 2
  {
    var k0, t, f, code := MuxShape(v, names, free);
    MuxEval(ctx, s, v);
    hide ExecLines, ExecLine, MuxLines, Mat, OwnedCode, Eval;
    var nez := [Plain(NEZ, k0.reg, 0)];
    var tail := t.lines + (f.lines + MuxLines(code.reg, k0.reg, t.reg, f.reg));
    var k := OwnedCorrect(ctx, names, free, s, v.cond, c, nez + tail);
    AllInFieldParts(nez, tail);
    var w := Eval(ctx, s, v.cond);
    var rest := if w.Some? then MuxRest(ctx, s, v, w.value.x) else None;
    if w.Some? {
      var c1 := After(ctx, k.lines, c);
      StepComputes(ctx, k.reg, 0, c1);
      var c2 := After(ctx, nez, c1);
      KeptTrans(c, c1, c2, free, free, {k.reg}, w.value.log, []);
      MuxTail(ctx, names, free, s, v, c, c2, k, t, f, code.reg, w.value.log + [], w.value.x);
      Bind(ctx, nez, tail, c1, k.reg, code.reg, {k.reg}, free, free, Some(Seen(Bit(w.value.x != 0), [])), rest);
      assert Prefixed(Some(Seen(Bit(w.value.x != 0), [])), rest) == rest by {
        if rest.Some? { assert [] + rest.value.log == rest.value.log; }
      }
    }
    Bind(ctx, k.lines, nez + tail, c, k.reg, code.reg, free, free, free, w, rest);
  }

  /** Both branches and the final blend, once the normalised condition is in its register. */
  lemma {:induction false} MuxTail(ctx: ZkVM.Ctx, names: seq<Reg>, free: set<Reg>, s: Src, v: Val, c: Core, c2: Core,
                                   k: Code, t: Code, f: Code, d: Reg, l: seq<Entry>, x: Elem)
    requires v.Mux? && Ready(ctx, names, free, s, c) && TempsIn(v, s.temps.Keys)
    requires k.owned && Fits(k, free) && Mat(v.a, names, k.free) == Some(t) && Mat(v.b, names, t.free) == Some(f)
    requires Fits(t, k.free) && Fits(f, t.free)
    requires d in f.free && Kept(c, c2, free, l) && c2.regs[k.reg] == Bit(x != 0)
    requires AllInField(t.lines + (f.lines + MuxLines(d, k.reg, t.reg, f.reg)))
    ensures Computes(ctx, t.lines + (f.lines + MuxLines(d, k.reg, t.reg, f.reg)), c2, d, free, MuxRest(ctx, s, v, x))
    decreases v, 1
  {
    hide ExecLines, ExecLine, MuxLines, Mat, Eval;
    var mux := MuxLines(d, k.reg, t.reg, f.reg);
    AllInFieldParts(t.lines, f.lines + mux);
    AllInFieldParts(f.lines, mux);
    ReadyKept(ctx, names, free, s, c, c2, k.free, l);
    MatCorrect(ctx, names, k.free, s, v.a, c2);
    var p, q := Eval(ctx, s, v.a), Eval(ctx, s, v.b);
    var last := Some(Seen(if p.None? || q.None? then 0 else if x != 0 then p.value.x else q.value.x, []));
    if p.Some? {
      var c3 := After(ctx, t.lines, c2);
      ReadyKept(ctx, names, k.free, s, c2, c3, t.free, p.value.log);
      MatCorrect(ctx, names, t.free, s, v.b, c3);
      if q.Some? {
        MuxExec(ctx, d, k.reg, t.reg, f.reg, After(ctx, f.lines, c3));
      }
      Bind(ctx, f.lines, mux, c3, f.reg, d, t.free, {d}, free, q, last);
    }
    Bind(ctx, t.lines, f.lines + mux, c2, t.reg, d, k.free, free, free, p, Prefixed(q, last));
  }
}
