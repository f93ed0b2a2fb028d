/** Compiler correctness for whole methods, down to the machine's run. */
module ZkPyProgram {
  import opened Options
  import opened Field
  import opened ZkVM
  import opened ZkAsm
  import opened AsmSimulation
  import opened ZkPyExpr
  import opened ZkPyEval
  import opened ZkPyCorrect
  import opened ZkPyStatic
  import opened ZkPyMethod
  import ZkGuards

  // ---- straight blocks of lines --------------------------------------------------------------------

  predicate LinePlaced(lines: seq<Line>, p: nat, block: seq<Line>) {
    p + |block| <= |lines| && lines[p..p + |block|] == block
  }

  /** Straight lines that assemble. */
  predicate Runnable(block: seq<Line>) {
    forall i :: 0 <= i < |block| ==> Tame(block[i], TEMPS) && Expand(block[i]).Ok?
  }

  lemma TameSize(line: Line)
    requires Tame(line, TEMPS) && Expand(line).Ok?
    ensures Size(line) >= 1
  {
  }

  lemma {:induction false} LineBlock(ctx: ZkVM.Ctx, lines: seq<Line>, p: nat, block: seq<Line>, c: Core, gas: nat)
    requires LinePlaced(lines, p, block) && Runnable(block)
    ensures LineRun(ctx, lines, p, c, gas) ==
            match ExecLines(ctx, block, c)
            case None => Failure
            case Some(c') =>
              if gas < LinesSize(block) then Failure
              else LineRun(ctx, lines, p + |block|, c', gas - LinesSize(block))
    decreases |block|
  {
    hide ExecLine, Size;
    if block != [] {
      var line := block[0];
      assert lines[p] == lines[p..p + |block|][0];
      assert Tame(line, TEMPS);
      TameSize(line);
      match ExecLine(ctx, line, c) {
        case None =>
        case Some(c') =>
          if gas >= Size(line) {
            assert lines[p + 1..p + 1 + |block[1..]|] == block[1..];
            LineBlock(ctx, lines, p + 1, block[1..], c', gas - Size(line));
          }
      }
    }
  }

  lemma {:induction false} LinesSizeAppend(a: seq<Line>, b: seq<Line>)
    ensures LinesSize(a + b) == LinesSize(a) + LinesSize(b)
  {
    if a == [] {
      assert a + b == b;
    } else {
      LinesSizeAppend(a[1..], b);
      assert (a + b)[0] == a[0] && (a + b)[1..] == a[1..] + b;
    }
  }

  // ---- one statement -------------------------------------------------------------------------------

  /** The machine agrees with the source memory between statements. */
  ghost predicate Agrees(ctx: ZkVM.Ctx, names: seq<Reg>, free: set<Reg>, m: Mem, c: Core) {
    Ready(ctx, names, free, m.Visible(), c) && c.io == m.io && c.asel == 0
  }

  lemma AgreesKept(ctx: ZkVM.Ctx, names: seq<Reg>, free: set<Reg>, m: Mem, c: Core, c': Core, log: seq<Entry>)
    requires Agrees(ctx, names, free, m, c) && Kept(c, c', free, log)
    ensures Agrees(ctx, names, free, m.(io := m.io + log), c')
  {
  }

  /** Executing the final line of a simple statement has the statement's effect. */
  lemma ActExec(ctx: ZkVM.Ctx, s: Stmt, regs: seq<Reg>, m: Mem, c: Core)
    requires Simple(s) && |regs| == |Operands(s)|
    requires c.st == m.st && c.io == m.io && c.apend == m.apend && c.asel == 0
    ensures ExecLine(ctx, FinalLine(s, regs), c) ==
            match Act(ctx, s, Select(c.regs, regs), m)
            case None => None
            case Some(m') => Some(c.(st := m'.st, io := m'.io, apend := m'.apend))
    ensures Act(ctx, s, Select(c.regs, regs), m).Some? ==>
              Act(ctx, s, Select(c.regs, regs), m).value.temps == m.temps
  {
  }

  predicate Flows(s: Stmt) {
    s.LabelAt? || s.Goto? || s.GotoIf? || s.Return?
  }

  lemma {:induction false} SimpleExec(ctx: ZkVM.Ctx, s: Stmt, names: seq<Reg>, free: set<Reg>, m: Mem, c: Core)
    requires Simple(s) && Agrees(ctx, names, free, m, c) && Reads(s, m.temps.Keys)
    requires LowerStmt(s, names, free).Some? && AllInField(LowerStmt(s, names, free).value.lines)
    ensures var xs := MatAll(Operands(s), names, free).value;
            match EvalAll(ctx, m.Visible(), Operands(s))
            case None => ExecLines(ctx, xs.lines, c).None?
            case Some(w) =>
              && ExecLines(ctx, xs.lines, c).Some?
              && Select(After(ctx, xs.lines, c).regs, xs.regs) == w.xs
              && Agrees(ctx, names, free, m.(io := m.io + w.log), After(ctx, xs.lines, c))
  {
    hide ExecLines, ExecLine;
    var xs := MatAll(Operands(s), names, free).value;
    AllInFieldParts(xs.lines, [FinalLine(s, xs.regs)]);
    AllCorrect(ctx, names, free, m.Visible(), Operands(s), c);
    var w := EvalAll(ctx, m.Visible(), Operands(s));
    if w.Some? { AgreesKept(ctx, names, free, m, c, After(ctx, xs.lines, c), w.value.log); }
  }

  /** A straight statement's lines have the statement's effect and keep machine and source in agreement. */
  ghost predicate StmtRight(ctx: ZkVM.Ctx, s: Stmt, names: seq<Reg>, free: set<Reg>, m: Mem, c: Core)
    requires Pinned(names, free) && LowerStmt(s, names, free).Some?
  {
    var b := LowerStmt(s, names, free).value;
    match Effect(ctx, s, |names|, m)
    case None => ExecLines(ctx, b.lines, c).None?
    case Some(m') => ExecLines(ctx, b.lines, c).Some? && Agrees(ctx, b.names, b.free, m', After(ctx, b.lines, c))
  }

  lemma {:induction false} SimpleRight(ctx: ZkVM.Ctx, s: Stmt, names: seq<Reg>, free: set<Reg>, m: Mem, c: Core)
    requires Simple(s) && !Flows(s) && Agrees(ctx, names, free, m, c) && Reads(s, m.temps.Keys)
    requires LowerStmt(s, names, free).Some? && AllInField(LowerStmt(s, names, free).value.lines)
    ensures StmtRight(ctx, s, names, free, m, c)
  {
    hide ExecLines, ExecLine, Act;
    var xs := MatAll(Operands(s), names, free).value;
    var line := FinalLine(s, xs.regs);
    SimpleExec(ctx, s, names, free, m, c);
    ExecLinesAppend(ctx, xs.lines, [line], c);
    var w := EvalAll(ctx, m.Visible(), Operands(s));
    if w.Some? {
      var c1 := After(ctx, xs.lines, c);
      ExecLinesOne(ctx, line, c1);
      ActExec(ctx, s, xs.regs, m.(io := m.io + w.value.log), c1);
    }
  }

  lemma {:induction false} KeepRight(ctx: ZkVM.Ctx, v: Val, names: seq<Reg>, free: set<Reg>, m: Mem, c: Core)
    requires Agrees(ctx, names, free, m, c) && Reads(Keep(v), m.temps.Keys)
    requires LowerStmt(Keep(v), names, free).Some? && AllInField(LowerStmt(Keep(v), names, free).value.lines)
    ensures StmtRight(ctx, Keep(v), names, free, m, c)
  {
    hide ExecLines, ExecLine;
    var d0 := OwnedCode(v, names, free).value;
    assert d0.lines + [] == d0.lines;
    var d := OwnedCorrect(ctx, names, free, m.Visible(), v, c, []);
    var b := LowerStmt(Keep(v), names, free).value;
    if Eval(ctx, m.Visible(), v).Some? {
      var c1 := After(ctx, d.lines, c);
      forall t | 0 <= t < |b.names| ensures b.names[t] in TEMPS && b.names[t] !in b.free {
        if t < |names| { assert b.names[t] == names[t]; }
      }
    }
  }

  lemma StoreExec(ctx: ZkVM.Ctx, a: Reg, x: Reg, c: Core)
    ensures ExecLine(ctx, Plain(SSTORE, a, x), c) ==
            Some(c.(st := Store(c.st, c.regs[a], c.regs[x])).Log(IO_SSTORE, c.regs[a], c.regs[x]))
  {
  }

  lemma {:induction false} StoreRight(ctx: ZkVM.Ctx, cell: Cell, v: Val, names: seq<Reg>, free: set<Reg>, m: Mem,
                                      c: Core)
    requires Agrees(ctx, names, free, m, c) && Reads(StoreTo(cell, v), m.temps.Keys)
    requires LowerStmt(StoreTo(cell, v), names, free).Some?
    requires AllInField(LowerStmt(StoreTo(cell, v), names, free).value.lines)
    ensures StmtRight(ctx, StoreTo(cell, v), names, free, m, c)
  {
    hide ExecLines, ExecLine, Store, Mat, MatAddr, Eval, EvalAddr;
    var s := m.Visible();
    var x := Mat(v, names, free).value;
    var at := MatAddr(cell, names, x.free).value;
    var line := Plain(SSTORE, at.reg, x.reg);
    var tail := at.lines + [line];
    assert x.lines + at.lines + [line] == x.lines + tail;
    AllInFieldParts(x.lines, tail);
    AllInFieldParts(at.lines, [line]);
    MatCorrect(ctx, names, free, s, v, c);
    ExecLinesAppend(ctx, x.lines, tail, c);
    var w := Eval(ctx, s, v);
    if w.Some? {
      var c1 := After(ctx, x.lines, c);
      ReadyKept(ctx, names, free, s, c, c1, x.free, w.value.log);
      AddrCorrect(ctx, names, x.free, s, cell, c1);
      ExecLinesAppend(ctx, at.lines, [line], c1);
      var u := EvalAddr(ctx, s, cell);
      if u.Some? {
        var c2 := After(ctx, at.lines, c1);
        KeptTrans(c, c1, c2, free, free, x.free, w.value.log, u.value.log);
        AgreesKept(ctx, names, free, m, c, c2, w.value.log + u.value.log);
        assert m.io + w.value.log + u.value.log == m.io + (w.value.log + u.value.log);
        ExecLinesOne(ctx, line, c2);
        StoreExec(ctx, at.reg, x.reg, c2);
      }
    }
  }

  lemma {:induction false} StraightRight(ctx: ZkVM.Ctx, s: Stmt, names: seq<Reg>, free: set<Reg>, m: Mem, c: Core)
    requires !Flows(s) && Agrees(ctx, names, free, m, c) && Reads(s, m.temps.Keys)
    requires LowerStmt(s, names, free).Some? && AllInField(LowerStmt(s, names, free).value.lines)
    ensures StmtRight(ctx, s, names, free, m, c)
  {
    if s.Keep? {
      KeepRight(ctx, s.v, names, free, m, c);
    } else if s.StoreTo? {
      StoreRight(ctx, s.cell, s.v, names, free, m, c);
    } else {
      SimpleRight(ctx, s, names, free, m, c);
    }
  }

  // ---- a whole method ------------------------------------------------------------------------------

  /** The body lowers and its lines assemble with immediates in the field. */
  ghost predicate BuiltTo(stmts: seq<Stmt>, lines: seq<Line>) {
    Lower(stmts).Some? && Lower(stmts).value.lines == lines && AllInField(lines) && Assembled(lines).Ok?
  }

  /** Lowering a body lowers every prefix of it, and statement i's lines sit right after the first i's. */
  lemma {:induction false} LowerAt(stmts: seq<Stmt>, i: nat)
    requires Lower(stmts).Some? && i < |stmts|
    ensures Lower(stmts[..i]).Some? && Lower(stmts[..i + 1]).Some?
    ensures var b := Lower(stmts[..i]).value;
            var e := LowerStmt(stmts[i], b.names, b.free);
            e.Some? && Lower(stmts[..i + 1]) == Some(e.value.(lines := b.lines + e.value.lines)) &&
            LinePlaced(Lower(stmts).value.lines, |b.lines|, e.value.lines)
    ensures Lower(stmts[..i + 1]).value.lines <= Lower(stmts).value.lines
    decreases |stmts|
  {
    hide LowerStmt;
    var n := |stmts| - 1;
    var init := stmts[..n];
    if i == n {
      assert stmts[..i + 1] == stmts;
    } else {
      LowerAt(init, i);
      assert init[..i] == stmts[..i] && init[..i + 1] == stmts[..i + 1];
    }
  }

  lemma LowerPrefix(stmts: seq<Stmt>, i: nat)
    requires Lower(stmts).Some? && i <= |stmts|
    ensures Lower(stmts[..i]).Some?
  {
    if i < |stmts| { LowerAt(stmts, i); } else { assert stmts[..i] == stmts; }
  }

  /** Kept registers are numbered in the order of their m.set, and later code only adds to them. */
  lemma {:induction false} NamesGrow(stmts: seq<Stmt>, i: nat, j: nat)
    requires Lower(stmts).Some? && i <= j <= |stmts|
    ensures Lower(stmts[..i]).Some? && Lower(stmts[..j]).Some?
    ensures var b, d := Lower(stmts[..i]).value, Lower(stmts[..j]).value;
            b.names <= d.names && d.free <= b.free && |b.names| == KeptBefore(stmts, i)
    decreases j
  {
    LowerPrefix(stmts, i);
    LowerPrefix(stmts, j);
    if j > 0 {
      LowerAt(stmts, j - 1);
      var b := Lower(stmts[..j - 1]).value;
      StmtBalanced(stmts[j - 1], b.names, b.free);
      if i < j {
        NamesGrow(stmts, i, j - 1);
      } else {
        NamesGrow(stmts, i - 1, j - 1);
      }
    }
  }

  lemma AssembledLines(lines: seq<Line>, p: nat, block: seq<Line>)
    requires Assembled(lines).Ok? && LinePlaced(lines, p, block)
    ensures forall k :: 0 <= k < |block| ==> Expand(block[k]).Ok?
  {
    forall k | 0 <= k < |block| ensures Expand(block[k]).Ok? {
      assert lines[p..p + |block|][k] == lines[p + k];
      ExpandAllAt(lines, p + k);
    }
  }

  lemma InFieldPlaced(lines: seq<Line>, p: nat, block: seq<Line>)
    requires AllInField(lines) && LinePlaced(lines, p, block)
    ensures AllInField(block)
  {
    forall k | 0 <= k < |block| ensures InField(block[k]) {
      assert lines[p..p + |block|][k] == lines[p + k];
    }
  }

  // ---- labels --------------------------------------------------------------------------------------

  predicate NoLabels(lines: seq<Line>) {
    forall i :: 0 <= i < |lines| ==> !lines[i].Label?
  }

  lemma {:induction false} LabelSkips(lines: seq<Line>, more: seq<Line>, name: string)
    requires NoLabels(more)
    ensures LabelLine(lines + more, name) == LabelLine(lines, name)
    decreases |more|
  {
    if more == [] {
      assert lines + more == lines;
    } else {
      var n := |more| - 1;
      assert (lines + more)[..|lines + more| - 1] == lines + more[..n];
      assert (lines + more)[|lines + more| - 1] == more[n];
      LabelSkips(lines, more[..n], name);
    }
  }

  lemma StmtNoLabels(s: Stmt, names: seq<Reg>, free: set<Reg>)
    requires Pinned(names, free) && LowerStmt(s, names, free).Some? && !s.LabelAt?
    ensures NoLabels(LowerStmt(s, names, free).value.lines)
  {
    hide Mat, MatAddr, MatAll;
    if s.Keep? {
      MatTame(s.v, names, free);
      OwnTame(Mat(s.v, names, free).value, free);
    } else if s.StoreTo? {
      MatTame(s.v, names, free);
      AddrTame(s.cell, names, Mat(s.v, names, free).value.free);
    } else {
      AllMatTame(Operands(s), names, free);
    }
  }

  lemma LabelAppend(lines: seq<Line>, x: string, name: string)
    ensures LabelLine(lines + [Label(x)], name) == if x == name then Some(|lines|) else LabelLine(lines, name)
  {
    assert (lines + [Label(x)])[..|lines|] == lines;
  }

  /** Looking a label up among the lines finds the start of the statement that defines it. */
  lemma {:induction false} LabelsAgree(stmts: seq<Stmt>, name: string)
    requires Lower(stmts).Some?
    ensures match LabelStmt(stmts, name)
            case None => LabelLine(Lower(stmts).value.lines, name) == None
            case Some(j) =>
              Lower(stmts[..j]).Some? && LabelLine(Lower(stmts).value.lines, name) == Some(Start(stmts, j))
    decreases |stmts|
  {
    hide Lower, LowerStmt, LabelLine, LabelStmt;
    LabelStmtStep(stmts, name);
    if stmts != [] {
      var n := |stmts| - 1;
      var init := stmts[..n];
      LowerAt(stmts, n);
      assert stmts[..n + 1] == stmts;
      var s, b := stmts[n], Lower(init).value;
      var e := LowerStmt(s, b.names, b.free).value;
      LabelsAgree(init, name);
      if s.LabelAt? {
        LabelAlone(s, b.names, b.free);
        LabelAppend(b.lines, s.name, name);
      } else {
        StmtNoLabels(s, b.names, b.free);
        LabelSkips(b.lines, e.lines, name);
      }
      var at := LabelStmt(init, name);
      if at.Some? { assert init[..at.value] == stmts[..at.value]; }
    } else {
      LowerNone();
    }
  }

  lemma LowerNone()
    ensures Lower([]) == Some(Built([], [], TEMPS)) && forall name: string :: LabelLine([], name) == None
  {
  }

  lemma LabelStmtStep(stmts: seq<Stmt>, name: string)
    ensures LabelStmt(stmts, name) ==
            if stmts == [] then None
            else if stmts[|stmts| - 1] == LabelAt(name) then Some(|stmts| - 1)
            else LabelStmt(stmts[..|stmts| - 1], name)
  {
  }

  lemma LabelAlone(s: Stmt, names: seq<Reg>, free: set<Reg>)
    requires Pinned(names, free) && (s.LabelAt? || s.Goto?) && LowerStmt(s, names, free).Some?
    ensures LowerStmt(s, names, free).value.lines == [FinalLine(s, [])]
  {
    assert MatAll([], names, free).value.regs == [];
    assert [] + [FinalLine(s, [])] == [FinalLine(s, [])];
  }

  // ---- the simulation ------------------------------------------------------------------------------

  lemma LowerReads(s: Stmt, names: seq<Reg>, free: set<Reg>)
    requires Pinned(names, free) && LowerStmt(s, names, free).Some?
    ensures Reads(s, Numbered(|names|))
  {
    hide Mat, MatAddr, MatAll, TempsIn;
    match s
    case Keep(v) => MatReads(v, names, free);
    case StoreTo(cell, v) =>
      MatReads(v, names, free);
      AddrReads(cell, names, Mat(v, names, free).value.free);
    case _ => AllReads(Operands(s), names, free);
  }

  /** The registers statement i's lines may change. */
  function StmtTouches(stmts: seq<Stmt>, i: nat): set<Reg>
    requires i < |stmts|
  {
    match Lower(stmts[..i])
    case None => {}
    case Some(b) =>
      match LowerStmt(stmts[i], b.names, b.free)
      case None => {}
      case Some(e) => Touched(e.lines)
  }

  /** What executing each statement costs: the temporaries set further down whose registers it uses as scratch. */
  function Clobbered(stmts: seq<Stmt>): (lost: seq<set<nat>>)
    ensures |lost| == |stmts|
  {
    match Lower(stmts)
    case None => Nothing(stmts)
    case Some(all) =>
      seq(|stmts|, i requires 0 <= i < |stmts| =>
        set t | t in Numbered(|all.names|) && KeptBefore(stmts, i + 1) <= t && all.names[t] in StmtTouches(stmts, i))
  }

  lemma ClobberedAt(stmts: seq<Stmt>, i: nat, t: nat)
    requires Lower(stmts).Some? && i < |stmts|
    ensures var all := Lower(stmts).value.names;
            t in Clobbered(stmts)[i] <==>
            t < |all| && KeptBefore(stmts, i + 1) <= t && all[t] in StmtTouches(stmts, i)
  {
    hide Lower, KeptBefore, StmtTouches;
  }

  /** The machine holds every temporary the source has, and agrees with it on everything else. */
  ghost predicate Holds(ctx: ZkVM.Ctx, names: seq<Reg>, m: Mem, c: Core) {
    && c.regs[0] == ctx.ArgOrZero(0)
    && (forall t :: t in m.temps ==> t < |names| && c.regs[names[t]] == m.temps[t])
    && c.st == m.st && c.apend == m.apend && c.io == m.io && c.asel == 0
  }

  /** The source run from statement i is the line run from its first line, unless a lost temporary is read. */
  ghost predicate Simulates(ctx: ZkVM.Ctx, stmts: seq<Stmt>, i: nat, m: Mem, c: Core, gas: nat)
    requires Lower(stmts).Some? && i <= |stmts| && Lower(stmts[..i]).Some?
  {
    var src := SrcRun(ctx, stmts, Costs(stmts), Clobbered(stmts), i, m, gas);
    src.Unset? || src == Finished(LineRun(ctx, Lower(stmts).value.lines, Start(stmts, i), c, gas))
  }

  /** Source and machine agree on entry to statement i of a built method. */
  ghost predicate At(ctx: ZkVM.Ctx, stmts: seq<Stmt>, lines: seq<Line>, i: nat, m: Mem, c: Core) {
    && BuiltTo(stmts, lines) && i <= |stmts| && Lower(stmts[..i]).Some?
    && Holds(ctx, Lower(stmts).value.names, m, c)
  }

  /** At statement i the lowering knows the temporaries named before it. */
  lemma Here(ctx: ZkVM.Ctx, stmts: seq<Stmt>, lines: seq<Line>, i: nat, m: Mem, c: Core)
    requires At(ctx, stmts, lines, i, m, c) && i < |stmts|
    ensures var b := Lower(stmts[..i]).value;
            Agrees(ctx, b.names, b.free, Scope(stmts, i, m), c) && |b.names| == KeptBefore(stmts, i)
    ensures Part(Scope(stmts, i, m), m)
  {
    hide Lower, KeptBefore;
    assert stmts[..|stmts|] == stmts;
    NamesGrow(stmts, i, |stmts|);
  }

  /** And it reads no others. */
  lemma ReadsHere(stmts: seq<Stmt>, i: nat, m: Mem)
    requires Lower(stmts).Some? && i < |stmts| && Reads(stmts[i], m.temps.Keys)
    ensures Reads(stmts[i], Scope(stmts, i, m).temps.Keys)
  {
    hide Lower, LowerStmt, Reads, KeptBefore;
    LowerAt(stmts, i);
    NamesGrow(stmts, i, i);
    var b := Lower(stmts[..i]).value;
    LowerReads(stmts[i], b.names, b.free);
    ReadsMeet(stmts[i], m.temps.Keys, Numbered(|b.names|));
    assert Scope(stmts, i, m).temps.Keys == m.temps.Keys * Numbered(|b.names|);
  }

  /** After statement i: what was named before it or by it is right by agreement, the rest unless its register was
    * touched. */
  lemma HoldsAfter(ctx: ZkVM.Ctx, stmts: seq<Stmt>, i: nat, m: Mem, a: Mem, after: Mem, c: Core, c': Core)
    requires Lower(stmts).Some? && i < |stmts| && Lower(stmts[..i + 1]).Some?
    requires Holds(ctx, Lower(stmts).value.names, m, c)
    requires var b := Lower(stmts[..i + 1]).value; Agrees(ctx, b.names, b.free, a, c')
    requires after == a.(temps := m.temps + a.temps)
    requires forall t :: t in m.temps && t < KeptBefore(stmts, i + 1) ==> t in a.temps
    requires forall r: Reg :: r in TEMPS && r !in StmtTouches(stmts, i) ==> c'.regs[r] == c.regs[r]
    ensures Holds(ctx, Lower(stmts).value.names, Forget(after, Clobbered(stmts)[i]), c')
  {
    hide Lower, StmtTouches, KeptBefore, Clobbered;
    assert stmts[..|stmts|] == stmts;
    NamesGrow(stmts, i + 1, |stmts|);
    var all := Lower(stmts).value.names;
    var left := Forget(after, Clobbered(stmts)[i]);
    forall t | t in left.temps ensures t < |all| && c'.regs[all[t]] == left.temps[t] {
      ClobberedAt(stmts, i, t);
      if t in a.temps {
        assert Lower(stmts[..i + 1]).value.names[t] == all[t];
      } else {
        assert all[t] in TEMPS && all[t] !in StmtTouches(stmts, i);
      }
    }
  }

  lemma {:induction false} SourceSimulation(ctx: ZkVM.Ctx, stmts: seq<Stmt>, lines: seq<Line>, i: nat, m: Mem, c: Core,
                                            gas: nat)
    requires At(ctx, stmts, lines, i, m, c)
    ensures Simulates(ctx, stmts, i, m, c, gas)
    decreases gas, |stmts| - i, 2
  {
    hide Lower, LineRun, LowerStmt, Effect, Costs;
    if i == |stmts| {
      RunsOff(ctx, stmts, lines, m, c, gas);
    } else if stmts[i].LabelAt? {
      LabelCase(ctx, stmts, lines, i, m, c, gas);
    } else if !Reads(stmts[i], m.temps.Keys) {
    } else if Flows(stmts[i]) {
      FlowCase(ctx, stmts, lines, i, m, c, gas);
    } else {
      StraightCase(ctx, stmts, lines, i, m, c, gas);
    }
  }

  lemma RunsOff(ctx: ZkVM.Ctx, stmts: seq<Stmt>, lines: seq<Line>, m: Mem, c: Core, gas: nat)
    requires At(ctx, stmts, lines, |stmts|, m, c)
    ensures Simulates(ctx, stmts, |stmts|, m, c, gas)
  {
    hide Lower;
    assert stmts[..|stmts|] == stmts;
  }

  lemma {:induction false} LabelCase(ctx: ZkVM.Ctx, stmts: seq<Stmt>, lines: seq<Line>, i: nat, m: Mem, c: Core,
                                     gas: nat)
    requires At(ctx, stmts, lines, i, m, c) && i < |stmts| && stmts[i].LabelAt?
    ensures Simulates(ctx, stmts, i, m, c, gas)
    decreases gas, |stmts| - i, 0
  {
    hide Lower, LowerStmt, Costs;
    LowerAt(stmts, i);
    var b := Lower(stmts[..i]).value;
    var p := |b.lines|;
    LabelAlone(stmts[i], b.names, b.free);
    StmtBalanced(stmts[i], b.names, b.free);
    assert lines[p] == lines[p..p + 1][0] == Label(stmts[i].name);
    SourceSimulation(ctx, stmts, lines, i + 1, m, c, gas);
  }

  lemma CostAt(stmts: seq<Stmt>, i: nat)
    requires Lower(stmts).Some? && i < |stmts| && Lower(stmts[..i]).Some?
    requires var b := Lower(stmts[..i]).value; LowerStmt(stmts[i], b.names, b.free).Some?
    ensures var b := Lower(stmts[..i]).value;
            Costs(stmts)[i] == LinesSize(LowerStmt(stmts[i], b.names, b.free).value.lines)
  {
    hide Lower, LowerStmt;
  }

  lemma StmtTame(s: Stmt, names: seq<Reg>, free: set<Reg>)
    requires Pinned(names, free) && LowerStmt(s, names, free).Some? && !Flows(s)
    ensures AllTame(LowerStmt(s, names, free).value.lines, free)
    ensures LowerStmt(s, names, free).value.lines != []
  {
    hide Mat, MatAddr, MatAll;
    if s.Keep? {
      MatTame(s.v, names, free);
      OwnTame(Mat(s.v, names, free).value, free);
      KeepEmits(s.v, names, free);
    } else if s.StoreTo? {
      MatTame(s.v, names, free);
      AddrTame(s.cell, names, Mat(s.v, names, free).value.free);
    } else {
      AllMatTame(Operands(s), names, free);
    }
  }

  /** An owned value always took at least one instruction. */
  lemma {:induction false} MatEmits(v: Val, names: seq<Reg>, free: set<Reg>)
    requires Pinned(names, free) && Mat(v, names, free).Some? && Owned(v)
    ensures Mat(v, names, free).value.lines != []
  {
    if v.Bin? {
      var d, y := BinShape(v, names, free);
      hide Mat;
    } else if v.Muldiv? {
      var d, y, z := MuldivShape(v, names, free);
      hide Mat;
    } else if v.Mux? {
      var k, t, f, code := MuxShape(v, names, free);
      hide Mat;
    } else {
      LowEmits(v, names, free);
    }
  }

  lemma LowEmits(v: Val, names: seq<Reg>, free: set<Reg>)
    requires Pinned(names, free) && Mat(v, names, free).Some? && Owned(v) && !v.Bin? && !v.Muldiv? && !v.Mux?
    ensures Mat(v, names, free).value.lines != []
  {
  }

  lemma KeepEmits(v: Val, names: seq<Reg>, free: set<Reg>)
    requires Pinned(names, free) && LowerStmt(Keep(v), names, free).Some?
    ensures LowerStmt(Keep(v), names, free).value.lines != []
  {
    hide Mat;
    if Owned(v) { MatEmits(v, names, free); }
  }

  /** Where a straight statement's lines sit, and what they cost. */
  lemma StraightPlaced(stmts: seq<Stmt>, lines: seq<Line>, i: nat) returns (b: Built, e: Built)
    requires BuiltTo(stmts, lines) && i < |stmts| && !Flows(stmts[i])
    ensures Lower(stmts[..i]) == Some(b) && |b.names| == KeptBefore(stmts, i)
    ensures LowerStmt(stmts[i], b.names, b.free) == Some(e) && AllInField(e.lines) && Runnable(e.lines)
    ensures LinePlaced(lines, |b.lines|, e.lines)
    ensures Lower(stmts[..i + 1]) == Some(e.(lines := b.lines + e.lines))
    ensures Costs(stmts)[i] == LinesSize(e.lines) >= 1
  {
    hide Lower, LowerStmt, Costs, Size;
    LowerAt(stmts, i);
    CostAt(stmts, i);
    NamesGrow(stmts, i, i);
    b := Lower(stmts[..i]).value;
    e := LowerStmt(stmts[i], b.names, b.free).value;
    InFieldPlaced(lines, |b.lines|, e.lines);
    AssembledLines(lines, |b.lines|, e.lines);
    StmtTame(stmts[i], b.names, b.free);
    TameSize(e.lines[0]);
  }

  lemma {:induction false} StraightCase(ctx: ZkVM.Ctx, stmts: seq<Stmt>, lines: seq<Line>, i: nat, m: Mem, c: Core,
                                        gas: nat)
    requires At(ctx, stmts, lines, i, m, c) && i < |stmts| && !Flows(stmts[i]) && Reads(stmts[i], m.temps.Keys)
    ensures Simulates(ctx, stmts, i, m, c, gas)
    decreases gas, |stmts| - i, 0
  {
    hide Lower, LowerStmt, Costs, Clobbered, LineRun, SrcRun, ExecLines, ExecLine, Effect, LinesSize, Reads;
    hide StmtTouches, Holds, Agrees, Part, KeptBefore;
    Here(ctx, stmts, lines, i, m, c);
    ReadsHere(stmts, i, m);
    var b, e := StraightPlaced(stmts, lines, i);
    var s, h := stmts[i], Scope(stmts, i, m);
    StraightRight(ctx, s, b.names, b.free, h, c);
    LineBlock(ctx, lines, |b.lines|, e.lines, c, gas);
    StraightSource(ctx, stmts, i, m, gas);
    EffectPart(ctx, s, |b.names|, h, m);
    var cost := Costs(stmts)[i];
    var a := Effect(ctx, s, |b.names|, h);
    if a.Some? && gas >= cost {
      var c', after := After(ctx, e.lines, c), Effect(ctx, s, |b.names|, m).value;
      StraightKeeps(ctx, stmts, i, b, e, c);
      NamedStay(stmts, i, m, a.value);
      HoldsAfter(ctx, stmts, i, m, a.value, after, c, c');
      SourceSimulation(ctx, stmts, lines, i + 1, Forget(after, Clobbered(stmts)[i]), c', gas - cost);
    }
  }

  lemma NamedStay(stmts: seq<Stmt>, i: nat, m: Mem, a: Mem)
    requires i < |stmts|
    requires a.temps.Keys == Scope(stmts, i, m).temps.Keys + (if stmts[i].Keep? then {KeptBefore(stmts, i)} else {})
    ensures forall t :: t in m.temps && t < KeptBefore(stmts, i + 1) ==> t in a.temps
  {
  }

  lemma StraightKeeps(ctx: ZkVM.Ctx, stmts: seq<Stmt>, i: nat, b: Built, e: Built, c: Core)
    requires i < |stmts| && Lower(stmts[..i]) == Some(b) && LowerStmt(stmts[i], b.names, b.free) == Some(e)
    requires Runnable(e.lines) && ExecLines(ctx, e.lines, c).Some?
    ensures forall r: Reg :: r !in StmtTouches(stmts, i) ==> After(ctx, e.lines, c).regs[r] == c.regs[r]
  {
    hide Lower, LowerStmt, ExecLines, Touched, Expand;
    forall r: Reg | r !in StmtTouches(stmts, i) ensures After(ctx, e.lines, c).regs[r] == c.regs[r] {
      UntouchedKept(ctx, e.lines, c, r);
    }
  }

  lemma StraightSource(ctx: ZkVM.Ctx, stmts: seq<Stmt>, i: nat, m: Mem, gas: nat)
    requires i < |stmts| && !Flows(stmts[i]) && Reads(stmts[i], m.temps.Keys) && Costs(stmts)[i] >= 1
    ensures SrcRun(ctx, stmts, Costs(stmts), Clobbered(stmts), i, m, gas) ==
            match Effect(ctx, stmts[i], KeptBefore(stmts, i), m)
            case None => Finished(Failure)
            case Some(m') =>
              if gas < Costs(stmts)[i] then Finished(Failure)
              else SrcRun(ctx, stmts, Costs(stmts), Clobbered(stmts), i + 1, Forget(m', Clobbered(stmts)[i]),
                          gas - Costs(stmts)[i])
  {
    hide Costs, Effect;
  }

  /** What a jump or return leads to, once its operands are evaluated and gas is left for the line itself. */
  ghost function FlowRest(ctx: ZkVM.Ctx, stmts: seq<Stmt>, i: nat, m: Mem, m2: Mem, gas: nat): SrcOutcome
    requires i < |stmts| && Flows(stmts[i])
  {
    if gas < 1 then Finished(Failure)
    else if stmts[i].Return? then Finished(Success(Operand0(ctx, stmts[i], m), m2.st, m2.io))
    else
      match NextStmt(ctx, stmts, i, m)
      case None => Finished(Failure)
      case Some(j) =>
        SrcRun(ctx, stmts, Costs(stmts), Clobbered(stmts), j, Forget(m2, Clobbered(stmts)[i]), gas - 1)
  }

  /** The source run of a jump or return, with its cost split into operands and line. */
  lemma FlowSource(ctx: ZkVM.Ctx, stmts: seq<Stmt>, i: nat, m: Mem, gas: nat, size: nat)
    requires i < |stmts| && Flows(stmts[i]) && !stmts[i].LabelAt? && Reads(stmts[i], m.temps.Keys)
    requires Costs(stmts)[i] == size + 1
    ensures SrcRun(ctx, stmts, Costs(stmts), Clobbered(stmts), i, m, gas) ==
            match EvalAll(ctx, m.Visible(), Operands(stmts[i]))
            case None => Finished(Failure)
            case Some(w) =>
              if gas < size then Finished(Failure)
              else FlowRest(ctx, stmts, i, m, Act(ctx, stmts[i], w.xs, m.(io := m.io + w.log)).value, gas - size)
  {
    hide Costs, EvalAll;
  }

  /** Where a jump or return's operand lines and final line sit, and what they cost. */
  lemma FlowPlaced(stmts: seq<Stmt>, lines: seq<Line>, i: nat) returns (xs: Codes)
    requires BuiltTo(stmts, lines) && i < |stmts| && Flows(stmts[i]) && !stmts[i].LabelAt?
    ensures Lower(stmts[..i]).Some? && Lower(stmts[..i + 1]).Some?
    ensures var b := Lower(stmts[..i]).value;
            && LowerStmt(stmts[i], b.names, b.free).Some?
            && AllInField(LowerStmt(stmts[i], b.names, b.free).value.lines)
            && MatAll(Operands(stmts[i]), b.names, b.free) == Some(xs)
            && LinePlaced(lines, |b.lines|, xs.lines) && Runnable(xs.lines)
            && Start(stmts, i) + |xs.lines| + 1 == Start(stmts, i + 1) <= |lines|
            && lines[Start(stmts, i) + |xs.lines|] == FinalLine(stmts[i], xs.regs)
    ensures Costs(stmts)[i] == LinesSize(xs.lines) + 1
  {
    hide Lower, LowerStmt, Costs, MatAll, LinesSize, Tame, AllTame, Size, Expand, InField;
    LowerAt(stmts, i);
    CostAt(stmts, i);
    var s, b := stmts[i], Lower(stmts[..i]).value;
    var p := |b.lines|;
    xs := FlowLowers(s, b.names, b.free);
    var last := FinalLine(s, xs.regs);
    var block := xs.lines + [last];
    InFieldPlaced(lines, p, block);
    AssembledLines(lines, p, block);
    AllMatTame(Operands(s), b.names, b.free);
    assert lines[p..p + |xs.lines|] == lines[p..p + |block|][..|xs.lines|] == xs.lines;
    assert forall k :: 0 <= k < |xs.lines| ==> xs.lines[k] == block[k];
    RunnableFrom(xs.lines, b.free);
    LinesSizeAppend(xs.lines, [last]);
    assert lines[p + |xs.lines|] == lines[p..p + |block|][|xs.lines|] == last;
    FinalSize(s, xs.regs);
  }

  lemma FlowLowers(s: Stmt, names: seq<Reg>, free: set<Reg>) returns (xs: Codes)
    requires Pinned(names, free) && Flows(s) && LowerStmt(s, names, free).Some?
    ensures MatAll(Operands(s), names, free) == Some(xs)
    ensures LowerStmt(s, names, free).value.lines == xs.lines + [FinalLine(s, xs.regs)]
  {
    hide MatAll;
    xs := MatAll(Operands(s), names, free).value;
  }

  lemma RunnableFrom(block: seq<Line>, free: set<Reg>)
    requires AllTame(block, free) && free <= TEMPS && forall k :: 0 <= k < |block| ==> Expand(block[k]).Ok?
    ensures Runnable(block)
  {
    hide Tame, Expand;
    forall k | 0 <= k < |block| ensures Tame(block[k], TEMPS) { TameMono(block[k], free, TEMPS); }
  }

  lemma {:induction false} FlowCase(ctx: ZkVM.Ctx, stmts: seq<Stmt>, lines: seq<Line>, i: nat, m: Mem, c: Core,
                                    gas: nat)
    requires At(ctx, stmts, lines, i, m, c) && i < |stmts|
    requires Flows(stmts[i]) && !stmts[i].LabelAt? && Reads(stmts[i], m.temps.Keys)
    ensures Simulates(ctx, stmts, i, m, c, gas)
    decreases gas, |stmts| - i, 1
  {
    hide Lower, LowerStmt, Costs, Clobbered, LineRun, SrcRun, ExecLines, ExecLine, MatAll, EvalAll, Act, LinesSize;
    hide FlowRest, Reads, StmtTouches, Holds, Agrees, Part, KeptBefore;
    Here(ctx, stmts, lines, i, m, c);
    ReadsHere(stmts, i, m);
    var xs := FlowPlaced(stmts, lines, i);
    var s, b, h := stmts[i], Lower(stmts[..i]).value, Scope(stmts, i, m);
    SimpleExec(ctx, s, b.names, b.free, h, c);
    LineBlock(ctx, lines, |b.lines|, xs.lines, c, gas);
    var size := LinesSize(xs.lines);
    FlowSource(ctx, stmts, i, m, gas, size);
    OperandsPart(ctx, s, h, m);
    var w := EvalAll(ctx, m.Visible(), Operands(s));
    if w.Some? && gas >= size {
      var c1 := After(ctx, xs.lines, c);
      FlowKeeps(ctx, stmts, i, xs, c);
      FlowHolds(ctx, stmts, i, m, w.value.log, c, c1);
      LastLine(ctx, stmts, lines, i, |b.lines| + |xs.lines|, m, w.value, c1, xs.regs, gas - size);
    }
  }

  lemma OperandsPart(ctx: ZkVM.Ctx, s: Stmt, small: Mem, big: Mem)
    requires Simple(s) && Part(small, big) && Reads(s, small.temps.Keys)
    ensures EvalAll(ctx, small.Visible(), Operands(s)) == EvalAll(ctx, big.Visible(), Operands(s))
  {
    hide EvalAll, TempsIn;
    EvalAllPart(ctx, small, big, Operands(s));
  }

  /** The operands' lines touch no more than the whole statement's. */
  lemma FlowKeeps(ctx: ZkVM.Ctx, stmts: seq<Stmt>, i: nat, xs: Codes, c: Core)
    requires i < |stmts| && Flows(stmts[i]) && Lower(stmts[..i]).Some?
    requires var b := Lower(stmts[..i]).value;
             && LowerStmt(stmts[i], b.names, b.free).Some?
             && MatAll(Operands(stmts[i]), b.names, b.free) == Some(xs)
    requires Runnable(xs.lines) && ExecLines(ctx, xs.lines, c).Some?
    ensures forall r: Reg :: r !in StmtTouches(stmts, i) ==> After(ctx, xs.lines, c).regs[r] == c.regs[r]
  {
    hide Lower, MatAll, ExecLines, Touched, Expand;
    var last := FinalLine(stmts[i], xs.regs);
    TouchedMore(xs.lines, last);
    forall r: Reg | r !in StmtTouches(stmts, i) ensures After(ctx, xs.lines, c).regs[r] == c.regs[r] {
      UntouchedKept(ctx, xs.lines, c, r);
    }
  }

  lemma TouchedMore(lines: seq<Line>, last: Line)
    ensures Touched(lines) <= Touched(lines + [last])
  {
    forall r | r in Touched(lines) ensures r in Touched(lines + [last]) {
      TouchedAt(lines, r);
      TouchedAt(lines + [last], r);
      var i :| 0 <= i < |lines| && r in Writes(lines[i]);
      assert (lines + [last])[i] == lines[i];
    }
  }

  lemma FlowHolds(ctx: ZkVM.Ctx, stmts: seq<Stmt>, i: nat, m: Mem, log: seq<Entry>, c: Core, c1: Core)
    requires Lower(stmts).Some? && i < |stmts| && Flows(stmts[i])
    requires Lower(stmts[..i]).Some? && Lower(stmts[..i + 1]).Some?
    requires Holds(ctx, Lower(stmts).value.names, m, c)
    requires var b, h := Lower(stmts[..i]).value, Scope(stmts, i, m);
             Agrees(ctx, b.names, b.free, h.(io := h.io + log), c1)
    requires forall r: Reg :: r !in StmtTouches(stmts, i) ==> c1.regs[r] == c.regs[r]
    ensures Holds(ctx, Lower(stmts).value.names, Forget(m.(io := m.io + log), Clobbered(stmts)[i]), c1)
  {
    hide Lower, LowerStmt, StmtTouches, Holds, Clobbered, Agrees;
    var h := Scope(stmts, i, m);
    var a := h.(io := h.io + log);
    LowerAt(stmts, i);
    var b := Lower(stmts[..i]).value;
    StmtBalanced(stmts[i], b.names, b.free);
    NamedStay(stmts, i, m, a);
    assert m.(io := m.io + log) == a.(temps := m.temps + a.temps);
    HoldsAfter(ctx, stmts, i, m, a, m.(io := m.io + log), c, c1);
  }

  lemma FinalSize(s: Stmt, regs: seq<Reg>)
    requires Flows(s) && !s.LabelAt? && |regs| == |Operands(s)|
    ensures Size(FinalLine(s, regs)) == 1 && LinesSize([FinalLine(s, regs)]) == 1
  {
    assert [FinalLine(s, regs)][1..] == [];
  }

  /** From the final line of a jump or return on, the line run is what the source goes on with. */
  ghost predicate LastRight(ctx: ZkVM.Ctx, stmts: seq<Stmt>, lines: seq<Line>, i: nat, p: nat, m: Mem, w: SeenAll,
                            c1: Core, gas: nat)
    requires i < |stmts| && Flows(stmts[i]) && |w.xs| == |Operands(stmts[i])|
  {
    var act := Act(ctx, stmts[i], w.xs, m.(io := m.io + w.log));
    && act.Some?
    && var src := FlowRest(ctx, stmts, i, m, act.value, gas);
       src.Unset? || src == Finished(LineRun(ctx, lines, p, c1, gas))
  }

  /** The jump or return itself, with its operands already in registers. */
  lemma {:induction false} LastLine(ctx: ZkVM.Ctx, stmts: seq<Stmt>, lines: seq<Line>, i: nat, p: nat, m: Mem,
                                    w: SeenAll, c1: Core, regs: seq<Reg>, gas: nat)
    requires BuiltTo(stmts, lines) && i < |stmts| && Lower(stmts[..i + 1]).Some?
    requires Holds(ctx, Lower(stmts).value.names, Forget(m.(io := m.io + w.log), Clobbered(stmts)[i]), c1)
    requires Flows(stmts[i]) && !stmts[i].LabelAt?
    requires EvalAll(ctx, m.Visible(), Operands(stmts[i])) == Some(w)
    requires |regs| == |Operands(stmts[i])| && Select(c1.regs, regs) == w.xs
    requires p < |lines| && lines[p] == FinalLine(stmts[i], regs) && p + 1 == Start(stmts, i + 1)
    ensures LastRight(ctx, stmts, lines, i, p, m, w, c1, gas)
    decreases gas, |stmts| - i, 0
  {
    hide Lower, Costs, Clobbered, SrcRun, LineRun, ExecLines, ExecLine, EvalAll, Size, LabelLine, LabelStmt, Act;
    hide NextStmt, Operand0, Reads, BuiltTo;
    var s, m1 := stmts[i], m.(io := m.io + w.log);
    LastStep(ctx, lines, p, s, regs, m1, c1, gas);
    Operand0Is(ctx, s, m, w);
    if gas >= 1 && !s.Return? {
      BuiltLines(stmts, lines);
      LabelsAgree(stmts, s.name);
      NextIs(ctx, stmts, i, m, w);
      var j := NextStmt(ctx, stmts, i, m);
      if j.Some? {
        LowerPrefix(stmts, j.value);
        SourceSimulation(ctx, stmts, lines, j.value, Forget(m1, Clobbered(stmts)[i]), c1, gas - 1);
      }
    }
  }

  lemma BuiltLines(stmts: seq<Stmt>, lines: seq<Line>)
    requires BuiltTo(stmts, lines)
    ensures Lower(stmts).Some? && Lower(stmts).value.lines == lines
  {
  }

  lemma Operand0Is(ctx: ZkVM.Ctx, s: Stmt, m: Mem, w: SeenAll)
    requires Simple(s) && EvalAll(ctx, m.Visible(), Operands(s)) == Some(w)
    ensures Operand0(ctx, s, m) == if |w.xs| > 0 then w.xs[0] else 0
  {
    hide EvalAll;
  }

  lemma NextIs(ctx: ZkVM.Ctx, stmts: seq<Stmt>, i: nat, m: Mem, w: SeenAll)
    requires i < |stmts| && (stmts[i].Goto? || stmts[i].GotoIf?)
    requires EvalAll(ctx, m.Visible(), Operands(stmts[i])) == Some(w)
    ensures NextStmt(ctx, stmts, i, m) ==
            if stmts[i].Goto? || w.xs[0] != 0 then LabelStmt(stmts, stmts[i].name) else Some(i + 1)
  {
    hide EvalAll, LabelStmt;
  }

  /** One step of the line run, at the last line of a jump or return. */
  lemma LastStep(ctx: ZkVM.Ctx, lines: seq<Line>, p: nat, s: Stmt, regs: seq<Reg>, m1: Mem, c1: Core, gas: nat)
    requires Flows(s) && !s.LabelAt? && |regs| == |Operands(s)|
    requires p < |lines| && lines[p] == FinalLine(s, regs)
    requires c1.st == m1.st && c1.io == m1.io && c1.apend == m1.apend && c1.asel == 0
    ensures Act(ctx, s, Select(c1.regs, regs), m1).Some?
    ensures !s.Return? ==> Act(ctx, s, Select(c1.regs, regs), m1) == Some(m1)
    ensures var m2 := Act(ctx, s, Select(c1.regs, regs), m1).value;
            LineRun(ctx, lines, p, c1, gas) ==
            if gas < 1 then Failure
            else if s.Return? then Success(c1.regs[regs[0]], m2.st, m2.io)
            else
              match (if s.Goto? || c1.regs[regs[0]] != 0 then LabelLine(lines, s.name) else Some(p + 1))
              case None => Failure
              case Some(q) => LineRun(ctx, lines, q, c1, gas - 1)
  {
    hide ExecLine, Size, LabelLine;
    ActExec(ctx, s, regs, m1, c1);
    FinalSize(s, regs);
  }

  // ---- down to the machine -------------------------------------------------------------------------

  /** The source memory a call starts from. */
  function Mem0(st: map<Elem, Elem>): Mem {
    Mem(map[], st, [], map[])
  }

  /** Immediates of every deployed program are below P. */
  predicate ImmediatesInField(prog: seq<Ins>) {
    forall i :: 0 <= i < |prog| ==> prog[i].imm < P
  }

  lemma InFieldFromProg(lines: seq<Line>, prog: seq<Ins>)
    requires Assembled(lines) == Ok(prog) && ImmediatesInField(prog)
    ensures AllInField(lines)
  {
    forall i | 0 <= i < |lines| ensures InField(lines[i]) {
      ProgAt(lines, prog, i);
      var code := Expand(lines[i]).value;
      if lines[i].Movi? || lines[i].Slot? {
        assert Resolve(lines, code[0]) == Ok(prog[Pos(lines, i) + 0]);
      }
    }
  }

  lemma SlotsApart(stmts: seq<Stmt>)
    requires Lower(stmts).Some?
    ensures forall i :: 0 <= i < |Lower(stmts).value.lines| ==> SlotOk(Lower(stmts).value.lines[i])
  {
    if stmts != [] {
      var n := |stmts| - 1;
      LowerAt(stmts, n);
      hide Lower, LowerStmt;
      assert stmts[..n + 1] == stmts;
      SlotsApart(stmts[..n]);
      var b := Lower(stmts[..n]).value;
      StmtSlots(stmts[n], b.names, b.free);
    }
  }

  lemma StmtSlots(s: Stmt, names: seq<Reg>, free: set<Reg>)
    requires Pinned(names, free) && LowerStmt(s, names, free).Some?
    ensures var e := LowerStmt(s, names, free).value.lines; forall i :: 0 <= i < |e| ==> SlotOk(e[i])
  {
    hide Mat, MatAddr, MatAll;
    if !Flows(s) {
      StmtTame(s, names, free);
    } else {
      AllMatTame(Operands(s), names, free);
    }
  }

  /**
   Compiler correctness, end to end. For any method whose source lowers and assembles to a program with deployable
   immediates, and any call: unless the source run reads a temporary that was never set or whose register has been used
   as scratch since, running the machine code gives exactly the source run's outcome -- the same success or failure,
   return value, storage and I/O log, under the same gas limit.
   */
  lemma {:induction false} CompilerCorrect(ctx: ZkVM.Ctx, stmts: seq<Stmt>, prog: seq<Ins>, st: map<Elem, Elem>)
    requires Lower(stmts).Some? && Assembled(Lower(stmts).value.lines) == Ok(prog) && ImmediatesInField(prog)
    requires |ctx.args| <= MAX_ARGS
    ensures var src := SrcRun(ctx, stmts, Costs(stmts), Clobbered(stmts), 0, Mem0(st), GAS_LIMIT);
            src.Unset? || src == Finished(Run(ctx, prog, st))
  {
    hide Lower, Costs, SrcRun, LineRun, RunFrom;
    var lines := Lower(stmts).value.lines;
    InFieldFromProg(lines, prog);
    SlotsApart(stmts);
    LowerNone();
    assert stmts[..0] == [];
    var c := Entry0(ctx, st);
    SourceSimulation(ctx, stmts, lines, 0, Mem0(st), c, GAS_LIMIT);
    Simulation(ctx, lines, prog, 0, c, GAS_LIMIT);
  }

  // ---- what never happens --------------------------------------------------------------------------

  /** A statement's lines write free registers and r7 only. */
  lemma StmtWrites(s: Stmt, names: seq<Reg>, free: set<Reg>)
    requires Pinned(names, free) && LowerStmt(s, names, free).Some?
    ensures var e := LowerStmt(s, names, free).value.lines;
            forall k :: 0 <= k < |e| ==> Writes(e[k]) <= free + {7}
  {
    hide Mat, MatAddr, MatAll, Writes;
    if Flows(s) {
      AllMatTame(Operands(s), names, free);
      FlowWrites(s, MatAll(Operands(s), names, free).value.regs);
    } else {
      StmtTame(s, names, free);
    }
  }

  lemma FlowWrites(s: Stmt, regs: seq<Reg>)
    requires Flows(s) && |regs| == |Operands(s)|
    ensures Writes(FinalLine(s, regs)) == {}
  {
  }

  /** No instruction emitted after an m.set writes the register it kept. */
  lemma KeptNeverWritten(stmts: seq<Stmt>, t: nat, i: nat)
    requires Lower(stmts).Some? && i < |stmts| && t < KeptBefore(stmts, i)
    ensures Lower(stmts[..i]).Some?
    ensures var b := Lower(stmts[..i]).value;
            var e := LowerStmt(stmts[i], b.names, b.free);
            && e.Some? && t < |b.names|
            && forall k :: 0 <= k < |e.value.lines| ==> b.names[t] !in Writes(e.value.lines[k])
  {
    hide Lower, LowerStmt, Writes;
    LowerAt(stmts, i);
    NamesGrow(stmts, i, i);
    var b := Lower(stmts[..i]).value;
    StmtWrites(stmts[i], b.names, b.free);
  }

  /** The lines of a whole body, statement by statement, never divide into r7. */
  predicate DividesOk(line: Line) {
    line.Plain? && (line.op.DIVMOD? || line.op.DIVMODW?) ==> line.d != 7
  }

  lemma BodyDivides(stmts: seq<Stmt>)
    requires Lower(stmts).Some?
    ensures forall i :: 0 <= i < |Lower(stmts).value.lines| ==> DividesOk(Lower(stmts).value.lines[i])
  {
    if stmts != [] {
      var n := |stmts| - 1;
      LowerAt(stmts, n);
      hide Lower, LowerStmt;
      assert stmts[..n + 1] == stmts;
      BodyDivides(stmts[..n]);
      var b := Lower(stmts[..n]).value;
      StmtDivides(stmts[n], b.names, b.free);
    }
  }

  lemma StmtDivides(s: Stmt, names: seq<Reg>, free: set<Reg>)
    requires Pinned(names, free) && LowerStmt(s, names, free).Some?
    ensures var e := LowerStmt(s, names, free).value.lines; forall i :: 0 <= i < |e| ==> DividesOk(e[i])
  {
    hide Mat, MatAddr, MatAll;
    if !Flows(s) {
      StmtTame(s, names, free);
    } else {
      AllMatTame(Operands(s), names, free);
    }
  }

  lemma ExpansionFits(line: Line, k: nat)
    requires Expand(line).Ok? && k < |Expand(line).value| && DividesOk(line)
    ensures var p := Expand(line).value[k];
            p.Fixed? ==> && (p.ins.op.DIVMOD? || p.ins.op.DIVMODW? ==> p.ins.d != 7)
                         && (p.ins.op.CTX? || p.ins.op.ACTX? ==> p.ins.imm <= 3)
  {
    if line.Hash? { ZkGuards.AbsorbPlain(line.srcs); }
  }

  /**
   A built method is refused by the deploy gate only for its size, an immediate outside the field, or a jump to the
   very end: register, division and pairing rules always hold.
   */
  lemma BuiltGate(stmts: seq<Stmt>, prog: seq<Ins>)
    requires Lower(stmts).Some? && Assembled(Lower(stmts).value.lines) == Ok(prog)
    ensures ZkGuards.ValidMethod(prog) <==>
            && 0 < |prog| <= GAS_LIMIT && ImmediatesInField(prog)
            && forall i :: 0 <= i < |prog| && ZkGuards.Jumps(prog[i]) ==> prog[i].imm < |prog|
  {
    hide Lower, Expand, Pos, DividesOk, ZkGuards.Guarded;
    var lines := Lower(stmts).value.lines;
    ZkGuards.AssembledGuarded(lines, prog);
    BodyDivides(stmts);
    ProgLength(lines, prog);
    forall p | 0 <= p < |prog|
      ensures (prog[p].op.DIVMOD? || prog[p].op.DIVMODW? ==> prog[p].d != 7)
      ensures (prog[p].op.CTX? || prog[p].op.ACTX? ==> prog[p].imm <= 3)
    {
      var i, k := ZkGuards.Locate(lines, prog, |lines|, p);
      ExpansionFits(lines[i], k);
      ZkGuards.MacroPlaces(lines[i], k);
    }
  }
}
