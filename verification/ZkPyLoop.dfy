/**
 Why the compiler theorem speaks of temporaries in scope: a method whose loop goes back past an m.set loses the value
 the m.set kept, although nothing sets it again. Its text does not pass the check of ZkPyScope.
 */
module ZkPyLoop {
  import opened Options
  import opened Field
  import opened ZkVM
  import opened ZkAsm
  import opened AsmSimulation
  import opened ZkPyExpr
  import opened ZkPyEval
  import opened ZkPyMethod
  import opened ZkPyScope
  import P = ZkPyProgram

  /** Slot 1, addressed directly. */
  function Flag(): Cell {
    At(Const(1))
  }

  /** Unless the flag is up: keep 7, raise the flag and go back. Then return what was kept. */
  function Source(): seq<Stmt> {
    [LabelAt("top"), GotoIf(Sload(Flag()), "use"), Keep(Const(7)), StoreTo(Flag(), Const(1)), Goto("top"),
     LabelAt("use"), Return(Temp(0))]
  }

  /** r1 holds the flag's address before the m.set keeps it for 7. */
  function Code(): seq<Line> {
    [Label("top"), Movi(1, 1), Plain(SLOAD, 2, 1), Jnz(2, "use"), Movi(1, 7), Movi(2, 1), Movi(3, 1),
     Plain(SSTORE, 3, 2), Jmp("top"), Label("use"), Plain(RET, 0, 1)]
  }

  // ---- compiling it --------------------------------------------------------------------------------

  lemma LowerMore(init: seq<Stmt>, s: Stmt, b: Built)
    requires Lower(init) == Some(b) && LowerStmt(s, b.names, b.free).Some?
    ensures var e := LowerStmt(s, b.names, b.free).value;
            Lower(init + [s]) == Some(e.(lines := b.lines + e.lines))
  {
    hide LowerStmt;
    assert (init + [s])[..|init|] == init;
  }

  lemma ConstLowers(n: int, names: seq<Reg>, free: set<Reg>)
    requires Pinned(names, free) && free != {}
    ensures var r := Lowest(free);
            Mat(Const(n), names, free) == Some(ZkPyExpr.Code([Movi(r, n % TWO_64)], r, true, free - {r}))
  {
  }

  lemma FlagAddress(names: seq<Reg>, free: set<Reg>)
    requires Pinned(names, free) && free != {}
    ensures var r := Lowest(free);
            MatAddr(Flag(), names, free) == Some(ZkPyExpr.Code([Movi(r, 1)], r, true, free - {r}))
  {
    hide Mat;
    ConstLowers(1, names, free);
  }

  lemma OneOperand(v: Val, names: seq<Reg>, free: set<Reg>)
    requires Pinned(names, free) && Mat(v, names, free).Some?
    ensures var x := Mat(v, names, free).value;
            MatAll([v], names, free) ==
            Some(Codes(x.lines, [x.reg], if x.owned then {x.reg} else {}, x.free))
  {
    hide Mat;
    var x := Mat(v, names, free).value;
    assert [v][..0] == [];
    NoOperands(names, free);
    assert [] + x.lines == x.lines && [] + [x.reg] == [x.reg];
    assert {} + (if x.owned then {x.reg} else {}) == if x.owned then {x.reg} else {};
  }

  lemma NoOperands(names: seq<Reg>, free: set<Reg>)
    requires Pinned(names, free)
    ensures MatAll([], names, free) == Some(Codes([], [], {}, free))
  {
  }

  lemma LowestIs(free: set<Reg>, r: Reg)
    requires free <= TEMPS && r in free && forall x :: x in free ==> r <= x
    ensures Lowest(free) == r
  {
  }

  /** The free list below a register, and the last ones. */
  function From(r: Reg): set<Reg> {
    set x | x in TEMPS && r <= x
  }

  lemma FromLowest(r: Reg)
    requires 1 <= r <= 6
    ensures From(r) <= TEMPS && From(r) != {} && Lowest(From(r)) == r && From(r) - {r} == From(r + 1)
    ensures From(1) == TEMPS
  {
    assert r in From(r);
    LowestIs(From(r), r);
    assert From(1) == TEMPS;
  }

  lemma LoadLowers()
    ensures Pinned([], From(1))
    ensures Mat(Sload(Flag()), [], From(1)) ==
            Some(ZkPyExpr.Code([Movi(1, 1), Plain(SLOAD, 2, 1)], 2, true, From(1) - {2}))
  {
    FromLowest(1);
    FromLowest(2);
    FlagAddress([], From(1));
    hide MatAddr;
    assert [Movi(1, 1)] + [Plain(SLOAD, 2, 1)] == [Movi(1, 1), Plain(SLOAD, 2, 1)];
    assert From(3) + {1} == From(1) - {2};
  }

  lemma TestLowers()
    ensures Pinned([], From(1))
    ensures LowerStmt(GotoIf(Sload(Flag()), "use"), [], From(1)) ==
            Some(Built([Movi(1, 1), Plain(SLOAD, 2, 1), Jnz(2, "use")], [], From(1)))
  {
    FromLowest(1);
    LoadLowers();
    OneOperand(Sload(Flag()), [], From(1));
    hide Mat, MatAll;
    assert [Movi(1, 1), Plain(SLOAD, 2, 1)] + [Jnz(2, "use")] == [Movi(1, 1), Plain(SLOAD, 2, 1), Jnz(2, "use")];
    assert (From(1) - {2}) + {2} == From(1);
  }

  lemma KeepLowers()
    ensures Pinned([], From(1))
    ensures LowerStmt(Keep(Const(7)), [], From(1)) == Some(Built([Movi(1, 7)], [1], From(2)))
  {
    FromLowest(1);
    ConstLowers(7, [], From(1));
    hide Mat;
    assert [] + [1] == [1];
  }

  lemma OnePinned()
    ensures Pinned([1], From(2)) && Pinned([1], From(3))
  {
    FromLowest(2);
    FromLowest(3);
  }

  lemma RaiseLowers()
    ensures Pinned([1], From(2))
    ensures LowerStmt(StoreTo(Flag(), Const(1)), [1], From(2)) ==
            Some(Built([Movi(2, 1), Movi(3, 1), Plain(SSTORE, 3, 2)], [1], From(2)))
  {
    OnePinned();
    FromLowest(2);
    FromLowest(3);
    ConstLowers(1, [1], From(2));
    FlagAddress([1], From(3));
    hide Mat, MatAddr;
    assert [Movi(2, 1)] + [Movi(3, 1)] + [Plain(SSTORE, 3, 2)] == [Movi(2, 1), Movi(3, 1), Plain(SSTORE, 3, 2)];
    assert From(4) + {3} == From(3) && From(3) + {2} == From(2);
  }

  lemma FlowLowers(s: Stmt, names: seq<Reg>, free: set<Reg>)
    requires Pinned(names, free) && Simple(s) && Operands(s) == []
    ensures LowerStmt(s, names, free) == Some(Built([FinalLine(s, [])], names, free))
  {
    NoOperands(names, free);
    hide MatAll;
    assert [] + [FinalLine(s, [])] == [FinalLine(s, [])] && free + {} == free;
  }

  lemma ReturnLowers()
    ensures Pinned([1], From(2))
    ensures LowerStmt(Return(Temp(0)), [1], From(2)) == Some(Built([Plain(RET, 0, 1)], [1], From(2)))
  {
    OnePinned();
    TempLowers();
    OneOperand(Temp(0), [1], From(2));
    hide Mat, MatAll;
    assert [] + [Plain(RET, 0, 1)] == [Plain(RET, 0, 1)] && From(2) + {} == From(2);
  }

  lemma TempLowers()
    requires Pinned([1], From(2))
    ensures Mat(Temp(0), [1], From(2)) == Some(ZkPyExpr.Code([], 1, false, From(2)))
  {
  }

  /** The method compiles to these lines, with r1 named. */
  lemma Compiles()
    ensures Lower(Source()) == Some(Built(Code(), [1], From(2)))
  {
    hide LowerStmt, Lower, From;
    var s, l := Source(), Code();
    NothingLowers();
    TestLowers();
    OnePinned();
    FlowLowers(s[0], [], From(1));
    LowerMore([], s[0], Built([], [], From(1)));
    var one, two, three := [s[0]], [s[0], s[1]], [s[0], s[1], s[2]];
    assert [] + [s[0]] == one && [] + [Label("top")] == l[..1];
    LowerMore(one, s[1], Built(l[..1], [], From(1)));
    assert one + [s[1]] == two && l[..1] + [Movi(1, 1), Plain(SLOAD, 2, 1), Jnz(2, "use")] == l[..4];
    KeepLowers();
    LowerMore(two, s[2], Built(l[..4], [], From(1)));
    assert two + [s[2]] == three && l[..4] + [Movi(1, 7)] == l[..5];
    RaiseLowers();
    LowerMore(three, s[3], Built(l[..5], [1], From(2)));
    assert l[..5] + [Movi(2, 1), Movi(3, 1), Plain(SSTORE, 3, 2)] == l[..8];
    var four := three + [s[3]];
    FlowLowers(s[4], [1], From(2));
    LowerMore(four, s[4], Built(l[..8], [1], From(2)));
    assert l[..8] + [Jmp("top")] == l[..9];
    FlowLowers(s[5], [1], From(2));
    LowerMore(four + [s[4]], s[5], Built(l[..9], [1], From(2)));
    assert l[..9] + [Label("use")] == l[..10];
    ReturnLowers();
    LowerMore(four + [s[4]] + [s[5]], s[6], Built(l[..10], [1], From(2)));
    assert l[..10] + [Plain(RET, 0, 1)] == l;
    assert s == four + [s[4]] + [s[5]] + [s[6]];
  }

  lemma NothingLowers()
    ensures Lower([]) == Some(Built([], [], From(1)))
  {
    FromLowest(1);
  }

  // ---- running it ----------------------------------------------------------------------------------

  lemma Straight(ctx: ZkVM.Ctx, i: nat, c: Core, c': Core, gas: nat)
    requires i < |Code()| && (Code()[i].Movi? || (Code()[i].Plain? && !IsRet(Code()[i])))
    requires ExecLine(ctx, Code()[i], c) == Some(c') && gas >= 1
    ensures LineRun(ctx, Code(), i, c, gas) == LineRun(ctx, Code(), i + 1, c', gas - 1)
  {
    hide ExecLine;
    assert Size(Code()[i]) == 1;
  }

  lemma Labels()
    ensures LabelLine(Code(), "top") == Some(0) && LabelLine(Code(), "use") == Some(9)
  {
    var l := Code();
    assert LabelLine(l[..10], "use") == Some(9);
    assert l[..10] == l[..|l| - 1];
    LabelBack(l, 11, "top", 0);
  }

  /** A label is found past lines that do not define it. */
  lemma {:induction false} LabelBack(lines: seq<Line>, n: nat, name: string, at: nat)
    requires at < n <= |lines| && lines[at] == Label(name)
    requires forall i :: at < i < n ==> lines[i] != Label(name)
    ensures LabelLine(lines[..n], name) == Some(at)
    ensures n == |lines| ==> lines[..n] == lines
  {
    assert lines[..n][..n - 1] == lines[..n - 1];
    if at < n - 1 { LabelBack(lines, n - 1, name, at); }
  }

  lemma LoadExecs(ctx: ZkVM.Ctx, c: Core)
    requires c.regs[1] == 1
    ensures var flag := Load(c.st, 1);
            ExecLine(ctx, Plain(SLOAD, 2, 1), c) == Some(c.Log(IO_SLOAD, 1, flag).Set(2, flag))
  {
  }

  lemma JumpRuns(ctx: ZkVM.Ctx, c: Core, gas: nat)
    requires gas >= 1
    ensures LineRun(ctx, Code(), 3, c, gas) == LineRun(ctx, Code(), if c.regs[2] != 0 then 9 else 4, c, gas - 1)
  {
    Labels();
    assert Size(Code()[3]) == 1;
  }

  /** The test: r1 gets the flag's address, r2 the flag. */
  lemma TestRuns(ctx: ZkVM.Ctx, c: Core, gas: nat)
    requires gas >= 3
    ensures var flag := Load(c.st, 1);
            LineRun(ctx, Code(), 0, c, gas) ==
            LineRun(ctx, Code(), if flag != 0 then 9 else 4, c.Set(1, 1).Log(IO_SLOAD, 1, flag).Set(2, flag), gas - 3)
  {
    hide LineRun, ExecLine, Load, IsRet;
    var flag := Load(c.st, 1);
    var a := c.Set(1, 1);
    var b := a.Log(IO_SLOAD, 1, flag).Set(2, flag);
    TopRuns(ctx, c, gas);
    MoviExecs(ctx, 1, c);
    NotRet();
    Straight(ctx, 1, c, a, gas);
    LoadExecs(ctx, a);
    Straight(ctx, 2, a, b, gas - 1);
    JumpRuns(ctx, b, gas - 2);
  }

  lemma MoviExecs(ctx: ZkVM.Ctx, r: Reg, c: Core)
    ensures ExecLine(ctx, Movi(r, 1), c) == Some(c.Set(r, 1))
  {
  }

  lemma NotRet()
    ensures Code()[2] == Plain(SLOAD, 2, 1) && !IsRet(Code()[2])
  {
  }

  lemma TopRuns(ctx: ZkVM.Ctx, c: Core, gas: nat)
    ensures LineRun(ctx, Code(), 0, c, gas) == LineRun(ctx, Code(), 1, c, gas)
  {
    hide Exec;
    assert Code()[0] == Label("top");
  }

  /** Keep 7 in r1, raise the flag, go back. */
  lemma KeepRuns(ctx: ZkVM.Ctx, c: Core, gas: nat)
    requires gas >= 5
    ensures LineRun(ctx, Code(), 4, c, gas) ==
            LineRun(ctx, Code(), 0, c.Set(1, 7).Set(2, 1).Set(3, 1).(st := c.st[1 := 1]).Log(IO_SSTORE, 1, 1), gas - 5)
  {
    var a := c.Set(1, 7);
    var b := a.Set(2, 1);
    var d := b.Set(3, 1);
    var e := d.(st := c.st[1 := 1]).Log(IO_SSTORE, 1, 1);
    Straight(ctx, 4, c, a, gas);
    Straight(ctx, 5, a, b, gas - 1);
    Straight(ctx, 6, b, d, gas - 2);
    Straight(ctx, 7, d, e, gas - 3);
    Labels();
    assert Size(Code()[8]) == 1;
  }

  /** The lines assemble, so the method is deployable as it stands. */
  lemma Assembles()
    ensures Assembled(Code()).Ok?
  {
    var l := Code();
    forall i | 0 <= i < |l| ensures AllKnown(l[i]) {}
    AllExpand(l, |l|);
    assert l[..|l|] == l;
    var code := ExpandAll(l).value;
    Labels();
    forall k | 0 <= k < |code| ensures Resolve(l, code[k]).Ok? { assert Known(code[k]); }
    hide ExpandAll, Resolve;
    assert ResolveAll(l, code).Ok?;
  }

  /** A complete instruction, or a jump to one of the two labels. */
  predicate Known(p: Pending) {
    p.Target? ==> p.name == "top" || p.name == "use"
  }

  predicate AllKnown(line: Line) {
    Expand(line).Ok? && forall k :: 0 <= k < |Expand(line).value| ==> Known(Expand(line).value[k])
  }

  lemma {:induction false} AllExpand(lines: seq<Line>, n: nat)
    requires n <= |lines|
    requires forall i :: 0 <= i < |lines| ==> AllKnown(lines[i])
    ensures var r := ExpandAll(lines[..n]);
            r.Ok? && forall k :: 0 <= k < |r.value| ==> Known(r.value[k])
  {
    hide Expand;
    if n > 0 {
      AllExpand(lines, n - 1);
      assert lines[..n][..n - 1] == lines[..n - 1];
    }
  }

  // ---- what it means -------------------------------------------------------------------------------

  lemma {:induction false} SmallLines(block: seq<Line>)
    requires forall k :: 0 <= k < |block| ==> Size(block[k]) <= 1
    ensures LinesSize(block) <= |block|
  {
    if block != [] { SmallLines(block[1..]); }
  }

  lemma PlacedSmall(p: nat, block: seq<Line>)
    requires P.LinePlaced(Code(), p, block)
    ensures LinesSize(block) <= 11
  {
    hide LinesSize;
    forall k | 0 <= k < |block| ensures Size(block[k]) <= 1 {
      assert Code()[p..p + |block|][k] == Code()[p + k];
    }
    SmallLines(block);
  }

  lemma SourceBuilt()
    ensures P.BuiltTo(Source(), Code())
  {
    hide Lower, Assembled;
    Compiles();
    Assembles();
  }

  lemma CostBound(i: nat)
    requires i < 7 && !Source()[i].LabelAt?
    ensures 1 <= Costs(Source())[i] <= 11
  {
    hide Source, Code, Lower, LowerStmt, Costs, LinesSize, P.Runnable, P.BuiltTo, P.LinePlaced, AllInField, MatAll;
    var s, l := Source(), Code();
    SourceBuilt();
    P.BuiltLines(s, l);
    SevenStmts();
    P.LowerAt(s, i);
    P.CostAt(s, i);
    var b := Lower(s[..i]).value;
    PlacedSmall(|b.lines|, LowerStmt(s[i], b.names, b.free).value.lines);
    if P.Flows(s[i]) {
      var xs := P.FlowPlaced(s, l, i);
    } else {
      var b, e := P.StraightPlaced(s, l, i);
    }
  }

  lemma SevenStmts()
    ensures |Source()| == 7
  {
  }

  /** The run of the source as it is meant, nothing ever lost. */
  function Goes(ctx: ZkVM.Ctx, i: nat, m: Mem, gas: nat): SrcOutcome {
    SrcRun(ctx, Source(), Costs(Source()), Nothing(Source()), i, m, gas)
  }

  lemma Stmt(ctx: ZkVM.Ctx, i: nat, m: Mem, m': Mem, j: nat, gas: nat) returns (left: nat)
    requires i < 7 && !Source()[i].LabelAt? && !Source()[i].Return? && gas >= 11
    requires Reads(Source()[i], m.temps.Keys) && NextStmt(ctx, Source(), i, m) == Some(j)
    requires Effect(ctx, Source()[i], KeptBefore(Source(), i), m) == Some(m')
    ensures left >= gas - 11 && Goes(ctx, i, m, gas) == Goes(ctx, j, m', left)
  {
    hide Costs, Effect, NextStmt, Reads, KeptBefore;
    CostBound(i);
    left := gas - Costs(Source())[i];
    assert Forget(m', {}) == m';
  }

  lemma Passes(ctx: ZkVM.Ctx, i: nat, m: Mem, gas: nat)
    requires i < 7 && Source()[i].LabelAt?
    ensures Goes(ctx, i, m, gas) == Goes(ctx, i + 1, m, gas)
  {
    hide Costs;
  }

  lemma {:induction false} StmtBack(n: nat, name: string, at: nat)
    requires at < n <= 7 && Source()[at] == LabelAt(name)
    requires forall i :: at < i < n ==> Source()[i] != LabelAt(name)
    ensures LabelStmt(Source()[..n], name) == Some(at)
  {
    assert Source()[..n][..n - 1] == Source()[..n - 1];
    if at < n - 1 { StmtBack(n - 1, name, at); }
  }

  lemma Targets()
    ensures LabelStmt(Source(), "top") == Some(0) && LabelStmt(Source(), "use") == Some(5)
  {
    assert Source()[..7] == Source();
    StmtBack(7, "top", 0);
    StmtBack(7, "use", 5);
  }

  /** The test reads the flag and goes on, or to the end. */
  lemma TestMeans(ctx: ZkVM.Ctx, m: Mem)
    ensures var test, flag := Source()[1], Load(m.st, 1);
            && Reads(test, m.temps.Keys)
            && Effect(ctx, test, 0, m) == Some(m.Log(IO_SLOAD, 1, flag))
            && NextStmt(ctx, Source(), 1, m) == Some(if flag != 0 then 5 else 2)
  {
    hide LabelStmt;
    Targets();
    FlagMeans(ctx, m);
    var w := EvalAll(ctx, m.Visible(), [Sload(Flag())]);
    var flag := Load(m.st, 1);
    assert w == Some(SeenAll([flag], [Entry(IO_SLOAD, 1, flag)]));
  }

  lemma FlagMeans(ctx: ZkVM.Ctx, m: Mem)
    ensures var flag := Load(m.st, 1);
            EvalAll(ctx, m.Visible(), [Sload(Flag())]) == Some(SeenAll([flag], [Entry(IO_SLOAD, 1, flag)]))
  {
    var v, flag := Sload(Flag()), Load(m.st, 1);
    assert EvalAddr(ctx, m.Visible(), Flag()) == Some(Seen(1, []));
    assert [] + [Entry(IO_SLOAD, 1, flag)] == [Entry(IO_SLOAD, 1, flag)];
    assert Eval(ctx, m.Visible(), v) == Some(Seen(flag, [Entry(IO_SLOAD, 1, flag)]));
    OneMeans(ctx, m, v);
  }

  lemma OneMeans(ctx: ZkVM.Ctx, m: Mem, v: Val)
    ensures EvalAll(ctx, m.Visible(), [v]) ==
            match Eval(ctx, m.Visible(), v) case None => None case Some(w) => Some(SeenAll([w.x], w.log))
  {
    hide Eval;
    assert [v][..0] == [];
    assert EvalAll(ctx, m.Visible(), []) == Some(SeenAll([], []));
    var w := Eval(ctx, m.Visible(), v);
    if w.Some? { assert [] + [w.value.x] == [w.value.x] && [] + w.value.log == w.value.log; }
  }

  /** Keeping 7, raising the flag, going back. */
  lemma KeepMeans(ctx: ZkVM.Ctx, m: Mem)
    ensures Effect(ctx, Source()[2], 0, m) == Some(m.(temps := m.temps[0 := 7]))
    ensures Reads(Source()[2], m.temps.Keys) && NextStmt(ctx, Source(), 2, m) == Some(3)
  {
    assert m.io + [] == m.io;
  }

  lemma RaiseMeans(ctx: ZkVM.Ctx, m: Mem)
    ensures Effect(ctx, Source()[3], 1, m) == Some(m.(st := m.st[1 := 1]).Log(IO_SSTORE, 1, 1))
    ensures Reads(Source()[3], m.temps.Keys) && NextStmt(ctx, Source(), 3, m) == Some(4)
  {
    assert m.io + [] + [] == m.io;
  }

  lemma BackMeans(ctx: ZkVM.Ctx, m: Mem)
    ensures Effect(ctx, Source()[4], 1, m) == Some(m)
    ensures Reads(Source()[4], m.temps.Keys) && NextStmt(ctx, Source(), 4, m) == Some(0)
  {
    Targets();
    assert EvalAll(ctx, m.Visible(), []) == Some(SeenAll([], []));
    assert m.io + [] == m.io;
  }

  lemma UseMeans(ctx: ZkVM.Ctx, m: Mem, gas: nat)
    requires 0 in m.temps && gas >= 11
    ensures var run := Goes(ctx, 5, m, gas);
            run.Finished? && run.out.Success? && run.out.ret == m.temps[0] && run.out.st == m.st
  {
    hide Costs, KeptBefore;
    Passes(ctx, 5, m, gas);
    CostBound(6);
    OneMeans(ctx, m, Temp(0));
  }

  lemma Counts()
    ensures KeptBefore(Source(), 1) == 0 && KeptBefore(Source(), 2) == 0
    ensures KeptBefore(Source(), 3) == 1 && KeptBefore(Source(), 4) == 1
  {
    var s := Source();
    assert KeptBefore(s, 1) == 0;
    assert KeptBefore(s, 2) == 0;
    assert KeptBefore(s, 3) == 1;
  }

  /** Once round: the flag is down, 7 is kept, the flag goes up. */
  lemma FirstRound(ctx: ZkVM.Ctx, m: Mem, gas: nat) returns (m': Mem, left: nat)
    requires m.st == map[] && gas >= 44
    ensures Goes(ctx, 0, m, gas) == Goes(ctx, 0, m', left) && left >= gas - 44
    ensures 0 in m'.temps && m'.temps[0] == 7 && m'.st == map[1 := 1]
  {
    hide Source, Goes, Effect, NextStmt, Reads, KeptBefore;
    SourceIs();
    Counts();
    var m1 := m.Log(IO_SLOAD, 1, 0);
    var m2 := m1.(temps := m1.temps[0 := 7]);
    m' := m2.(st := m2.st[1 := 1]).Log(IO_SSTORE, 1, 1);
    Passes(ctx, 0, m, gas);
    TestMeans(ctx, m);
    var g1 := Stmt(ctx, 1, m, m1, 2, gas);
    KeepMeans(ctx, m1);
    var g2 := Stmt(ctx, 2, m1, m2, 3, g1);
    RaiseMeans(ctx, m2);
    var g3 := Stmt(ctx, 3, m2, m', 4, g2);
    BackMeans(ctx, m');
    left := Stmt(ctx, 4, m', m', 0, g3);
  }

  lemma SourceIs()
    ensures |Source()| == 7 && Source()[0].LabelAt? && Source()[1].GotoIf? && Source()[2].Keep?
    ensures Source()[3].StoreTo? && Source()[4].Goto? && Source()[5].LabelAt? && Source()[6].Return?
  {
  }

  /** As it is meant, the method returns the 7 it kept. */
  lemma MeansSeven(ctx: ZkVM.Ctx)
    ensures var run := Meant(ctx, Source(), map[]);
            run.Finished? && run.out.Success? && run.out.ret == 7 && run.out.st == map[1 := 1]
  {
    hide Source, Goes, Effect, NextStmt, Reads, KeptBefore, Meant;
    SourceIs();
    Counts();
    MeantGoes(ctx);
    var m3, g4 := FirstRound(ctx, P.Mem0(map[]), GAS_LIMIT);
    var m4 := m3.Log(IO_SLOAD, 1, 1);
    Passes(ctx, 0, m3, g4);
    TestMeans(ctx, m3);
    var g5 := Stmt(ctx, 1, m3, m4, 5, g4);
    UseMeans(ctx, m4, g5);
  }

  lemma MeantGoes(ctx: ZkVM.Ctx)
    ensures Meant(ctx, Source(), map[]) == Goes(ctx, 0, P.Mem0(map[]), GAS_LIMIT)
  {
    hide SrcRun;
  }

  /** The kept value is 7, its m.set runs exactly once, and 7 is what the method means to return; compiled it returns 1:
    * the address the second test put in the register of the 7. */
  lemma NamedTempLost(ctx: ZkVM.Ctx)
    requires |ctx.args| <= MAX_ARGS
    ensures Meant(ctx, Source(), map[]).Finished? && Meant(ctx, Source(), map[]).out.Success?
    ensures Meant(ctx, Source(), map[]).out.ret == 7
    ensures Lower(Source()).Some? && Assembled(Lower(Source()).value.lines).Ok?
    ensures var out := Run(ctx, Assembled(Lower(Source()).value.lines).value, map[]);
            out.Success? && out.ret == 1 && out.st == map[1 := 1]
  {
    hide LineRun, Lower, RunFrom, Assembled, Meant;
    MeansSeven(ctx);
    Compiles();
    Assembles();
    var prog := Assembled(Code()).value;
    var c := Entry0(ctx, map[]);
    Simulation(ctx, Code(), prog, 0, c, GAS_LIMIT);
    TestRuns(ctx, c, GAS_LIMIT);
    var b := c.Set(1, 1).Log(IO_SLOAD, 1, 0).Set(2, 0);
    KeepRuns(ctx, b, GAS_LIMIT - 3);
    var e := b.Set(1, 7).Set(2, 1).Set(3, 1).(st := b.st[1 := 1]).Log(IO_SSTORE, 1, 1);
    TestRuns(ctx, e, GAS_LIMIT - 8);
    ReturnRuns(ctx, e.Set(1, 1).Log(IO_SLOAD, 1, 1).Set(2, 1), GAS_LIMIT - 11);
  }

  /** The text gives it away: its second statement jumps over the m.set, to a place that reads what it keeps. */
  lemma LoopSkips(d: map<nat, set<nat>>)
    ensures !NoSkip(Source()) && !Definite(Source(), d)
  {
    hide Edge, Reads, KeptBefore, P.Clobbered;
    var s := Source();
    LoopEdges();
    if Definite(s, d) {
      assert 1 in d && d[1] <= {} by { assert Edge(s, 0, 1); }
      assert 5 in d && d[5] <= {} by { assert Edge(s, 1, 5); }
      assert 6 in d && d[6] <= {} by { assert Edge(s, 5, 6); }
      assert d[6] == {} && Reads(s[6], {});
      ReturnReads();
    }
  }

  lemma LoopEdges()
    ensures var s := Source();
            && Edge(s, 0, 1) && Edge(s, 1, 5) && Edge(s, 5, 6)
            && Sets(s, 0) == Sets(s, 1) == Sets(s, 5) == {}
            && KeptBefore(s, 1) < KeptBefore(s, 5)
  {
    var s := Source();
    assert s[..6] == s[..|s| - 1];
    assert LabelStmt(s[..6], "use") == Some(5);
    assert KeptBefore(s, 3) == 1 + KeptBefore(s, 2);
    assert KeptBefore(s, 5) == KeptBefore(s, 3);
  }

  lemma ReturnReads()
    ensures !Reads(Return(Temp(0)), {})
  {
    assert Temp(0) in Operands(Return(Temp(0)));
  }

  lemma ReturnRuns(ctx: ZkVM.Ctx, c: Core, gas: nat)
    requires gas >= 1
    ensures var out := LineRun(ctx, Code(), 9, c, gas); out.Success? && out.ret == c.regs[1] && out.st == c.st
  {
    assert Size(Code()[10]) == 1;
    assert LineRun(ctx, Code(), 9, c, gas) == LineRun(ctx, Code(), 10, c, gas);
  }
}
