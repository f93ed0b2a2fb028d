/**
 Whole methods: the public statements of execnode/zkpy.py, how each is lowered, what each means, and source semantics
 with control flow, in which executing a statement may cost the method some of its temporaries.
 */
module ZkPyMethod {
  import opened Options
  import opened Field
  import opened ZkVM
  import opened ZkAsm
  import opened AsmSimulation
  import opened ZkPyExpr
  import opened ZkPyEval

  datatype Stmt =
    | Keep(v: Val)                                          // m.set
    | StoreTo(cell: Cell, v: Val)                           // cell.set
    | Require(v: Val)
    | Pay(to: Val, amount: Val)
    | Move(mint: bool, asset: Val, to: Val, amount: Val)    // m.apay, m.amint
    | Burn(asset: Val, amount: Val)
    | Renounce(asset: Val)
    | Return(v: Val)
    | LabelAt(name: string)
    | Goto(name: string)
    | GotoIf(v: Val, name: string)

  // ---- lowering ------------------------------------------------------------------------------------

  /** Statements that materialize some operands, emit one line over them and give everything back. */
  predicate Simple(s: Stmt) {
    !s.Keep? && !s.StoreTo?
  }

  function Operands(s: Stmt): seq<Val>
    requires Simple(s)
  {
    match s
    case Require(v) => [v]
    case Pay(to, amount) => [to, amount]
    case Move(_, a, to, amount) => [a, to, amount]
    case Burn(a, amount) => [a, amount]
    case Renounce(a) => [a]
    case Return(v) => [v]
    case LabelAt(_) => []
    case Goto(_) => []
    case GotoIf(v, _) => [v]
  }

  function FinalLine(s: Stmt, r: seq<Reg>): Line
    requires Simple(s) && |r| == |Operands(s)|
  {
    match s
    case Require(_) => Plain(REQUIRE, 0, r[0])
    case Pay(_, _) => Plain(PAY, r[0], r[1])
    case Move(mint, _, _, _) => AssetMove(mint, r[0], r[1], r[2])
    case Burn(_, _) => Plain(ABURN, r[0], r[1])
    case Renounce(_) => Plain(ARENOUNCE, r[0], 0)
    case Return(_) => Plain(RET, 0, r[0])
    case LabelAt(name) => Label(name)
    case Goto(name) => Jmp(name)
    case GotoIf(_, name) => Jnz(r[0], name)
  }

  /** Lines, kept registers and free list after a statement (or a run of statements). */
  datatype Built = Built(lines: seq<Line>, names: seq<Reg>, free: set<Reg>)

  function LowerStmt(s: Stmt, names: seq<Reg>, free: set<Reg>): Option<Built>
    requires Pinned(names, free)
  {
    match s
    case Keep(v) =>
      var x :- Mat(v, names, free);
      var d :- Own(x);
      Some(Built(d.lines, names + [d.reg], d.free))
    case StoreTo(cell, v) =>
      var x :- Mat(v, names, free);
      var at :- MatAddr(cell, names, x.free);
      Some(Built(x.lines + at.lines + [Plain(SSTORE, at.reg, x.reg)], names, x.(free := at.Given()).Given()))
    case _ =>
      var xs :- MatAll(Operands(s), names, free);
      Some(Built(xs.lines + [FinalLine(s, xs.regs)], names, xs.free + xs.held))
  }

  /** Every temporary register is either free or kept: what _balanced insists on at labels and jumps. */
  predicate Balanced(names: seq<Reg>, free: set<Reg>) {
    Pinned(names, free) && forall r :: r in TEMPS ==> r in free || r in names
  }

  /** Each statement leaves exactly the kept registers out of the free list, so _balanced never raises. */
  lemma StmtBalanced(s: Stmt, names: seq<Reg>, free: set<Reg>)
    requires Balanced(names, free) && LowerStmt(s, names, free).Some?
    ensures var b := LowerStmt(s, names, free).value;
            Balanced(b.names, b.free) && b.names[..|names|] == names && b.free <= free
    ensures var b := LowerStmt(s, names, free).value;
            if s.Keep? then |b.names| == |names| + 1 && b.names[|names|] in free && b.free == free - {b.names[|names|]}
            else b.names == names && b.free == free
  {
    hide Mat, MatAddr, MatAll;
    if s.Keep? {
      var b := LowerStmt(s, names, free).value;
      forall r | r in TEMPS ensures r in b.free || r in b.names {
        if r in names { var t :| 0 <= t < |names| && names[t] == r; assert b.names[t] == r; }
        assert b.names[|names|] == b.names[|b.names| - 1];
      }
    }
  }

  /** A whole body, from the start of the method. */
  function Lower(stmts: seq<Stmt>): (r: Option<Built>)
    ensures r.Some? ==> Balanced(r.value.names, r.value.free)
  {
    if stmts == [] then Some(Built([], [], TEMPS))
    else
      var init :- Lower(stmts[..|stmts| - 1]);
      var last :- LowerStmt(stmts[|stmts| - 1], init.names, init.free);
      StmtBalanced(stmts[|stmts| - 1], init.names, init.free);
      Some(last.(lines := init.lines + last.lines))
  }

  // ---- meaning -------------------------------------------------------------------------------------

  /** What a method can change, with its kept temporaries. */
  datatype Mem = Mem(temps: map<nat, Elem>, st: map<Elem, Elem>, io: seq<Entry>, apend: map<Elem, int>)
  {
    function Visible(): Src {
      Src(temps, st, apend)
    }

    function Log(kind: Kind, a: Elem, b: Elem): Mem {
      this.(io := io + [Entry(kind, a, b)])
    }
  }

  /** How many m.set come before statement i. */
  function KeptBefore(stmts: seq<Stmt>, i: nat): nat
    requires i <= |stmts|
  {
    if i == 0 then 0 else KeptBefore(stmts, i - 1) + (if stmts[i - 1].Keep? then 1 else 0)
  }

  /** The statement's effect on its operand values; n is the number of temporaries kept so far. */
  function Effect(ctx: ZkVM.Ctx, s: Stmt, n: nat, m: Mem): Option<Mem> {
    match s
    case Keep(v) =>
      var w :- Eval(ctx, m.Visible(), v);
      Some(m.(temps := m.temps[n := w.x], io := m.io + w.log))
    case StoreTo(cell, v) =>
      var w :- Eval(ctx, m.Visible(), v);
      var at :- EvalAddr(ctx, m.Visible(), cell);
      Some(m.(st := Store(m.st, at.x, w.x), io := m.io + w.log + at.log).Log(IO_SSTORE, at.x, w.x))
    case _ =>
      var w :- EvalAll(ctx, m.Visible(), Operands(s));
      Act(ctx, s, w.xs, m.(io := m.io + w.log))
  }

  function Act(ctx: ZkVM.Ctx, s: Stmt, xs: seq<Elem>, m: Mem): Option<Mem>
    requires Simple(s) && |xs| == |Operands(s)|
  {
    match s
    case Require(_) => if xs[0] == 0 then None else Some(m)
    case Pay(_, _) => Some(m.Log(IO_PAY, xs[0], xs[1]))
    case Move(mint, _, _, _) =>
      if xs[0] == 0 then None
      else if mint then
        Some(m.(apend := MintAsset(ctx, m.apend, xs[0], xs[1], xs[2]))
             .Log(IO_ASEL, xs[0], 0).Log(IO_AMINT, xs[1], xs[2]))
      else
        var ap :- PayAsset(ctx, m.apend, xs[0], xs[1], xs[2]);
        Some(m.(apend := ap).Log(IO_ASEL, xs[0], 0).Log(IO_PAY, xs[1], xs[2]))
    case Burn(_, _) =>
      var ap :- Spend(ctx, m.apend, xs[0], xs[1]);
      Some(m.(apend := ap).Log(IO_ABURN, xs[0], xs[1]))
    case Renounce(_) => Some(m.Log(IO_ARENOUNCE, xs[0], 0))
    case Return(_) => Some(m.Log(IO_RET, xs[0], 0))
    case LabelAt(_) => Some(m)
    case Goto(_) => Some(m)
    case GotoIf(_, _) => Some(m)
  }

  /** Every temporary the statement reads is one of ts. */
  predicate Reads(s: Stmt, ts: set<nat>) {
    match s
    case Keep(v) => TempsIn(v, ts)
    case StoreTo(cell, v) => TempsIn(v, ts) && TempsIn(cell.key, ts)
    case _ => forall e :: e in Operands(s) ==> TempsIn(e, ts)
  }

  /** The last statement that defines the label. */
  function LabelStmt(stmts: seq<Stmt>, name: string): (r: Option<nat>)
    ensures r.Some? ==> r.value < |stmts| && stmts[r.value] == LabelAt(name)
  {
    if stmts == [] then None
    else if stmts[|stmts| - 1] == LabelAt(name) then Some(|stmts| - 1)
    else LabelStmt(stmts[..|stmts| - 1], name)
  }

  /** The value a jump condition or a return was given. */
  function Operand0(ctx: ZkVM.Ctx, s: Stmt, m: Mem): Elem
    requires Simple(s)
  {
    match EvalAll(ctx, m.Visible(), Operands(s))
    case None => 0
    case Some(w) => if |w.xs| > 0 then w.xs[0] else 0
  }

  function NextStmt(ctx: ZkVM.Ctx, stmts: seq<Stmt>, i: nat, m: Mem): Option<nat>
    requires i < |stmts|
  {
    match stmts[i]
    case Goto(name) => LabelStmt(stmts, name)
    case GotoIf(_, name) => if Operand0(ctx, stmts[i], m) != 0 then LabelStmt(stmts, name) else Some(i + 1)
    case _ => Some(i + 1)
  }

  /** The temporaries named before statement j. */
  function Scope(stmts: seq<Stmt>, j: nat, m: Mem): Mem
    requires j <= |stmts|
  {
    m.(temps := map t | t in m.temps && t < KeptBefore(stmts, j) :: m.temps[t])
  }

  function Forget(m: Mem, ts: set<nat>): Mem {
    m.(temps := m.temps - ts)
  }

  /** Unset: some executed statement read a temporary that was never set, or has been lost since. */
  datatype SrcOutcome = Finished(out: Outcome) | Unset

  /** Run the method's source from statement i; statement k costs costs[k] steps and the temporaries in lost[k]. */
  function SrcRun(ctx: ZkVM.Ctx, stmts: seq<Stmt>, costs: seq<nat>, lost: seq<set<nat>>, i: nat, m: Mem, gas: nat)
    : SrcOutcome
    requires |costs| == |lost| == |stmts|
    decreases gas, if i < |stmts| then |stmts| - i else 0
  {
    if i >= |stmts| then Finished(Failure)
    else if stmts[i].LabelAt? then SrcRun(ctx, stmts, costs, lost, i + 1, m, gas)
    else if !Reads(stmts[i], m.temps.Keys) then Unset
    else
      match Effect(ctx, stmts[i], KeptBefore(stmts, i), m)
      case None => Finished(Failure)
      case Some(m') =>
        if gas < costs[i] || costs[i] == 0 then Finished(Failure)
        else if stmts[i].Return? then Finished(Success(Operand0(ctx, stmts[i], m), m'.st, m'.io))
        else
          match NextStmt(ctx, stmts, i, m)
          case None => Finished(Failure)
          case Some(j) => SrcRun(ctx, stmts, costs, lost, j, Forget(m', lost[i]), gas - costs[i])
  }

  /** A named temporary is pinned for the whole method: nothing is ever lost. */
  function Nothing(stmts: seq<Stmt>): (lost: seq<set<nat>>)
    ensures |lost| == |stmts| && forall i :: 0 <= i < |lost| ==> lost[i] == {}
  {
    seq(|stmts|, i => {})
  }

  // ---- fewer temporaries ---------------------------------------------------------------------------

  /** The same memory but for temporaries that are missing. */
  ghost predicate Part(small: Mem, big: Mem) {
    && big == small.(temps := big.temps)
    && forall t :: t in small.temps ==> t in big.temps && big.temps[t] == small.temps[t]
  }

  lemma {:induction false} EvalPart(ctx: ZkVM.Ctx, small: Mem, big: Mem, v: Val)
    requires Part(small, big) && TempsIn(v, small.temps.Keys)
    ensures Eval(ctx, small.Visible(), v) == Eval(ctx, big.Visible(), v)
    decreases v
  {
    match v
    case Temp(_) =>
    case Const(_) =>
    case Arg(_) =>
    case Ctx(_) =>
    case Actx(_) =>
    case Sload(cell) => EvalPart(ctx, small, big, cell.key);
    case Read(_, a) => EvalPart(ctx, small, big, a);
    case Hash(els) => EvalAllPart(ctx, small, big, els);
    case Lo32(a) => EvalPart(ctx, small, big, a);
    case Notb(a) => EvalPart(ctx, small, big, a);
    case Bin(_, a, b) => EvalPart(ctx, small, big, a); EvalPart(ctx, small, big, b);
    case Muldiv(a, b, c) =>
      EvalPart(ctx, small, big, a);
      EvalPart(ctx, small, big, b);
      EvalPart(ctx, small, big, c);
    case Mux(k, a, b) =>
      EvalPart(ctx, small, big, k);
      EvalPart(ctx, small, big, a);
      EvalPart(ctx, small, big, b);
  }

  lemma {:induction false} EvalAllPart(ctx: ZkVM.Ctx, small: Mem, big: Mem, els: seq<Val>)
    requires Part(small, big) && forall e :: e in els ==> TempsIn(e, small.temps.Keys)
    ensures EvalAll(ctx, small.Visible(), els) == EvalAll(ctx, big.Visible(), els)
    decreases els
  {
    if els != [] {
      EvalAllPart(ctx, small, big, els[..|els| - 1]);
      EvalPart(ctx, small, big, els[|els| - 1]);
    }
  }

  lemma ActPart(ctx: ZkVM.Ctx, s: Stmt, xs: seq<Elem>, small: Mem, big: Mem)
    requires Simple(s) && |xs| == |Operands(s)| && big == small.(temps := big.temps)
    ensures match Act(ctx, s, xs, small)
            case None => Act(ctx, s, xs, big).None?
            case Some(a) => a.temps == small.temps && Act(ctx, s, xs, big) == Some(a.(temps := big.temps))
  {
    hide MintAsset, PayAsset, Spend;
  }

  /** A statement that reads only what is left does the same, and where it leads is the same. */
  lemma EffectPart(ctx: ZkVM.Ctx, s: Stmt, n: nat, small: Mem, big: Mem)
    requires Part(small, big) && Reads(s, small.temps.Keys)
    ensures match Effect(ctx, s, n, small)
            case None => Effect(ctx, s, n, big).None?
            case Some(a) =>
              && a.temps.Keys == small.temps.Keys + (if s.Keep? then {n} else {})
              && (forall t :: t in small.temps && (s.Keep? ==> t != n) ==> a.temps[t] == small.temps[t])
              && Effect(ctx, s, n, big) == Some(a.(temps := big.temps + a.temps))
    ensures Simple(s) ==> Operand0(ctx, s, small) == Operand0(ctx, s, big)
  {
    hide Eval, EvalAddr, EvalAll, Act, TempsIn;
    if s.Keep? {
      EvalPart(ctx, small, big, s.v);
      var w := Eval(ctx, small.Visible(), s.v);
      if w.Some? { assert big.temps[n := w.value.x] == big.temps + small.temps[n := w.value.x]; }
    } else {
      assert big.temps + small.temps == big.temps;
      if s.StoreTo? {
        EvalPart(ctx, small, big, s.v);
        AddrPart(ctx, small, big, s.cell);
      } else {
        EvalAllPart(ctx, small, big, Operands(s));
        var w := EvalAll(ctx, small.Visible(), Operands(s));
        if w.Some? {
          ActPart(ctx, s, w.value.xs, small.(io := small.io + w.value.log), big.(io := big.io + w.value.log));
        }
      }
    }
  }

  lemma AddrPart(ctx: ZkVM.Ctx, small: Mem, big: Mem, cell: Cell)
    requires Part(small, big) && TempsIn(cell.key, small.temps.Keys)
    ensures EvalAddr(ctx, small.Visible(), cell) == EvalAddr(ctx, big.Visible(), cell)
  {
    EvalPart(ctx, small, big, cell.key);
  }

  lemma NextPart(ctx: ZkVM.Ctx, stmts: seq<Stmt>, i: nat, small: Mem, big: Mem)
    requires i < |stmts| && Part(small, big) && Reads(stmts[i], small.temps.Keys)
    ensures NextStmt(ctx, stmts, i, small) == NextStmt(ctx, stmts, i, big)
  {
    hide LabelStmt, Operand0, Reads;
    EffectPart(ctx, stmts[i], 0, small, big);
  }

  lemma ForgetPart(small: Mem, big: Mem, lost: set<nat>, less: set<nat>)
    requires Part(small, big) && less <= lost
    ensures Part(Forget(small, lost), Forget(big, less))
  {
  }

  /** A run that never misses a temporary is the same run when less is lost. */
  lemma {:induction false} LosingLess(ctx: ZkVM.Ctx, stmts: seq<Stmt>, costs: seq<nat>, lost: seq<set<nat>>,
                                      less: seq<set<nat>>, i: nat, small: Mem, big: Mem, gas: nat)
    requires |costs| == |lost| == |less| == |stmts| && Part(small, big)
    requires forall k :: 0 <= k < |stmts| ==> less[k] <= lost[k]
    ensures var run := SrcRun(ctx, stmts, costs, lost, i, small, gas);
            run.Unset? || run == SrcRun(ctx, stmts, costs, less, i, big, gas)
    decreases gas, if i < |stmts| then |stmts| - i else 0
  {
    hide Effect, NextStmt, Operand0, Reads, Part, Forget;
    if i < |stmts| {
      if stmts[i].LabelAt? {
        LosingLess(ctx, stmts, costs, lost, less, i + 1, small, big, gas);
      } else if Reads(stmts[i], small.temps.Keys) {
        var n := KeptBefore(stmts, i);
        EffectPart(ctx, stmts[i], n, small, big);
        NextPart(ctx, stmts, i, small, big);
        MoreReads(stmts[i], small, big);
        var a, b := Effect(ctx, stmts[i], n, small), Effect(ctx, stmts[i], n, big);
        if a.Some? && gas >= costs[i] && costs[i] > 0 && !stmts[i].Return? {
          var j := NextStmt(ctx, stmts, i, small);
          if j.Some? {
            AfterPart(stmts[i], n, small, big, a.value, b.value);
            ForgetPart(a.value, b.value, lost[i], less[i]);
            LosingLess(ctx, stmts, costs, lost, less, j.value, Forget(a.value, lost[i]), Forget(b.value, less[i]),
                       gas - costs[i]);
          }
        }
      }
    }
  }

  lemma AfterPart(s: Stmt, n: nat, small: Mem, big: Mem, a: Mem, b: Mem)
    requires Part(small, big) && b == a.(temps := big.temps + a.temps)
    ensures Part(a, b)
  {
  }

  lemma {:induction false} TempsMono(v: Val, ts: set<nat>, us: set<nat>)
    requires TempsIn(v, ts) && ts <= us
    ensures TempsIn(v, us)
    decreases v
  {
    match v
    case Temp(_) =>
    case Const(_) =>
    case Arg(_) =>
    case Ctx(_) =>
    case Actx(_) =>
    case Sload(cell) => TempsMono(cell.key, ts, us);
    case Read(_, a) => TempsMono(a, ts, us);
    case Hash(els) => forall e | e in els ensures TempsIn(e, us) { TempsMono(e, ts, us); }
    case Lo32(a) => TempsMono(a, ts, us);
    case Notb(a) => TempsMono(a, ts, us);
    case Bin(_, a, b) => TempsMono(a, ts, us); TempsMono(b, ts, us);
    case Muldiv(a, b, c) => TempsMono(a, ts, us); TempsMono(b, ts, us); TempsMono(c, ts, us);
    case Mux(k, a, b) => TempsMono(k, ts, us); TempsMono(a, ts, us); TempsMono(b, ts, us);
  }

  lemma ReadsMono(s: Stmt, ts: set<nat>, us: set<nat>)
    requires Reads(s, ts) && ts <= us
    ensures Reads(s, us)
  {
    hide TempsIn;
    if s.Keep? {
      TempsMono(s.v, ts, us);
    } else if s.StoreTo? {
      TempsMono(s.v, ts, us);
      TempsMono(s.cell.key, ts, us);
    } else {
      forall e | e in Operands(s) ensures TempsIn(e, us) { TempsMono(e, ts, us); }
    }
  }

  lemma {:induction false} TempsMeet(v: Val, ts: set<nat>, us: set<nat>)
    requires TempsIn(v, ts) && TempsIn(v, us)
    ensures TempsIn(v, ts * us)
    decreases v
  {
    match v
    case Temp(_) =>
    case Const(_) =>
    case Arg(_) =>
    case Ctx(_) =>
    case Actx(_) =>
    case Sload(cell) => TempsMeet(cell.key, ts, us);
    case Read(_, a) => TempsMeet(a, ts, us);
    case Hash(els) => forall e | e in els ensures TempsIn(e, ts * us) { TempsMeet(e, ts, us); }
    case Lo32(a) => TempsMeet(a, ts, us);
    case Notb(a) => TempsMeet(a, ts, us);
    case Bin(_, a, b) => TempsMeet(a, ts, us); TempsMeet(b, ts, us);
    case Muldiv(a, b, c) => TempsMeet(a, ts, us); TempsMeet(b, ts, us); TempsMeet(c, ts, us);
    case Mux(k, a, b) => TempsMeet(k, ts, us); TempsMeet(a, ts, us); TempsMeet(b, ts, us);
  }

  lemma ReadsMeet(s: Stmt, ts: set<nat>, us: set<nat>)
    requires Reads(s, ts) && Reads(s, us)
    ensures Reads(s, ts * us)
  {
    hide TempsIn;
    if s.Keep? {
      TempsMeet(s.v, ts, us);
    } else if s.StoreTo? {
      TempsMeet(s.v, ts, us);
      TempsMeet(s.cell.key, ts, us);
    } else {
      forall e | e in Operands(s) ensures TempsIn(e, ts * us) { TempsMeet(e, ts, us); }
    }
  }

  lemma MoreReads(s: Stmt, small: Mem, big: Mem)
    requires Part(small, big) && Reads(s, small.temps.Keys)
    ensures Reads(s, big.temps.Keys)
  {
    ReadsMono(s, small.temps.Keys, big.temps.Keys);
  }

  function LinesSize(lines: seq<Line>): nat {
    if lines == [] then 0 else Size(lines[0]) + LinesSize(lines[1..])
  }

  /** Lines a body's first i statements take. */
  function Start(stmts: seq<Stmt>, i: nat): nat
    requires i <= |stmts| && Lower(stmts[..i]).Some?
  {
    |Lower(stmts[..i]).value.lines|
  }

  /** What each statement costs: the instructions its lines assemble to. */
  function Costs(stmts: seq<Stmt>): (costs: seq<nat>)
    ensures |costs| == |stmts|
  {
    seq(|stmts|, i requires 0 <= i < |stmts| =>
      match Lower(stmts[..i])
      case None => 0
      case Some(b) =>
        match LowerStmt(stmts[i], b.names, b.free)
        case None => 0
        case Some(e) => LinesSize(e.lines))
  }
}
