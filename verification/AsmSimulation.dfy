/**
 What source lines mean, and the proof that assembled code behaves like the lines: labels are followed by name,
 each macro has its documented meaning, and a line costs as many steps as it has instructions.
 */
module AsmSimulation {
  import opened Options
  import opened Field
  import opened ZkVM
  import opened ZkAsm

  // ---- meaning of one line -------------------------------------------------------------------------

  function Select(regs: Regs, srcs: seq<Reg>): (xs: seq<Elem>)
    ensures |xs| == |srcs|
    ensures forall i :: 0 <= i < |srcs| ==> xs[i] == regs[srcs[i]]
  {
    seq(|srcs|, i requires 0 <= i < |srcs| => regs[srcs[i]])
  }

  /** Comparison with both operands held below 2^62. */
  function Compare(c: Core, d: Reg, s: Reg): Option<bool> {
    if c.regs[d] >= TWO_62 || c.regs[s] >= TWO_62 then None else Some(c.regs[d] < c.regs[s])
  }

  /** The data effect of a line; None is a revert. Labels and jumps have none. */
  function ExecLine(ctx: Ctx, line: Line, c: Core): Option<Core> {
    match line
    case Label(_) => Some(c)
    case Jmp(_) => Some(c)
    case Jnz(_, _) => Some(c)
    case Hash(d, srcs) =>
      var h := Absorb(ctx.sponge, Select(c.regs, srcs), (0, ctx.sponge.iv));
      Some(c.(h0 := h.0, h1 := h.1).Set(d, h.0))
    case Slot(d, field, k) => Some(c.Set(d, (field * TWO_32 + c.regs[k]) % P))
    case Lt(d, s) =>
      var b :- Compare(c, d, s);
      Some(c.Set(d, Bit(b)))
    case Gte(d, s) =>
      var b :- Compare(c, d, s);
      Some(c.Set(d, Bit(!b)))
    case Rem(wide, d, s) =>
      var qr :- DivRem(wide, c.regs[d], c.regs[s]);
      Some(c.Set(7, qr.1).Set(d, qr.1))
    case CtxOf(d, w) => Some(c.Set(d, if w < 4 then ctx.CtxValue(w) else 0))
    case ActxOf(d, w) => Some(c.Set(d, if w < 4 then ctx.ActxValue(w) else 0))
    case AssetMove(mint, a, to, amt) =>
      var asset, to_, amount := c.regs[a], c.regs[to], c.regs[amt];
      if asset == 0 then None
      else if mint then
        Some(c.(apend := MintAsset(ctx, c.apend, asset, to_, amount), asel := 0)
             .Log(IO_ASEL, asset, 0).Log(IO_AMINT, to_, amount))
      else
        var ap :- PayAsset(ctx, c.apend, asset, to_, amount);
        Some(c.(apend := ap, asel := 0).Log(IO_ASEL, asset, 0).Log(IO_PAY, to_, amount))
    case Movi(d, imm) => Some(c.Set(d, imm % P))
    case Plain(op, d, s) => Exec(ctx, Ins(op, d, s, 0), c)
  }

  /** slot's two instructions compute field*2^32 + rk only when the two registers differ. */
  predicate SlotOk(line: Line) {
    line.Slot? ==> line.d != line.k
  }

  predicate IsRet(line: Line) {
    line.Plain? && line.op.RET?
  }

  // ---- runs over lines -----------------------------------------------------------------------------

  /** Interpret the source from line i: jumps look labels up by name, running off the end fails. */
  function LineRun(ctx: Ctx, lines: seq<Line>, i: nat, c: Core, gas: nat): Outcome
    decreases gas, if i < |lines| then |lines| - i else 0
  {
    if i >= |lines| then Failure
    else if lines[i].Label? then LineRun(ctx, lines, i + 1, c, gas)
    else
      var cost := Size(lines[i]);
      match ExecLine(ctx, lines[i], c)
      case None => Failure
      case Some(c') =>
        if gas < cost || cost == 0 then Failure
        else if IsRet(lines[i]) then Success(c.regs[lines[i].s], c'.st, c'.io)
        else
          match NextLine(lines, i, c)
          case None => Failure
          case Some(j) => LineRun(ctx, lines, j, c', gas - cost)
  }

  /** The line executed after line i. */
  function NextLine(lines: seq<Line>, i: nat, c: Core): Option<nat>
    requires i < |lines|
  {
    match lines[i]
    case Jmp(name) => LabelLine(lines, name)
    case Jnz(s, name) => if c.regs[s] != 0 then LabelLine(lines, name) else Some(i + 1)
    case _ => Some(i + 1)
  }

  // ---- straight-line code --------------------------------------------------------------------------

  predicate Straight(p: Pending) {
    p.Fixed? && !p.ins.op.RET? && !p.ins.op.JMP? && !p.ins.op.JNZ?
  }

  predicate AllStraight(code: seq<Pending>) {
    forall k :: 0 <= k < |code| ==> Straight(code[k])
  }

  function ExecSeq(ctx: Ctx, code: seq<Pending>, c: Core): Option<Core>
    requires AllStraight(code)
  {
    if code == [] then Some(c)
    else
      var c' :- Exec(ctx, code[0].ins, c);
      ExecSeq(ctx, code[1..], c')
  }

  lemma ExecSeqAppend(ctx: Ctx, a: seq<Pending>, b: seq<Pending>, c: Core)
    requires AllStraight(a) && AllStraight(b)
    ensures AllStraight(a + b)
    ensures ExecSeq(ctx, a + b, c) ==
            match ExecSeq(ctx, a, c) case None => None case Some(c') => ExecSeq(ctx, b, c')
  {
    if a == [] {
      assert a + b == b;
    } else {
      assert (a + b)[0] == a[0] && (a + b)[1..] == a[1..] + b;
      match Exec(ctx, a[0].ins, c) {
        case None =>
        case Some(c') => ExecSeqAppend(ctx, a[1..], b, c');
      }
    }
  }

  /** prog holds the straight code from position p on. */
  predicate Placed(prog: seq<Ins>, p: nat, code: seq<Pending>) {
    p + |code| <= |prog| && forall k :: 0 <= k < |code| ==> code[k].Fixed? && prog[p + k] == code[k].ins
  }

  /** Running a straight block is executing it in one go, at one gas per instruction. */
  lemma {:induction false} BlockRun(ctx: Ctx, prog: seq<Ins>, p: nat, code: seq<Pending>, c: Core, gas: nat)
    requires AllStraight(code) && Placed(prog, p, code)
    ensures RunFrom(ctx, prog, p, c, gas) ==
            match ExecSeq(ctx, code, c)
            case None => Failure
            case Some(c') => if gas < |code| then Failure else RunFrom(ctx, prog, p + |code|, c', gas - |code|)
    decreases gas
  {
    hide Exec;
    if code != [] && gas > 0 {
      assert prog[p + 0] == code[0].ins;
      match Exec(ctx, code[0].ins, c) {
        case None =>
        case Some(c') =>
          assert Placed(prog, p + 1, code[1..]) by {
            forall k | 0 <= k < |code[1..]| ensures code[1..][k].Fixed? && prog[p + 1 + k] == code[1..][k].ins {
              assert code[1..][k] == code[k + 1];
            }
          }
          BlockRun(ctx, prog, p + 1, code[1..], c', gas - 1);
      }
    }
  }

  // ---- each macro does what its line says ----------------------------------------------------------

  /** What the four sponge opcodes do. */
  lemma SpongeExec(ctx: Ctx, r: nat, s: Reg, c: Core)
    ensures var h := Round(ctx.sponge, r, (c.h0, c.h1));
            Exec(ctx, Ins(HR(r), 0, 0, 0), c) == Some(c.(h0 := h.0, h1 := h.1))
    ensures Exec(ctx, Ins(HABS, 0, s, 0), c) == Some(c.(h0 := Add(c.h0, c.regs[s])))
    ensures Exec(ctx, Ins(HINIT, 0, 0, 0), c) == Some(c.(h0 := 0, h1 := ctx.sponge.iv))
    ensures Exec(ctx, Ins(HOUT, s, 0, 0), c) == Some(c.Set(s, c.h0))
  {
  }

  lemma {:induction false} RoundsExec(ctx: Ctx, rounds: seq<nat>, c: Core)
    ensures AllStraight(RoundCode(rounds))
    ensures var h := Permute(ctx.sponge, rounds, (c.h0, c.h1));
            ExecSeq(ctx, RoundCode(rounds), c) == Some(c.(h0 := h.0, h1 := h.1))
  {
    hide Exec, Round;
    if rounds != [] {
      SpongeExec(ctx, rounds[0], 0, c);
      var h := Round(ctx.sponge, rounds[0], (c.h0, c.h1));
      RoundsExec(ctx, rounds[1..], c.(h0 := h.0, h1 := h.1));
      ExecSeqAppend(ctx, [Fix(HR(rounds[0]), 0, 0)], RoundCode(rounds[1..]), c);
      ExecOne(ctx, Fix(HR(rounds[0]), 0, 0), c);
    }
  }

  lemma ExecOne(ctx: Ctx, p: Pending, c: Core)
    requires Straight(p)
    ensures ExecSeq(ctx, [p], c) == Exec(ctx, p.ins, c)
  {
    assert [p][1..] == [];
  }

  lemma {:induction false} AbsorbExec(ctx: Ctx, srcs: seq<Reg>, c: Core)
    ensures AllStraight(AbsorbCode(srcs))
    ensures var h := Absorb(ctx.sponge, Select(c.regs, srcs), (c.h0, c.h1));
            ExecSeq(ctx, AbsorbCode(srcs), c) == Some(c.(h0 := h.0, h1 := h.1))
  {
    hide Exec, Permute, RoundCode;
    if srcs != [] {
      SpongeExec(ctx, 0, srcs[0], c);
      var xs := Select(c.regs, srcs);
      assert xs[1..] == Select(c.regs, srcs[1..]);
      var head := [Fix(HABS, 0, srcs[0])];
      var c1 := c.(h0 := Add(c.h0, xs[0]));
      ExecOne(ctx, Fix(HABS, 0, srcs[0]), c);
      RoundsExec(ctx, RoundOrder(), c1);
      ExecSeqAppend(ctx, head, RoundCode(RoundOrder()), c);
      var h := Permute(ctx.sponge, RoundOrder(), (c1.h0, c1.h1));
      var c2 := c1.(h0 := h.0, h1 := h.1);
      AbsorbExec(ctx, srcs[1..], c2);
      ExecSeqAppend(ctx, head + RoundCode(RoundOrder()), AbsorbCode(srcs[1..]), c);
    }
  }

  /** The hash macro computes alghash.hashn of its sources. */
  lemma HashExec(ctx: Ctx, d: Reg, srcs: seq<Reg>, c: Core)
    requires srcs != []
    ensures AllStraight(Expand(Hash(d, srcs)).value)
    ensures ExecSeq(ctx, Expand(Hash(d, srcs)).value, c) == ExecLine(ctx, Hash(d, srcs), c)
  {
    hide Exec, Absorb, AbsorbCode;
    var init, out := [Fix(HINIT, 0, 0)], [Fix(HOUT, d, 0)];
    SpongeExec(ctx, 0, d, c);
    var c1 := c.(h0 := 0, h1 := ctx.sponge.iv);
    ExecOne(ctx, init[0], c);
    AbsorbExec(ctx, srcs, c1);
    ExecSeqAppend(ctx, init, AbsorbCode(srcs), c);
    var h := Absorb(ctx.sponge, Select(c.regs, srcs), (c1.h0, c1.h1));
    var c2 := c1.(h0 := h.0, h1 := h.1);
    SpongeExec(ctx, 0, d, c2);
    ExecOne(ctx, out[0], c2);
    ExecSeqAppend(ctx, init + AbsorbCode(srcs), out, c);
  }

  lemma ExecTwo(ctx: Ctx, p: Pending, q: Pending, c: Core)
    requires Straight(p) && Straight(q)
    ensures ExecSeq(ctx, [p, q], c) ==
            match Exec(ctx, p.ins, c) case None => None case Some(c') => Exec(ctx, q.ins, c')
  {
    ExecOne(ctx, p, c);
    match Exec(ctx, p.ins, c) {
      case None =>
      case Some(c') => ExecOne(ctx, q, c');
    }
    ExecSeqAppend(ctx, [p], [q], c);
    assert [p] + [q] == [p, q];
  }

  /** slot computes field*2^32 + rk exactly when its registers differ, or rk already equals the base. */
  lemma SlotExec(ctx: Ctx, d: Reg, field: int, k: Reg, c: Core)
    requires ImmOk(field)
    ensures var line := Slot(d, field, k);
            AllStraight(Expand(line).value) &&
            (ExecSeq(ctx, Expand(line).value, c) == ExecLine(ctx, line, c)
             <==> (d != k || c.regs[k] == field * TWO_32 % P))
  {
    var line := Slot(d, field, k);
    var code := Expand(line).value;
    var base := field * TWO_32 % P;
    var c1 := c.Set(d, base);
    var x := c1.regs[k];
    assert ExecSeq(ctx, code, c) == Some(c.Set(d, Add(base, x))) by {
      ExecTwo(ctx, code[0], code[1], c);
      assert c1.Set(d, Add(base, x)).regs == c.Set(d, Add(base, x)).regs;
    }
    assert ExecLine(ctx, line, c) == Some(c.Set(d, Add(base, c.regs[k]))) by {
      SumMod(field * TWO_32, c.regs[k]);
    }
    if d == k {
      AddCancels(base, x, c.regs[k]);
      assert c.Set(d, Add(base, x)).regs[d] == Add(base, x);
      assert c.Set(d, Add(base, c.regs[k])).regs[d] == Add(base, c.regs[k]);
    }
  }

  lemma AddCancels(a: Elem, x: Elem, y: Elem)
    ensures Add(a, x) == Add(a, y) <==> x == y
  {
    assert Add(a, x) == if a + x < P then a + x else a + x - P;
    assert Add(a, y) == if a + y < P then a + y else a + y - P;
  }

  lemma SumMod(a: nat, b: Elem)
    ensures (a % P + b) % P == (a + b) % P
  {
    var q, m := a / P, a % P;
    assert a == q * P + m;
    var t := (m + b) / P;
    assert m + b == t * P + (m + b) % P;
    assert a + b == (q + t) * P + (m + b) % P;
    ModUnique(a + b, q + t, (m + b) % P);
  }

  lemma ModUnique(x: nat, q: nat, r: nat)
    requires x == q * P + r && r < P
    ensures x % P == r
  {
    assert (q - x / P) * P == x % P - r;
  }

  lemma CompareOps(ctx: Ctx, d: Reg, s: Reg, c: Core)
    ensures Exec(ctx, Ins(RANGE, d, 0, 0), c) == if c.regs[d] >= TWO_62 then None else Some(c)
    ensures c.regs[d] < TWO_62 && c.regs[s] < TWO_62 ==>
              Exec(ctx, Ins(LT, d, s, 0), c) == Some(c.Set(d, Bit(c.regs[d] < c.regs[s])))
    ensures c.regs[d] <= 1 ==> Exec(ctx, Ins(NOTB, d, 0, 0), c) == Some(c.Set(d, 1 - c.regs[d]))
  {
  }

  /** lt and gte: both RANGE checks make the window in LT succeed, so the bit is the true comparison. */
  lemma CompareExec(ctx: Ctx, line: Line, c: Core)
    requires line.Lt? || line.Gte?
    ensures AllStraight(Expand(line).value)
    ensures ExecSeq(ctx, Expand(line).value, c) == ExecLine(ctx, line, c)
  {
    hide Exec;
    var d, s := line.d, line.s;
    CompareOps(ctx, d, s, c);
    var head, lt := [Fix(RANGE, d, 0), Fix(RANGE, s, 0)], [Fix(LT, d, s)];
    CompareOps(ctx, s, d, c);
    ExecTwo(ctx, head[0], head[1], c);
    ExecSeqAppend(ctx, head, lt, c);
    if Compare(c, d, s).Some? {
      ExecOne(ctx, lt[0], c);
      var c1 := c.Set(d, Bit(c.regs[d] < c.regs[s]));
      if line.Gte? {
        var nb := [Fix(NOTB, d, 0)];
        ExecSeqAppend(ctx, head + lt, nb, c);
        CompareOps(ctx, d, s, c1);
        ExecOne(ctx, nb[0], c1);
        assert Expand(line).value == head + lt + nb;
        assert c1.Set(d, 1 - c1.regs[d]).regs == c.Set(d, Bit(!(c.regs[d] < c.regs[s]))).regs;
      } else {
        assert Expand(line).value == head + lt;
      }
    } else if line.Gte? {
      ExecSeqAppend(ctx, head + lt, [Fix(NOTB, d, 0)], c);
      assert Expand(line).value == head + lt + [Fix(NOTB, d, 0)];
    } else {
      assert Expand(line).value == head + lt;
    }
  }

  lemma RemExec(ctx: Ctx, wide: bool, d: Reg, s: Reg, c: Core)
    requires d != s && d != 7
    ensures var line := Rem(wide, d, s);
            AllStraight(Expand(line).value) &&
            ExecSeq(ctx, Expand(line).value, c) == ExecLine(ctx, line, c)
  {
    var code := Expand(Rem(wide, d, s)).value;
    ExecTwo(ctx, code[0], code[1], c);
    match DivRem(wide, c.regs[d], c.regs[s]) {
      case None =>
      case Some(qr) =>
        assert c.Set(7, qr.1).Set(d, qr.0).Set(d, qr.1).regs == c.Set(7, qr.1).Set(d, qr.1).regs;
    }
  }

  lemma AssetExec(ctx: Ctx, mint: bool, a: Reg, to: Reg, amt: Reg, c: Core)
    ensures var line := AssetMove(mint, a, to, amt);
            AllStraight(Expand(line).value) &&
            ExecSeq(ctx, Expand(line).value, c) == ExecLine(ctx, line, c)
  {
    var code := Expand(AssetMove(mint, a, to, amt)).value;
    ExecTwo(ctx, code[0], code[1], c);
  }

  /** A line that is neither control flow nor a misused slot executes as its expansion. */
  lemma LineExec(ctx: Ctx, line: Line, c: Core)
    requires Expand(line).Ok? && SlotOk(line) && !line.Label? && !line.Jmp? && !line.Jnz?
    requires !IsRet(line)
    ensures AllStraight(Expand(line).value)
    ensures ExecSeq(ctx, Expand(line).value, c) == ExecLine(ctx, line, c)
  {
    match line
    case Hash(d, srcs) => HashExec(ctx, d, srcs, c);
    case Slot(d, f, k) => SlotExec(ctx, d, f, k, c);
    case Lt(_, _) => CompareExec(ctx, line, c);
    case Gte(_, _) => CompareExec(ctx, line, c);
    case Rem(w, d, s) => RemExec(ctx, w, d, s, c);
    case AssetMove(m, a, t, x) => AssetExec(ctx, m, a, t, x, c);
    case CtxOf(_, _) => ExecOne(ctx, Expand(line).value[0], c);
    case ActxOf(_, _) => ExecOne(ctx, Expand(line).value[0], c);
    case Movi(_, _) => ExecOne(ctx, Expand(line).value[0], c);
    case Plain(_, _, _) => ExecOne(ctx, Expand(line).value[0], c);
  }

  // ---- the simulation ------------------------------------------------------------------------------

  /** The lines assembled to prog, and every slot line keeps its registers apart. */
  predicate AssembledTo(lines: seq<Line>, prog: seq<Ins>) {
    Assembled(lines) == Ok(prog) && forall i :: 0 <= i < |lines| ==> SlotOk(lines[i])
  }

  lemma ExpandAllAt(lines: seq<Line>, i: nat)
    requires ExpandAll(lines).Ok? && i < |lines|
    ensures Expand(lines[i]).Ok?
    ensures Pos(lines, i + 1) == Pos(lines, i) + |Expand(lines[i]).value| <= |ExpandAll(lines).value|
    ensures ExpandAll(lines).value[Pos(lines, i)..Pos(lines, i + 1)] == Expand(lines[i]).value
  {
    var n := |lines| - 1;
    var init := lines[..n];
    ExpandAllLength(lines);
    ExpandAllLength(init);
    PosPrefix(lines, init, n);
    if i < n {
      ExpandAllAt(init, i);
      PosPrefix(lines, init, i);
      PosPrefix(lines, init, i + 1);
      PosMonotone(lines, i + 1, n);
    }
  }

  /** Where prog holds line i. */
  lemma ProgAt(lines: seq<Line>, prog: seq<Ins>, i: nat)
    requires Assembled(lines) == Ok(prog) && i < |lines|
    ensures Expand(lines[i]).Ok?
    ensures Pos(lines, i + 1) == Pos(lines, i) + |Expand(lines[i]).value| <= |prog|
    ensures forall k :: 0 <= k < |Expand(lines[i]).value| ==>
              Resolve(lines, Expand(lines[i]).value[k]) == Ok(prog[Pos(lines, i) + k])
  {
    hide ExpandAll, Expand, Pos, Resolve;
    ExpandAllAt(lines, i);
    var all, code, p := ExpandAll(lines).value, Expand(lines[i]).value, Pos(lines, i);
    forall k | 0 <= k < |code| ensures Resolve(lines, code[k]) == Ok(prog[p + k]) {
      assert all[p..Pos(lines, i + 1)][k] == all[p + k];
      assert Resolve(lines, all[p + k]) == Ok(prog[p + k]);
    }
  }

  lemma ProgLength(lines: seq<Line>, prog: seq<Ins>)
    requires Assembled(lines) == Ok(prog)
    ensures |prog| == Pos(lines, |lines|)
  {
    ExpandAllLength(lines);
  }

  /**
   Assembler simulation: from the start of any line, the assembled program's run is the source's run -- same
   result, storage, log and step count -- for every program that assembles with well-formed slot lines.
   */
  lemma {:induction false} Simulation(ctx: Ctx, lines: seq<Line>, prog: seq<Ins>, i: nat, c: Core, gas: nat)
    requires AssembledTo(lines, prog) && i <= |lines|
    ensures RunFrom(ctx, prog, Pos(lines, i), c, gas) == LineRun(ctx, lines, i, c, gas)
    decreases gas, |lines| - i
  {
    hide Exec, ExecLine, Pos, LabelLine;
    ProgLength(lines, prog);
    if i < |lines| {
      ProgAt(lines, prog, i);
      var line := lines[i];
      if line.Label? {
        Simulation(ctx, lines, prog, i + 1, c, gas);
      } else if line.Jmp? || line.Jnz? {
        SimulateJump(ctx, lines, prog, i, c, gas, line.name);
      } else if IsRet(line) {
        SimulateRet(ctx, lines, prog, i, c, gas);
      } else {
        SimulateStraight(ctx, lines, prog, i, c, gas);
      }
    }
  }

  lemma SimulateRet(ctx: Ctx, lines: seq<Line>, prog: seq<Ins>, i: nat, c: Core, gas: nat)
    requires AssembledTo(lines, prog) && i < |lines| && IsRet(lines[i])
    ensures RunFrom(ctx, prog, Pos(lines, i), c, gas) == LineRun(ctx, lines, i, c, gas)
  {
    hide Exec, Pos;
    ProgAt(lines, prog, i);
    var ins := Ins(RET, lines[i].d, lines[i].s, 0);
    assert Expand(lines[i]).value == [Fixed(ins)];
    assert Resolve(lines, Expand(lines[i]).value[0]) == Ok(prog[Pos(lines, i) + 0]);
    assert prog[Pos(lines, i)] == ins;
  }

  lemma JumpExec(ctx: Ctx, line: Line, ins: Ins, c: Core)
    requires line.Jmp? || line.Jnz?
    requires ins.op.JMP? || ins.op.JNZ?
    ensures ExecLine(ctx, line, c) == Some(c) && Exec(ctx, ins, c) == Some(c) && Size(line) == 1
  {
  }

  lemma {:induction false} SimulateJump(ctx: Ctx, lines: seq<Line>, prog: seq<Ins>, i: nat, c: Core, gas: nat,
                                        name: string)
    requires AssembledTo(lines, prog) && i < |lines|
    requires lines[i] == Jmp(name) || (lines[i].Jnz? && lines[i].name == name)
    ensures RunFrom(ctx, prog, Pos(lines, i), c, gas) == LineRun(ctx, lines, i, c, gas)
    decreases gas, |lines| - i, 0
  {
    hide Exec, ExecLine, Pos, LabelLine;
    ProgAt(lines, prog, i);
    var p := Pos(lines, i);
    var code := Expand(lines[i]).value;
    assert Resolve(lines, code[0]) == Ok(prog[p + 0]);
    JumpExec(ctx, lines[i], prog[p], c);
    LabelLineIn(lines, name);
    if gas > 0 {
      var at := LabelLine(lines, name).value;
      Simulation(ctx, lines, prog, at, c, gas - 1);
      Simulation(ctx, lines, prog, i + 1, c, gas - 1);
    }
  }

  lemma {:induction false} SimulateStraight(ctx: Ctx, lines: seq<Line>, prog: seq<Ins>, i: nat, c: Core, gas: nat)
    requires AssembledTo(lines, prog) && i < |lines|
    requires !lines[i].Label? && !lines[i].Jmp? && !lines[i].Jnz? && !IsRet(lines[i])
    ensures RunFrom(ctx, prog, Pos(lines, i), c, gas) == LineRun(ctx, lines, i, c, gas)
    decreases gas, |lines| - i, 0
  {
    hide Exec, ExecLine, Pos, LabelLine;
    ProgAt(lines, prog, i);
    var line, p := lines[i], Pos(lines, i);
    var code := Expand(line).value;
    LineExec(ctx, line, c);
    assert Placed(prog, p, code) by {
      forall k | 0 <= k < |code| ensures code[k].Fixed? && prog[p + k] == code[k].ins {
        assert Straight(code[k]);
        assert Resolve(lines, code[k]) == Ok(prog[p + k]);
      }
    }
    BlockRun(ctx, prog, p, code, c, gas);
    match ExecSeq(ctx, code, c) {
      case None =>
      case Some(c') => if gas >= |code| && |code| > 0 { Simulation(ctx, lines, prog, i + 1, c', gas - |code|); }
    }
  }
}
