/**
 The deploy gate's pairing rules (zkvm.validate_code) and what they buy on every run: a compare always follows both
 its range checks, and an asset selection is always spent by the very next instruction.
 */
module ZkGuards {
  import opened Options
  import opened Field
  import opened ZkVM
  import opened ZkAsm
  import opened AsmSimulation

  // ---- the gate ------------------------------------------------------------------------------------

  predicate IsAt(prog: seq<Ins>, i: int, op: Op) {
    0 <= i < |prog| && prog[i].op == op
  }

  predicate RangeAt(prog: seq<Ins>, i: int, r: Reg) {
    IsAt(prog, i, RANGE) && prog[i].d == r
  }

  /** LT at i is the tail of RANGE d; RANGE s; LT d s. */
  predicate LtGuarded(prog: seq<Ins>, i: nat)
    requires i < |prog|
  {
    prog[i].op.LT? ==> RangeAt(prog, i - 2, prog[i].d) && RangeAt(prog, i - 1, prog[i].s)
  }

  predicate AselGuarded(prog: seq<Ins>, i: nat)
    requires i < |prog|
  {
    && (prog[i].op.ASEL? ==> IsAt(prog, i + 1, PAY) || IsAt(prog, i + 1, AMINT))
    && (prog[i].op.AMINT? ==> IsAt(prog, i - 1, ASEL))
  }

  /** Positions a jump may not target: a compare, its second range check, the spend after a selection. */
  predicate NoJump(prog: seq<Ins>, t: int) {
    IsAt(prog, t, LT) || IsAt(prog, t + 1, LT) || IsAt(prog, t - 1, ASEL)
  }

  predicate Jumps(ins: Ins) {
    ins.op.JMP? || ins.op.JNZ?
  }

  /** The two pairing rules together. */
  predicate Guarded(prog: seq<Ins>) {
    && (forall i :: 0 <= i < |prog| ==> LtGuarded(prog, i) && AselGuarded(prog, i))
    && (forall i :: 0 <= i < |prog| && Jumps(prog[i]) ==> !NoJump(prog, prog[i].imm))
  }

  /** The per-instruction checks. */
  predicate Fit(prog: seq<Ins>, ins: Ins) {
    && ins.imm < P
    && (Jumps(ins) ==> ins.imm < |prog|)
    && (ins.op.DIVMOD? || ins.op.DIVMODW? ==> ins.d != 7)
    && (ins.op.CTX? || ins.op.ACTX? ==> ins.imm <= 3)
  }

  /** What validate_code accepts, one method at a time. */
  predicate ValidMethod(prog: seq<Ins>) {
    0 < |prog| <= GAS_LIMIT && (forall i :: 0 <= i < |prog| ==> Fit(prog, prog[i])) && Guarded(prog)
  }

  /** t is blocked by a compare among the first i instructions. */
  predicate CompareBlocks(prog: seq<Ins>, i: nat, t: int) {
    (t < i && IsAt(prog, t, LT)) || (t + 1 < i && IsAt(prog, t + 1, LT))
  }

  /** The gate itself. */
  method ValidateMethod(prog: seq<Ins>) returns (ok: bool)
    ensures ok <==> ValidMethod(prog)
  {
    if |prog| == 0 || |prog| > GAS_LIMIT {
      return false;
    }
    for i := 0 to |prog|
      invariant forall k :: 0 <= k < i ==> Fit(prog, prog[k])
    {
      if !Fit(prog, prog[i]) {
        return false;
      }
    }
    var noJump: set<int> := {};
    for i := 0 to |prog|
      invariant forall k :: 0 <= k < i ==> LtGuarded(prog, k)
      invariant forall t: int :: t in noJump <==> CompareBlocks(prog, i, t)
    {
      if prog[i].op.LT? {
        if !(RangeAt(prog, i - 2, prog[i].d) && RangeAt(prog, i - 1, prog[i].s)) {
          assert !LtGuarded(prog, i);
          return false;
        }
        noJump := noJump + {i, i - 1};
      }
    }
    ghost var compares := noJump;
    for i := 0 to |prog|
      invariant forall k :: 0 <= k < i ==> AselGuarded(prog, k)
      invariant forall t :: t in noJump <==> t in compares || (0 <= t - 1 < i && IsAt(prog, t - 1, ASEL))
    {
      if !AselGuarded(prog, i) {
        return false;
      }
      if prog[i].op.ASEL? {
        noJump := noJump + {i + 1};
      }
    }
    assert forall t :: NoJump(prog, t) ==> t in noJump by {
      forall t | NoJump(prog, t) ensures t in noJump {
        if CompareBlocks(prog, |prog|, t) { assert t in compares; }
      }
    }
    assert forall t :: t in noJump ==> NoJump(prog, t);
    for i := 0 to |prog|
      invariant forall k :: 0 <= k < i && Jumps(prog[k]) ==> !NoJump(prog, prog[k].imm)
    {
      if Jumps(prog[i]) && prog[i].imm in noJump {
        return false;
      }
    }
    return true;
  }

  // ---- the assembler always passes the pairing rules -----------------------------------------------

  /** The line and the offset in it that instruction p came from. */
  lemma Locate(lines: seq<Line>, prog: seq<Ins>, n: nat, p: nat) returns (i: nat, k: nat)
    requires Assembled(lines) == Ok(prog) && n <= |lines| && p < Pos(lines, n)
    ensures i < n && p == Pos(lines, i) + k && p < Pos(lines, i + 1) <= |prog|
    ensures Expand(lines[i]).Ok? && k < |Expand(lines[i]).value|
    ensures Resolve(lines, Expand(lines[i]).value[k]) == Ok(prog[p])
  {
    if p < Pos(lines, n - 1) {
      i, k := Locate(lines, prog, n - 1, p);
    } else {
      i, k := n - 1, p - Pos(lines, n - 1);
      ProgAt(lines, prog, i);
    }
  }

  lemma {:induction false} AbsorbPlain(srcs: seq<Reg>)
    ensures forall k :: 0 <= k < |AbsorbCode(srcs)| ==>
              AbsorbCode(srcs)[k].Fixed? && (AbsorbCode(srcs)[k].ins.op.HABS? || AbsorbCode(srcs)[k].ins.op.HR?)
  {
    if srcs != [] {
      RoundsPlain(RoundOrder());
      AbsorbPlain(srcs[1..]);
    }
  }

  lemma {:induction false} RoundsPlain(rounds: seq<nat>)
    ensures forall k :: 0 <= k < |RoundCode(rounds)| ==>
              RoundCode(rounds)[k].Fixed? && RoundCode(rounds)[k].ins.op.HR?
  {
    if rounds != [] { RoundsPlain(rounds[1..]); }
  }

  /** Guarded opcodes come only from their macros, at a fixed place in the expansion. */
  lemma MacroPlaces(line: Line, k: nat)
    requires Expand(line).Ok? && k < |Expand(line).value|
    ensures var code := Expand(line).value;
            && (code[k].Fixed? && code[k].ins.op.LT? ==> (line.Lt? || line.Gte?) && k == 2)
            && (code[k].Fixed? && code[k].ins.op.ASEL? ==> line.AssetMove? && k == 0)
            && (code[k].Fixed? && code[k].ins.op.AMINT? ==> line.AssetMove? && k == 1)
            && (if code[k].Fixed? then !Jumps(code[k].ins) else code[k].op.JMP? || code[k].op.JNZ?)
  {
    if line.Hash? { AbsorbPlain(line.srcs); }
  }

  lemma GuardedAt(lines: seq<Line>, prog: seq<Ins>, p: nat)
    requires Assembled(lines) == Ok(prog) && p < |prog|
    ensures LtGuarded(prog, p) && AselGuarded(prog, p)
  {
    hide Pos;
    ProgLength(lines, prog);
    var i, k := Locate(lines, prog, |lines|, p);
    ProgAt(lines, prog, i);
    var code, q := Expand(lines[i]).value, Pos(lines, i);
    MacroPlaces(lines[i], k);
    if lines[i].Lt? || lines[i].Gte? {
      assert Resolve(lines, code[0]) == Ok(prog[q + 0]) && Resolve(lines, code[1]) == Ok(prog[q + 1]);
    }
    if lines[i].AssetMove? {
      assert Resolve(lines, code[0]) == Ok(prog[q + 0]) && Resolve(lines, code[1]) == Ok(prog[q + 1]);
    }
  }

  /** No line starts strictly inside another line's expansion. */
  lemma StartsApart(lines: seq<Line>, i: nat, j: nat, k: nat)
    requires i < |lines| && j <= |lines| && Pos(lines, j) == Pos(lines, i) + k && 0 < k
    ensures Pos(lines, i + 1) <= Pos(lines, j)
  {
    if j <= i { PosMonotone(lines, j, i); } else { PosMonotone(lines, i + 1, j); }
  }

  lemma TargetApart(lines: seq<Line>, prog: seq<Ins>, j: nat)
    requires Assembled(lines) == Ok(prog) && j <= |lines|
    ensures !NoJump(prog, Pos(lines, j))
  {
    hide Pos, Expand;
    ProgLength(lines, prog);
    var t := Pos(lines, j);
    if NoJump(prog, t) {
      var p: nat := if IsAt(prog, t, LT) then t else if IsAt(prog, t + 1, LT) then t + 1 else t - 1;
      var i, k := Locate(lines, prog, |lines|, p);
      MacroPlaces(lines[i], k);
      ProgAt(lines, prog, i);
      MacroSizes(lines[i]);
      var off := t - Pos(lines, i);
      if off > 0 { StartsApart(lines, i, j, off); }
    }
  }

  lemma MacroSizes(line: Line)
    requires Expand(line).Ok?
    ensures line.Lt? ==> |Expand(line).value| == 3
    ensures line.Gte? ==> |Expand(line).value| == 4
    ensures line.AssetMove? ==> |Expand(line).value| == 2
  {
  }

  /** Every assembled program passes the pairing rules, whatever its source text. */
  lemma AssembledGuarded(lines: seq<Line>, prog: seq<Ins>)
    requires Assembled(lines) == Ok(prog)
    ensures Guarded(prog)
  {
    hide Pos, Expand, NoJump, LtGuarded, AselGuarded;
    ProgLength(lines, prog);
    forall p | 0 <= p < |prog| ensures LtGuarded(prog, p) && AselGuarded(prog, p) {
      GuardedAt(lines, prog, p);
    }
    forall p | 0 <= p < |prog| && Jumps(prog[p]) ensures !NoJump(prog, prog[p].imm) {
      var i, k := Locate(lines, prog, |lines|, p);
      MacroPlaces(lines[i], k);
      var code := Expand(lines[i]).value;
      assert code[k].Target?;
      LabelLineIn(lines, code[k].name);
      TargetApart(lines, prog, LabelLine(lines, code[k].name).value);
    }
  }

  // ---- what the rules buy on every run -------------------------------------------------------------

  /** What holds whenever the machine is about to execute instruction pc. */
  ghost predicate GuardInv(prog: seq<Ins>, pc: nat, c: Core) {
    && (IsAt(prog, pc, LT) ==> c.regs[prog[pc].d] < TWO_62 && c.regs[prog[pc].s] < TWO_62)
    && (IsAt(prog, pc + 1, LT) ==> c.regs[prog[pc + 1].d] < TWO_62)
    && (c.asel != 0 <==> IsAt(prog, pc - 1, ASEL))
  }

  lemma RangeExec(ctx: Ctx, ins: Ins, c: Core)
    requires ins.op.RANGE? && Exec(ctx, ins, c).Some?
    ensures Exec(ctx, ins, c) == Some(c) && c.regs[ins.d] < TWO_62
  {
  }

  /** How an instruction changes the live selection. */
  lemma SelExec(ctx: Ctx, ins: Ins, c: Core)
    requires Exec(ctx, ins, c).Some?
    ensures var sel := Exec(ctx, ins, c).value.asel;
            if ins.op.ASEL? then sel != 0
            else if ins.op.PAY? || ins.op.AMINT? then sel == 0
            else sel == c.asel
  {
  }

  lemma {:induction false} GuardStep(ctx: Ctx, prog: seq<Ins>, pc: nat, c: Core)
    requires Guarded(prog) && GuardInv(prog, pc, c) && StepAt(ctx, prog, pc, c).Go?
    ensures var to := StepAt(ctx, prog, pc, c); GuardInv(prog, to.pc, to.core)
  {
    hide Exec;
    var ins, to := prog[pc], StepAt(ctx, prog, pc, c);
    SelExec(ctx, ins, c);
    assert LtGuarded(prog, pc) && AselGuarded(prog, pc);
    if Jumps(ins) && to.pc == ins.imm && to.pc != pc + 1 {
      assert !NoJump(prog, ins.imm);
    } else {
      assert to.pc == pc + 1;
      if IsAt(prog, pc + 1, LT) {
        assert LtGuarded(prog, pc + 1);
        RangeExec(ctx, ins, c);
      }
      if IsAt(prog, pc + 2, LT) {
        assert LtGuarded(prog, pc + 2);
        RangeExec(ctx, ins, c);
      }
      assert IsAt(prog, pc, ASEL) <==> ins.op.ASEL?;
    }
    if IsAt(prog, pc - 1, ASEL) { assert AselGuarded(prog, pc - 1); }
  }

  /** Where a call is after n steps. */
  function Trace(ctx: Ctx, prog: seq<Ins>, st: map<Elem, Elem>, n: nat): Step {
    if n == 0 then Go(0, Entry0(ctx, st))
    else
      match Trace(ctx, prog, st, n - 1)
      case Go(pc, c) => StepAt(ctx, prog, pc, c)
      case stopped => stopped
  }

  lemma NoEarlyCompare(prog: seq<Ins>)
    requires Guarded(prog)
    ensures !IsAt(prog, 0, LT) && !IsAt(prog, 1, LT)
  {
    assert |prog| > 0 ==> LtGuarded(prog, 0);
    assert |prog| > 1 ==> LtGuarded(prog, 1);
  }

  lemma {:induction false} GuardsHold(ctx: Ctx, prog: seq<Ins>, st: map<Elem, Elem>, n: nat)
    requires Guarded(prog) && Trace(ctx, prog, st, n).Go?
    ensures var at := Trace(ctx, prog, st, n); GuardInv(prog, at.pc, at.core)
  {
    hide StepAt;
    if n > 0 {
      GuardsHold(ctx, prog, st, n - 1);
      var at := Trace(ctx, prog, st, n - 1);
      GuardStep(ctx, prog, at.pc, at.core);
    } else {
      NoEarlyCompare(prog);
    }
  }

  /**
   Guard safety on every run of a program the gate accepts: whenever a compare executes, both operands are below
   2^62, so it does not revert and its bit is the true comparison; a mint always has an asset selected, and a pay
   moves an asset exactly when the instruction before it selected one.
   */
  lemma {:induction false} GuardSafety(ctx: Ctx, prog: seq<Ins>, st: map<Elem, Elem>, n: nat)
    requires Guarded(prog) && Trace(ctx, prog, st, n).Go? && Trace(ctx, prog, st, n).pc < |prog|
    ensures var at := Trace(ctx, prog, st, n);
            var ins := prog[at.pc];
            && (ins.op.LT? ==> Exec(ctx, ins, at.core) ==
                               Some(at.core.Set(ins.d, Bit(at.core.regs[ins.d] < at.core.regs[ins.s]))))
            && (ins.op.AMINT? ==> at.core.asel != 0)
            && (ins.op.PAY? ==> (at.core.asel != 0 <==> IsAt(prog, at.pc - 1, ASEL)))
  {
    hide Trace, Exec;
    GuardsHold(ctx, prog, st, n);
    var at := Trace(ctx, prog, st, n);
    var ins := prog[at.pc];
    if ins.op.LT? { CompareOps(ctx, ins.d, ins.s, at.core); LtExec(ctx, ins, at.core); }
    if ins.op.AMINT? { assert AselGuarded(prog, at.pc); }
  }

  lemma LtExec(ctx: Ctx, ins: Ins, c: Core)
    requires ins.op.LT?
    ensures Exec(ctx, ins, c) == Exec(ctx, Ins(LT, ins.d, ins.s, 0), c)
  {
  }
}
