/**
 The zkasm assembler of execnode/zkvmasm.py. A source line is taken after tokenising: pass 1 expands macros and
 records label positions, pass 2 resolves jump targets.
 */
module ZkAsm {
  import opened Options
  import opened Field
  import opened ZkVM

  /** One non-blank source line. Line.Plain covers every mnemonic that is written as itself. */
  datatype Line =
    | Label(name: string)
    | Hash(d: Reg, srcs: seq<Reg>)
    | Slot(d: Reg, field: int, k: Reg)
    | Lt(d: Reg, s: Reg)
    | Gte(d: Reg, s: Reg)
    | Rem(wide: bool, d: Reg, s: Reg)
    | CtxOf(d: Reg, which: nat)
    | ActxOf(d: Reg, which: nat)
    | AssetMove(mint: bool, asset: Reg, to: Reg, amount: Reg)
    | Jmp(name: string)
    | Jnz(s: Reg, name: string)
    | Movi(d: Reg, imm: int)
    | Plain(op: Op, d: Reg, s: Reg)

  datatype AsmError = BadImmediate | HashSyntax | RemGuard | BadContext | UnknownOp | UnknownLabel(name: string)

  /** A pass-1 instruction: complete, or a jump whose label is still a name. */
  datatype Pending = Fixed(ins: Ins) | Target(op: Op, s: Reg, name: string)

  /** Mnemonics passed through unchanged; ASEL, AMINT, LT and the sponge rounds are reachable only by macro. */
  predicate Authorable(op: Op) {
    match op
    case MOVI | LT | JMP | JNZ | CTX | ACTX | ASEL | AMINT => false
    case HR(_) => false
    case _ => true
  }

  predicate ImmOk(v: int) {
    0 <= v < TWO_64
  }

  function Fix(op: Op, d: Reg, s: Reg): Pending {
    Fixed(Ins(op, d, s, 0))
  }

  function RoundCode(rounds: seq<nat>): seq<Pending> {
    if rounds == [] then [] else [Fix(HR(rounds[0]), 0, 0)] + RoundCode(rounds[1..])
  }

  function AbsorbCode(srcs: seq<Reg>): seq<Pending> {
    if srcs == [] then [] else [Fix(HABS, 0, srcs[0])] + RoundCode(RoundOrder()) + AbsorbCode(srcs[1..])
  }

  /** Pass 1 on one line. */
  function Expand(line: Line): Result<seq<Pending>, AsmError> {
    match line
    case Label(_) => Ok([])
    case Hash(d, srcs) =>
      if srcs == [] then Err(HashSyntax) else Ok([Fix(HINIT, 0, 0)] + AbsorbCode(srcs) + [Fix(HOUT, d, 0)])
    case Slot(d, field, k) =>
      if !ImmOk(field) then Err(BadImmediate)
      else Ok([Fixed(Ins(MOVI, d, 0, field * TWO_32)), Fix(ADD, d, k)])
    case Lt(d, s) => Ok([Fix(RANGE, d, 0), Fix(RANGE, s, 0), Fix(LT, d, s)])
    case Gte(d, s) => Ok([Fix(RANGE, d, 0), Fix(RANGE, s, 0), Fix(LT, d, s), Fix(NOTB, d, 0)])
    case Rem(wide, d, s) =>
      if d == s || d == 7 then Err(RemGuard)
      else Ok([Fix(if wide then DIVMODW else DIVMOD, d, s), Fix(MOV, d, 7)])
    case CtxOf(d, w) => if w >= 4 then Err(BadContext) else Ok([Fixed(Ins(CTX, d, 0, w))])
    case ActxOf(d, w) => if w >= 2 then Err(BadContext) else Ok([Fixed(Ins(ACTX, d, 0, w))])
    case AssetMove(mint, a, to, amt) => Ok([Fix(ASEL, 0, a), Fix(if mint then AMINT else PAY, to, amt)])
    case Jmp(name) => Ok([Target(JMP, 0, name)])
    case Jnz(s, name) => Ok([Target(JNZ, s, name)])
    case Movi(d, imm) => if !ImmOk(imm) then Err(BadImmediate) else Ok([Fixed(Ins(MOVI, d, 0, imm))])
    case Plain(op, d, s) => if Authorable(op) then Ok([Fix(op, d, s)]) else Err(UnknownOp)
  }

  function ExpandAll(lines: seq<Line>): Result<seq<Pending>, AsmError> {
    if lines == [] then Ok([])
    else
      var init :- ExpandAll(lines[..|lines| - 1]);
      var last :- Expand(lines[|lines| - 1]);
      Ok(init + last)
  }

  /** Instructions a line takes; 0 for one that does not assemble. */
  function Size(line: Line): nat {
    match Expand(line)
    case Ok(code) => |code|
    case Err(_) => 0
  }

  /** The instruction position at which line i starts. */
  function Pos(lines: seq<Line>, i: nat): nat
    requires i <= |lines|
  {
    if i == 0 then 0 else Pos(lines, i - 1) + Size(lines[i - 1])
  }

  /** The last line that defines the label, as a later definition overwrites an earlier one. */
  function LabelLine(lines: seq<Line>, name: string): Option<nat> {
    if lines == [] then None
    else if lines[|lines| - 1] == Label(name) then Some(|lines| - 1)
    else LabelLine(lines[..|lines| - 1], name)
  }

  lemma {:induction false} LabelLineIn(lines: seq<Line>, name: string)
    ensures var at := LabelLine(lines, name); at.Some? ==> at.value < |lines| && lines[at.value] == Label(name)
  {
    if lines != [] { LabelLineIn(lines[..|lines| - 1], name); }
  }

  function Resolve(lines: seq<Line>, p: Pending): Result<Ins, AsmError> {
    match p
    case Fixed(ins) => Ok(ins)
    case Target(op, s, name) =>
      LabelLineIn(lines, name);
      match LabelLine(lines, name)
      case None => Err(UnknownLabel(name))
      case Some(i) => Ok(Ins(op, 0, s, Pos(lines, i)))
  }

  function ResolveAll(lines: seq<Line>, code: seq<Pending>): (r: Result<seq<Ins>, AsmError>)
    ensures r.Ok? ==> |r.value| == |code|
    ensures r.Ok? ==> forall k :: 0 <= k < |code| ==> Resolve(lines, code[k]) == Ok(r.value[k])
    ensures r.Err? ==> exists k :: 0 <= k < |code| && Resolve(lines, code[k]) == Err(r.error)
  {
    if code == [] then Ok([])
    else
      var init :- ResolveAll(lines, code[..|code| - 1]);
      var last :- Resolve(lines, code[|code| - 1]);
      Ok(init + [last])
  }

  /** What assembling a method body means. */
  function Assembled(lines: seq<Line>): Result<seq<Ins>, AsmError> {
    var code :- ExpandAll(lines);
    ResolveAll(lines, code)
  }

  // ---- the two-pass method -------------------------------------------------------------------------

  lemma ExpandAllLength(lines: seq<Line>)
    requires ExpandAll(lines).Ok?
    ensures |ExpandAll(lines).value| == Pos(lines, |lines|)
  {
    if lines != [] {
      var init := lines[..|lines| - 1];
      ExpandAllLength(init);
      PosPrefix(lines, init, |init|);
    }
  }

  lemma {:induction false} PosPrefix(lines: seq<Line>, prefix: seq<Line>, i: nat)
    requires i <= |prefix| <= |lines| && prefix == lines[..|prefix|]
    ensures Pos(lines, i) == Pos(prefix, i)
  {
    if i > 0 { PosPrefix(lines, prefix, i - 1); }
  }

  lemma PosMonotone(lines: seq<Line>, i: nat, j: nat)
    requires i <= j <= |lines|
    ensures Pos(lines, i) <= Pos(lines, j)
  {
    if i < j {
      PosMonotone(lines, i, j - 1);
    }
  }

  /** labels maps each defined name to the position of its last definition among the lines read so far. */
  ghost predicate LabelTable(labels: map<string, nat>, lines: seq<Line>) {
    forall name :: match LabelLine(lines, name)
                   case None => name !in labels
                   case Some(i) => i < |lines| && name in labels && labels[name] == Pos(lines, i)
  }

  lemma LabelTableStep(labels: map<string, nat>, labels': map<string, nat>, lines: seq<Line>, n: nat)
    requires n < |lines|
    requires LabelTable(labels, lines[..n])
    requires labels' == if lines[n].Label? then labels[lines[n].name := Pos(lines, n)] else labels
    ensures LabelTable(labels', lines[..n + 1])
  {
    var old_, new_ := lines[..n], lines[..n + 1];
    assert new_[..n] == old_ && new_[n] == lines[n];
    forall name
      ensures match LabelLine(new_, name)
              case None => name !in labels'
              case Some(i) => i < |new_| && name in labels' && labels'[name] == Pos(new_, i)
    {
      LabelLineIn(old_, name);
      PosPrefix(lines, new_, n);
      if lines[n] != Label(name) && LabelLine(old_, name).Some? {
        PosPrefix(new_, old_, LabelLine(old_, name).value);
      }
    }
  }

  /** Assemble one method body. */
  method Assemble(lines: seq<Line>) returns (r: Result<seq<Ins>, AsmError>)
    ensures r == Assembled(lines)
  {
    // pass 1: expand macros, record label positions
    var out: seq<Pending>, labels: map<string, nat> := [], map[];
    for n := 0 to |lines|
      invariant ExpandAll(lines[..n]) == Ok(out)
      invariant LabelTable(labels, lines[..n])
    {
      var line := lines[n];
      ghost var labels0 := labels;
      assert lines[..n + 1][..n] == lines[..n];
      ExpandAllLength(lines[..n]);
      PosPrefix(lines, lines[..n], n);
      if line.Label? {
        labels := labels[line.name := |out|];
        assert out + [] == out;
      } else {
        var code := Expand(line);
        if code.Err? {
          ExpandAllFails(lines, n);
          return Err(code.error);
        }
        out := out + code.value;
      }
      LabelTableStep(labels0, labels, lines, n);
    }
    assert lines[..|lines|] == lines;
    // pass 2: resolve labels in place
    var prog: seq<Ins> := [];
    for n := 0 to |out|
      invariant ResolveAll(lines, out[..n]) == Ok(prog)
    {
      assert out[..n + 1][..n] == out[..n];
      match out[n] {
        case Fixed(ins) => prog := prog + [ins];
        case Target(op, s, name) =>
          LabelLineIn(lines, name);
          if name !in labels {
            ResolveAllFails(lines, out, n);
            return Err(UnknownLabel(name));
          }
          prog := prog + [Ins(op, 0, s, labels[name])];
      }
    }
    assert out[..|out|] == out;
    return Ok(prog);
  }

  lemma ExpandAllFails(lines: seq<Line>, n: nat)
    requires n < |lines| && ExpandAll(lines[..n]).Ok? && Expand(lines[n]).Err?
    ensures ExpandAll(lines) == Err(Expand(lines[n]).error)
    decreases |lines|
  {
    if n + 1 < |lines| {
      var init := lines[..|lines| - 1];
      assert init[..n] == lines[..n];
      ExpandAllFails(init, n);
    }
  }

  lemma ResolveAllFails(lines: seq<Line>, code: seq<Pending>, n: nat)
    requires n < |code| && ResolveAll(lines, code[..n]).Ok? && Resolve(lines, code[n]).Err?
    ensures ResolveAll(lines, code) == Err(Resolve(lines, code[n]).error)
    decreases |code|
  {
    if n + 1 < |code| {
      var init := code[..|code| - 1];
      assert init[..n] == code[..n];
      ResolveAllFails(lines, init, n);
    }
  }
}
