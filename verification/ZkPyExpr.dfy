/**
 The expression half of the zkpy compiler (execnode/zkpy.py): lazy expression trees, the register free list, and
 the lowering of a tree to zkasm lines.
 */
module ZkPyExpr {
  import opened Options
  import opened Field
  import opened ZkVM
  import opened ZkAsm
  import opened AsmSimulation

  // ---- expression trees ----------------------------------------------------------------------------

  datatype BinOp = AddOp | SubOp | MulOp | DivOp | ModOp | EqOp | NeOp | LtOp | LeOp
  datatype ReadOp = ReadBhash | ReadBeacon | ReadAbal

  /** A node of the tree. Temp(t) reads what the method's t-th m.set kept. */
  datatype Val =
    | Temp(t: nat)
    | Const(n: int)
    | Arg(i: int)
    | Ctx(which: nat)
    | Actx(which: nat)
    | Sload(cell: Cell)
    | Read(rop: ReadOp, a: Val)
    | Hash(els: seq<Val>)
    | Lo32(a: Val)
    | Notb(a: Val)
    | Bin(op: BinOp, a: Val, b: Val)
    | Muldiv(a: Val, b: Val, c: Val)
    | Mux(cond: Val, a: Val, b: Val)

  /** A storage cell: field*2^32 + key, or an address computed directly. */
  datatype Cell = Flat(field: int, key: Val) | At(key: Val)

  // ---- the free list -------------------------------------------------------------------------------

  /** r0 holds argument 0 and r7 the division remainder; the rest are temporaries. */
  const TEMPS: set<Reg> := {1, 2, 3, 4, 5, 6}

  /** The lowest free register: the free list is kept sorted and popped from the front. */
  function Lowest(free: set<Reg>): (r: Reg)
    requires free != {} && free <= TEMPS
    ensures r in free && forall x :: x in free ==> r <= x
  {
    if 1 in free then 1 else if 2 in free then 2 else if 3 in free then 3
    else if 4 in free then 4 else if 5 in free then 5
    else
      assert free <= {6} && free == {6};
      6
  }

  function Take(free: set<Reg>): (r: Option<(Reg, set<Reg>)>)
    requires free <= TEMPS
    ensures r.Some? <==> free != {}
    ensures r.Some? ==> r.value.0 in free && r.value.1 == free - {r.value.0}
  {
    if free == {} then None else Some((Lowest(free), free - {Lowest(free)}))
  }

  // ---- lowering ------------------------------------------------------------------------------------

  /** Emitted lines, the register holding the value, whether it must be given back, and the free list left. */
  datatype Code = Code(lines: seq<Line>, reg: Reg, owned: bool, free: set<Reg>)
  {
    /** The free list once the value has been consumed. */
    function Given(): set<Reg> {
      if owned then free + {reg} else free
    }

    function Then(more: seq<Line>): Code {
      this.(lines := lines + more)
    }
  }

  /** Several values held at once. */
  datatype Codes = Codes(lines: seq<Line>, regs: seq<Reg>, held: set<Reg>, free: set<Reg>)

  /** Registers kept by m.set are temporaries outside the free list. */
  predicate Pinned(names: seq<Reg>, free: set<Reg>) {
    free <= TEMPS && forall t :: 0 <= t < |names| ==> names[t] in TEMPS && names[t] !in free
  }

  predicate Fits(code: Code, free: set<Reg>) {
    if code.owned then code.reg in free && code.free == free - {code.reg}
    else code.free == free && code.reg !in free && code.reg != 7
  }

  predicate AllFit(codes: Codes, free: set<Reg>) {
    codes.held <= free && codes.free == free - codes.held &&
    forall i :: 0 <= i < |codes.regs| ==> codes.regs[i] != 7 && codes.regs[i] !in codes.free
  }

  /** Leaves and arguments that live in a register nobody may overwrite. */
  predicate Owned(v: Val) {
    !v.Temp? && v != Arg(0)
  }

  /** One fresh register loaded by the given lines. */
  function Fresh(free: set<Reg>, load: Reg -> seq<Line>): Option<Code>
    requires free <= TEMPS
  {
    var rf :- Take(free);
    Some(Code(load(rf.0), rf.0, true, rf.1))
  }

  /** _own: copy a pinned register, because the next operation writes its destination. */
  function Own(c: Code): Option<Code>
    requires c.free <= TEMPS
  {
    if c.owned then Some(c)
    else
      var rf :- Take(c.free);
      Some(Code(c.lines + [Plain(MOV, rf.0, c.reg)], rf.0, true, rf.1))
  }

  /** The operation of a binary node, on registers already holding the first and second operand emitted. */
  function BinLines(op: BinOp, d: Reg, s: Reg): seq<Line> {
    match op
    case AddOp => [Plain(ADD, d, s)]
    case SubOp => [Plain(SUB, d, s)]
    case MulOp => [Plain(MUL, d, s)]
    case DivOp => [Plain(DIVMOD, d, s)]
    case ModOp => [Rem(false, d, s)]
    case EqOp => [Plain(EQ, d, s)]
    case NeOp => [Plain(EQ, d, s), Plain(NOTB, d, 0)]
    case LtOp => [Lt(d, s)]
    case LeOp => [Lt(d, s), Plain(NOTB, d, 0)]
  }

  function ReadCode(op: ReadOp): Op {
    match op
    case ReadBhash => BHASH
    case ReadBeacon => BEACON
    case ReadAbal => ABAL
  }

  /** Operands in the order they are emitted: a <= b is !(b < a), so b goes first. */
  function First(v: Val): Val
    requires v.Bin?
    ensures First(v) == v.a || First(v) == v.b
  {
    if v.op.LeOp? then v.b else v.a
  }

  function Second(v: Val): Val
    requires v.Bin?
    ensures Second(v) == v.a || Second(v) == v.b
  {
    if v.op.LeOp? then v.a else v.b
  }

  /** materialize: the lines for v under a free list, or None when registers run out. */
  function Mat(v: Val, names: seq<Reg>, free: set<Reg>): (r: Option<Code>)
    requires Pinned(names, free)
    ensures r.Some? ==> Fits(r.value, free) && r.value.owned == Owned(v)
    decreases v
  {
    match v
    case Temp(t) => if t < |names| then Some(Code([], names[t], false, free)) else None
    case Const(n) => Fresh(free, (r: Reg) => [Movi(r, n % TWO_64)])
    case Arg(i) =>
      if i == 0 then Some(Code([], 0, false, free)) else Fresh(free, (r: Reg) => [Movi(r, i), Plain(ARG, r, r)])
    case Ctx(w) => Fresh(free, (r: Reg) => [CtxOf(r, w)])
    case Actx(w) => Fresh(free, (r: Reg) => [ActxOf(r, w)])
    case Sload(cell) =>
      var at :- MatAddr(cell, names, free);
      var rf :- Take(at.free);
      Some(Code(at.lines + [Plain(SLOAD, rf.0, at.reg)], rf.0, true, rf.1 + {at.reg}))
    case Read(op, a) =>
      var x :- Mat(a, names, free);
      var rf :- Take(x.free);
      Some(Code(x.lines + [Plain(ReadCode(op), rf.0, x.reg)], rf.0, true, x.(free := rf.1).Given()))
    case Hash(els) =>
      var xs :- MatAll(els, names, free);
      var rf :- Take(xs.free);
      Some(Code(xs.lines + [Line.Hash(rf.0, xs.regs)], rf.0, true, rf.1 + xs.held))
    case Lo32(a) =>
      var x :- Mat(a, names, free);
      var d :- Own(x);
      Some(d.Then([Plain(LO32, d.reg, 0)]))
    case Notb(a) =>
      var x :- Mat(a, names, free);
      var d :- Own(x);
      Some(d.Then([Plain(NOTB, d.reg, 0)]))
    case Bin(op, _, _) =>
      var x :- Mat(First(v), names, free);
      var d :- Own(x);
      var y :- Mat(Second(v), names, d.free);
      Some(Code(d.lines + y.lines + BinLines(op, d.reg, y.reg), d.reg, true, y.Given()))
    case Muldiv(a, b, c) =>
      var x :- Mat(a, names, free);
      var d :- Own(x);
      var y :- Mat(b, names, d.free);
      var z :- Mat(c, names, y.Given());
      Some(Code(d.lines + y.lines + [Plain(MUL, d.reg, y.reg)] + z.lines + [Plain(DIVMODW, d.reg, z.reg)],
                d.reg, true, z.Given()))
    case Mux(cond, a, b) =>
      var x :- Mat(cond, names, free);
      var k :- Own(x);
      var t :- Mat(a, names, k.free);
      var f :- Mat(b, names, t.free);
      var rf :- Take(f.free);
      Some(Code(k.lines + [Plain(NEZ, k.reg, 0)] + t.lines + f.lines + MuxLines(rf.0, k.reg, t.reg, f.reg),
                rf.0, true,
                (rf.1 + {k.reg}) + (if t.owned then {t.reg} else {}) + (if f.owned then {f.reg} else {})))
  }

  /** d = f + k*(t - f). */
  function MuxLines(d: Reg, k: Reg, t: Reg, f: Reg): seq<Line> {
    [Plain(MOV, d, t), Plain(SUB, d, f), Plain(MUL, d, k), Plain(ADD, d, f)]
  }

  /** The address register of a cell; always owned. */
  function MatAddr(cell: Cell, names: seq<Reg>, free: set<Reg>): (r: Option<Code>)
    requires Pinned(names, free)
    ensures r.Some? ==> Fits(r.value, free) && r.value.owned
    decreases cell
  {
    var k :- Mat(cell.key, names, free);
    if cell.At? then Own(k)
    else
      var rf :- Take(k.free);
      Some(Code(k.lines + [Slot(rf.0, cell.field, k.reg)], rf.0, true, k.(free := rf.1).Given()))
  }

  /** Several values in order, all held at the end. */
  function MatAll(els: seq<Val>, names: seq<Reg>, free: set<Reg>): (r: Option<Codes>)
    requires Pinned(names, free)
    ensures r.Some? ==> AllFit(r.value, free) && |r.value.regs| == |els|
    decreases els
  {
    if els == [] then Some(Codes([], [], {}, free))
    else
      var n := |els| - 1;
      var xs :- MatAll(els[..n], names, free);
      var x :- Mat(els[n], names, xs.free);
      Some(Codes(xs.lines + x.lines, xs.regs + [x.reg], xs.held + (if x.owned then {x.reg} else {}), x.free))
  }

  // ---- register need -------------------------------------------------------------------------------

  function Held(v: Val): nat {
    if Owned(v) then 1 else 0
  }

  function Max(x: nat, y: nat): nat {
    if x >= y then x else y
  }

  /** Registers needed to have v in an owned register. */
  function OwnNeed(v: Val): nat
    decreases v, 1
  {
    Max(Need(v), 1)
  }

  /** How many free registers lowering v takes at its widest point. */
  function Need(v: Val): nat
    decreases v, 0
  {
    match v
    case Temp(_) => 0
    case Const(_) => 1
    case Arg(i) => if i == 0 then 0 else 1
    case Ctx(_) => 1
    case Actx(_) => 1
    case Sload(cell) => Max(AddrNeed(cell), 2)
    case Read(_, a) => Max(Need(a), Held(a) + 1)
    case Hash(els) => Max(AllNeed(els), AllHeld(els) + 1)
    case Lo32(a) => OwnNeed(a)
    case Notb(a) => OwnNeed(a)
    case Bin(op, a, b) =>
      if op.LeOp? then Max(OwnNeed(b), 1 + Need(a)) else Max(OwnNeed(a), 1 + Need(b))
    case Muldiv(a, b, c) => Max(OwnNeed(a), 1 + Max(Need(b), Need(c)))
    case Mux(cond, a, b) =>
      Max(OwnNeed(cond), 1 + Max(Need(a), Held(a) + Max(Need(b), Held(b) + 1)))
  }

  function AddrNeed(cell: Cell): nat
    decreases cell, 2
  {
    if cell.At? then OwnNeed(cell.key) else Max(Need(cell.key), Held(cell.key) + 1)
  }

  function AllHeld(els: seq<Val>): nat {
    if els == [] then 0 else AllHeld(els[..|els| - 1]) + Held(els[|els| - 1])
  }

  function AllNeed(els: seq<Val>): nat
    decreases els, 0
  {
    if els == [] then 0
    else Max(AllNeed(els[..|els| - 1]), AllHeld(els[..|els| - 1]) + Need(els[|els| - 1]))
  }

  /** The tree reads only the temporaries in ts. */
  predicate TempsIn(v: Val, ts: set<nat>)
    decreases v
  {
    match v
    case Temp(t) => t in ts
    case Const(_) => true
    case Arg(_) => true
    case Ctx(_) => true
    case Actx(_) => true
    case Sload(cell) => TempsIn(cell.key, ts)
    case Read(_, a) => TempsIn(a, ts)
    case Hash(els) => forall e :: e in els ==> TempsIn(e, ts)
    case Lo32(a) => TempsIn(a, ts)
    case Notb(a) => TempsIn(a, ts)
    case Bin(_, a, b) => TempsIn(a, ts) && TempsIn(b, ts)
    case Muldiv(a, b, c) => TempsIn(a, ts) && TempsIn(b, ts) && TempsIn(c, ts)
    case Mux(k, a, b) => TempsIn(k, ts) && TempsIn(a, ts) && TempsIn(b, ts)
  }

  /** The temporaries kept so far. */
  function Numbered(n: nat): (ts: set<nat>)
    ensures forall t :: t in ts <==> 0 <= t < n
  {
    if n == 0 then {} else Numbered(n - 1) + {n - 1}
  }

  lemma OwnSucceeds(c: Code, free: set<Reg>)
    requires free <= TEMPS && Fits(c, free)
    ensures Own(c).Some? <==> |free| >= 1
    ensures Own(c).Some? ==> Fits(Own(c).value, free) && Own(c).value.owned
    ensures Own(c).Some? ==> |Own(c).value.free| == |free| - 1
  {
  }

  /** Lowering succeeds exactly when the tree's register need fits the number of free registers. */
  lemma {:induction false} NeedExact(v: Val, names: seq<Reg>, free: set<Reg>)
    requires Pinned(names, free) && TempsIn(v, Numbered(|names|))
    ensures Mat(v, names, free).Some? <==> Need(v) <= |free|
    ensures Mat(v, names, free).Some? ==> |Mat(v, names, free).value.free| == |free| - Held(v)
    decreases v
  {
    match v
    case Temp(_) =>
    case Const(_) =>
    case Arg(_) =>
    case Ctx(_) =>
    case Actx(_) =>
    case Sload(cell) => AddrNeedExact(cell, names, free);
    case Read(_, a) => NeedExact(a, names, free);
    case Hash(els) => AllNeedExact(els, names, free);
    case Lo32(a) => NeedExact(a, names, free); OwnNeedExact(a, names, free);
    case Notb(a) => NeedExact(a, names, free); OwnNeedExact(a, names, free);
    case Bin(_, _, _) => BinNeedExact(v, names, free);
    case Muldiv(_, _, _) => MuldivNeedExact(v, names, free);
    case Mux(_, _, _) => MuxNeedExact(v, names, free);
  }

  lemma {:induction false} BinNeedExact(v: Val, names: seq<Reg>, free: set<Reg>)
    requires Pinned(names, free) && TempsIn(v, Numbered(|names|)) && v.Bin?
    ensures Mat(v, names, free).Some? <==> Need(v) <= |free|
    ensures Mat(v, names, free).Some? ==> |Mat(v, names, free).value.free| == |free| - Held(v)
    decreases v, 0
  {
    var a, b := First(v), Second(v);
    assert Need(v) == Max(OwnNeed(a), 1 + Need(b));
    NeedExact(a, names, free);
    OwnNeedExact(a, names, free);
    var d := OwnedCode(a, names, free);
    if d.Some? { NeedExact(b, names, d.value.free); }
  }

  lemma {:induction false} MuldivNeedExact(v: Val, names: seq<Reg>, free: set<Reg>)
    requires Pinned(names, free) && TempsIn(v, Numbered(|names|)) && v.Muldiv?
    ensures Mat(v, names, free).Some? <==> Need(v) <= |free|
    ensures Mat(v, names, free).Some? ==> |Mat(v, names, free).value.free| == |free| - Held(v)
    decreases v, 0
  {
    NeedExact(v.a, names, free);
    OwnNeedExact(v.a, names, free);
    var d := OwnedCode(v.a, names, free);
    if d.Some? {
      NeedExact(v.b, names, d.value.free);
      var y := Mat(v.b, names, d.value.free);
      if y.Some? {
        assert y.value.Given() == d.value.free;
        NeedExact(v.c, names, d.value.free);
      }
    }
  }

  lemma {:induction false} MuxNeedExact(v: Val, names: seq<Reg>, free: set<Reg>)
    requires Pinned(names, free) && TempsIn(v, Numbered(|names|)) && v.Mux?
    ensures Mat(v, names, free).Some? <==> Need(v) <= |free|
    ensures Mat(v, names, free).Some? ==> |Mat(v, names, free).value.free| == |free| - Held(v)
    decreases v, 0
  {
    NeedExact(v.cond, names, free);
    OwnNeedExact(v.cond, names, free);
    var k := OwnedCode(v.cond, names, free);
    if k.Some? {
      NeedExact(v.a, names, k.value.free);
      var t := Mat(v.a, names, k.value.free);
      if t.Some? {
        NeedExact(v.b, names, t.value.free);
        var f := Mat(v.b, names, t.value.free);
      }
    }
    if Mat(v, names, free).Some? {
      assert Mat(v, names, free).value.free == free - {Mat(v, names, free).value.reg};
    }
  }

  /** Materialize and own. */
  function OwnedCode(v: Val, names: seq<Reg>, free: set<Reg>): Option<Code>
    requires Pinned(names, free)
  {
    var x :- Mat(v, names, free);
    Own(x)
  }

  lemma OwnNeedExact(v: Val, names: seq<Reg>, free: set<Reg>)
    requires Pinned(names, free)
    requires Mat(v, names, free).Some? <==> Need(v) <= |free|
    ensures OwnedCode(v, names, free).Some? <==> OwnNeed(v) <= |free|
    ensures var d := OwnedCode(v, names, free);
            d.Some? ==> Fits(d.value, free) && d.value.owned && |d.value.free| == |free| - 1
  {
    var x := Mat(v, names, free);
    if x.Some? { OwnSucceeds(x.value, free); }
  }

  lemma {:induction false} AddrNeedExact(cell: Cell, names: seq<Reg>, free: set<Reg>)
    requires Pinned(names, free) && TempsIn(cell.key, Numbered(|names|))
    ensures MatAddr(cell, names, free).Some? <==> AddrNeed(cell) <= |free|
    ensures MatAddr(cell, names, free).Some? ==> |MatAddr(cell, names, free).value.free| == |free| - 1
    decreases cell
  {
    NeedExact(cell.key, names, free);
    OwnNeedExact(cell.key, names, free);
  }

  lemma {:induction false} AllNeedExact(els: seq<Val>, names: seq<Reg>, free: set<Reg>)
    requires Pinned(names, free) && forall e :: e in els ==> TempsIn(e, Numbered(|names|))
    ensures MatAll(els, names, free).Some? <==> AllNeed(els) <= |free|
    ensures MatAll(els, names, free).Some? ==> |MatAll(els, names, free).value.free| == |free| - AllHeld(els)
    decreases els
  {
    if els != [] {
      var n := |els| - 1;
      AllNeedExact(els[..n], names, free);
      var xs := MatAll(els[..n], names, free);
      if xs.Some? { NeedExact(els[n], names, xs.value.free); }
    }
  }
}
