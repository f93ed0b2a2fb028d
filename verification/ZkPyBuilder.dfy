/**
 The compiler as execnode/zkpy.py runs it: a register free list and a method under construction, both changed in
 place, proved against the lowering functions. None stands for a raised error; the method object is abandoned then.
 */
module ZkPyBuilder {
  import opened Options
  import opened Field
  import opened Numbers
  import opened ZkVM
  import opened ZkAsm
  import opened ZkPyExpr
  import opened ZkPyMethod

  function Elements(s: seq<Reg>): set<Reg> {
    set r | r in s
  }

  /** list.append followed by list.sort, on a list that was sorted. */
  function Insert(s: seq<Reg>, r: Reg): (t: seq<Reg>)
    requires Increasing(s) && r !in s
    ensures Increasing(t) && Elements(t) == Elements(s) + {r}
  {
    if s == [] || r < s[0] then [r] + s
    else
      var rest := Insert(s[1..], r);
      InsertedIncreasing(s, r, rest);
      [s[0]] + rest
  }

  lemma InsertedIncreasing(s: seq<Reg>, r: Reg, rest: seq<Reg>)
    requires Increasing(s) && s != [] && s[0] < r
    requires Increasing(rest) && Elements(rest) == Elements(s[1..]) + {r}
    ensures Increasing([s[0]] + rest) && Elements([s[0]] + rest) == Elements(s) + {r}
  {
    var t := [s[0]] + rest;
    forall k | 0 <= k < |rest| ensures s[0] < rest[k] {
      assert rest[k] in Elements(rest);
    }
    forall x ensures x in t <==> x in s || x == r {
      assert x in rest <==> x in Elements(rest);
      assert x in s[1..] <==> x in Elements(s[1..]);
      assert s == [s[0]] + s[1..];
    }
  }

  class Alloc {
    var free: seq<Reg>

    ghost predicate Valid()
      reads this
    {
      Increasing(free) && Elements(free) <= TEMPS
    }

    function Set(): set<Reg>
      reads this
    {
      Elements(free)
    }

    constructor ()
      ensures Valid() && Set() == TEMPS
    {
      free := [1, 2, 3, 4, 5, 6];
    }

    /** Pop the lowest free register. */
    method Take() returns (r: Option<Reg>)
      requires Valid()
      modifies this
      ensures Valid()
      ensures match ZkPyExpr.Take(old(Set()))
              case None => r.None? && free == old(free)
              case Some(rf) => r == Some(rf.0) && Set() == rf.1
    {
      if |free| == 0 {
        return None;
      }
      var x := free[0];
      assert x in Elements(free) && forall y :: y in Elements(free) ==> x <= y;
      assert Lowest(Elements(free)) == x;
      assert free == [x] + free[1..];
      free := free[1..];
      assert Set() == old(Set()) - {x};
      return Some(x);
    }

    /** Return a register; anything that is not an allocated temporary is ignored. */
    method Give(r: Reg)
      requires Valid()
      modifies this
      ensures Valid()
      ensures Set() == old(Set()) + (if r in TEMPS then {r} else {})
    {
      if r in TEMPS && r !in free {
        free := Insert(free, r);
      }
    }
  }

  /** A register holding a value, and whether it must be given back. */
  datatype Held = Held(reg: Reg, owned: bool)

  class MethodBuilder {
    const alloc: Alloc
    var lines: seq<Line>
    var named: set<Reg>
    /** The register behind each handle m.set has returned. */
    var temps: seq<Reg>

    ghost predicate Valid()
      reads this, alloc
    {
      alloc.Valid() && Pinned(temps, alloc.Set()) && named == Elements(temps)
    }

    /** Between statements: nothing but free and kept registers. */
    ghost predicate Ready()
      reads this, alloc
    {
      Valid() && Balanced(temps, alloc.Set())
    }

    constructor ()
      ensures Ready() && fresh(alloc) && lines == [] && temps == []
    {
      alloc := new Alloc();
      lines, named, temps := [], {}, [];
    }

    method Emit(line: Line)
      modifies this`lines
      ensures lines == old(lines) + [line]
    {
      lines := lines + [line];
    }

    /** The builder, with lines0 emitted before, is where lowering to code leaves it. */
    ghost predicate Lowered(r: Option<Held>, code: Option<Code>, lines0: seq<Line>)
      reads this, alloc
    {
      && alloc.Valid()
      && (code.None? ==> r.None?)
      && (code.Some? ==> && r == Some(Held(code.value.reg, code.value.owned))
                         && lines == lines0 + code.value.lines
                         && alloc.Set() == code.value.free)
    }

    /** Allocate a register. */
    method Fresh() returns (r: Option<Reg>)
      requires alloc.Valid()
      modifies alloc
      ensures alloc.Valid()
      ensures match ZkPyExpr.Take(old(alloc.Set()))
              case None => r.None?
              case Some(rf) => r == Some(rf.0) && alloc.Set() == rf.1
    {
      r := alloc.Take();
    }

    /** Give back a value's register if it was owned. */
    method Release(h: Held)
      requires alloc.Valid() && (h.owned ==> h.reg in TEMPS)
      modifies alloc
      ensures alloc.Valid()
      ensures alloc.Set() == old(alloc.Set()) + (if h.owned then {h.reg} else {})
    {
      if h.owned {
        alloc.Give(h.reg);
      }
    }

    /** Copy a pinned register into an owned one; c is the code that produced h, emitted after lines0. */
    method OwnIt(h: Held, ghost c: Code, ghost lines0: seq<Line>) returns (r: Option<Reg>)
      requires alloc.Valid() && h == Held(c.reg, c.owned) && c.free == alloc.Set() && lines == lines0 + c.lines
      modifies this`lines, alloc
      ensures alloc.Valid()
      ensures match ZkPyExpr.Own(c)
              case None => r.None?
              case Some(d) => r == Some(d.reg) && lines == lines0 + d.lines && alloc.Set() == d.free
    {
      if h.owned {
        return Some(h.reg);
      }
      var d := Fresh();
      if d.Some? {
        Emit(Plain(MOV, d.value, h.reg));
        Assoc(lines0, c.lines, [Plain(MOV, d.value, h.reg)]);
      }
      return d;
    }

    /** Lower one tree. */
    method Materialize(v: Val) returns (r: Option<Held>)
      requires Valid()
      modifies this`lines, alloc
      ensures Lowered(r, Mat(v, temps, old(alloc.Set())), old(lines))
      decreases v, 1
    {
      match v
      case Temp(t) =>
        assert lines + [] == lines;
        r := if t < |temps| then Some(Held(temps[t], false)) else None;
      case Arg(i) =>
        if i == 0 {
          assert lines + [] == lines;
          r := Some(Held(0, false));
        } else {
          r := Leaf(v);
        }
      case Const(_) => r := Leaf(v);
      case Ctx(_) => r := Leaf(v);
      case Actx(_) => r := Leaf(v);
      case Sload(cell) => r := MaterializeLoad(v);
      case Read(_, _) => r := MaterializeRead(v);
      case Hash(_) => r := MaterializeHash(v);
      case Lo32(a) => r := MaterializeUnary(v, a, LO32);
      case Notb(a) => r := MaterializeUnary(v, a, NOTB);
      case Bin(_, _, _) => r := MaterializeBin(v);
      case Muldiv(_, _, _) => r := MaterializeMuldiv(v);
      case Mux(_, _, _) => r := MaterializeMux(v);
    }

    method Leaf(v: Val) returns (r: Option<Held>)
      requires Valid() && (v.Const? || (v.Arg? && v.i != 0) || v.Ctx? || v.Actx?)
      modifies this`lines, alloc
      ensures Lowered(r, Mat(v, temps, old(alloc.Set())), old(lines))
    {
      var d := Fresh();
      if d.None? {
        return None;
      }
      match v {
        case Const(n) => Emit(Movi(d.value, n % TWO_64));
        case Arg(i) =>
          Emit(Movi(d.value, i));
          Emit(Plain(ARG, d.value, d.value));
        case Ctx(w) => Emit(CtxOf(d.value, w));
        case Actx(w) => Emit(ActxOf(d.value, w));
      }
      return Some(Held(d.value, true));
    }

    /** The address of a cell, in a register of its own. */
    method Addr(cell: Cell) returns (r: Option<Reg>)
      requires Valid()
      modifies this`lines, alloc
      ensures Lowered(if r.Some? then Some(Held(r.value, true)) else None, MatAddr(cell, temps, old(alloc.Set())),
                      old(lines))
      decreases cell, 0
    {
      ghost var lines0, free0 := lines, alloc.Set();
      var k := Materialize(cell.key);
      if k.None? {
        return None;
      }
      if cell.At? {
        var d := OwnIt(k.value, Mat(cell.key, temps, free0).value, lines0);
        return d;
      }
      var d := Fresh();
      if d.None? {
        return None;
      }
      Emit(Slot(d.value, cell.field, k.value.reg));
      Release(k.value);
      return d;
    }

    method MaterializeLoad(v: Val) returns (r: Option<Held>)
      requires Valid() && v.Sload?
      modifies this`lines, alloc
      ensures Lowered(r, Mat(v, temps, old(alloc.Set())), old(lines))
      decreases v, 0
    {
      var at := Addr(v.cell);
      if at.None? {
        return None;
      }
      var d := Fresh();
      if d.None? {
        return None;
      }
      Emit(Plain(SLOAD, d.value, at.value));
      Release(Held(at.value, true));
      return Some(Held(d.value, true));
    }

    method MaterializeRead(v: Val) returns (r: Option<Held>)
      requires Valid() && v.Read?
      modifies this`lines, alloc
      ensures Lowered(r, Mat(v, temps, old(alloc.Set())), old(lines))
      decreases v, 0
    {
      var x := Materialize(v.a);
      if x.None? {
        return None;
      }
      var d := Fresh();
      if d.None? {
        return None;
      }
      Emit(Plain(ReadCode(v.rop), d.value, x.value.reg));
      Release(x.value);
      return Some(Held(d.value, true));
    }

    /** Lower several trees in order, holding every result. */
    method MaterializeAll(els: seq<Val>) returns (r: Option<seq<Held>>)
      requires Valid()
      modifies this`lines, alloc
      ensures alloc.Valid()
      ensures match MatAll(els, temps, old(alloc.Set()))
              case None => r.None?
              case Some(codes) =>
                && r.Some? && HoldsAll(r.value, codes)
                && lines == old(lines) + codes.lines && alloc.Set() == codes.free
      decreases els, 0
    {
      hide Mat, MatAll;
      AllNone(temps, alloc.Set());
      var hs: seq<Held> := [];
      ghost var free0 := alloc.Set();
      assert lines + [] == lines;
      for n := 0 to |els|
        invariant alloc.Valid()
        invariant match MatAll(els[..n], temps, free0)
                  case None => false
                  case Some(codes) =>
                    HoldsAll(hs, codes) && lines == old(lines) + codes.lines && alloc.Set() == codes.free
      {
        ghost var codes := MatAll(els[..n], temps, free0).value;
        AllUnfolds(els, n, temps, free0);
        var x := Materialize(els[n]);
        if x.None? {
          AllStops(els, temps, free0, n);
          return None;
        }
        assert (hs + [x.value])[..|hs|] == hs;
        hs := hs + [x.value];
        ghost var more := Mat(els[n], temps, codes.free).value.lines;
        Assoc(old(lines), codes.lines, more);
      }
      assert els[..|els|] == els;
      return Some(hs);
    }

    method ReleaseAll(hs: seq<Held>)
      requires alloc.Valid() && OwnedRegs(hs) <= TEMPS
      modifies alloc
      ensures alloc.Valid() && alloc.Set() == old(alloc.Set()) + OwnedRegs(hs)
    {
      assert hs[..|hs|] == hs;
      for i := 0 to |hs|
        invariant alloc.Valid() && alloc.Set() == old(alloc.Set()) + OwnedRegs(hs[..i])
      {
        assert hs[..i + 1][..i] == hs[..i];
        OwnedPrefix(hs, i + 1);
        Release(hs[i]);
      }
    }

    method MaterializeHash(v: Val) returns (r: Option<Held>)
      requires Valid() && v.Hash?
      modifies this`lines, alloc
      ensures Lowered(r, Mat(v, temps, old(alloc.Set())), old(lines))
      decreases v, 0
    {
      var hs := MaterializeAll(v.els);
      if hs.None? {
        return None;
      }
      var d := Fresh();
      if d.None? {
        return None;
      }
      Emit(Line.Hash(d.value, RegsOf(hs.value)));
      ReleaseAll(hs.value);
      return Some(Held(d.value, true));
    }

    method MaterializeBin(v: Val) returns (r: Option<Held>)
      requires Valid() && v.Bin?
      modifies this`lines, alloc
      ensures Lowered(r, Mat(v, temps, old(alloc.Set())), old(lines))
      decreases v, 0
    {
      hide Mat;
      ghost var l, f := lines, alloc.Set();
      BinUnfolds(v, temps, f);
      var x := Materialize(First(v));
      if x.None? {
        return None;
      }
      ghost var xc := Mat(First(v), temps, f).value;
      var d := OwnIt(x.value, xc, l);
      if d.None? {
        return None;
      }
      ghost var dc := Own(xc).value;
      var y := Materialize(Second(v));
      if y.None? {
        return None;
      }
      ghost var yc := Mat(Second(v), temps, dc.free).value;
      Assoc(l, dc.lines, yc.lines);
      var op := BinLines(v.op, d.value, y.value.reg);
      Emit(op[0]);
      if |op| > 1 {
        Emit(op[1]);
      }
      assert lines == l + (dc.lines + yc.lines + op);
      Release(y.value);
      return Some(Held(d.value, true));
    }

    method MaterializeMuldiv(v: Val) returns (r: Option<Held>)
      requires Valid() && v.Muldiv?
      modifies this`lines, alloc
      ensures Lowered(r, Mat(v, temps, old(alloc.Set())), old(lines))
      decreases v, 0
    {
      hide Mat;
      ghost var l, f := lines, alloc.Set();
      MuldivUnfolds(v, temps, f);
      var x := Materialize(v.a);
      if x.None? {
        return None;
      }
      ghost var xc := Mat(v.a, temps, f).value;
      var d := OwnIt(x.value, xc, l);
      if d.None? {
        return None;
      }
      ghost var dc := Own(xc).value;
      var y := Materialize(v.b);
      if y.None? {
        return None;
      }
      ghost var yc := Mat(v.b, temps, dc.free).value;
      Assoc(l, dc.lines, yc.lines);
      Emit(Plain(MUL, d.value, y.value.reg));
      ghost var upto := dc.lines + yc.lines + [Plain(MUL, d.value, y.value.reg)];
      Assoc(l, dc.lines + yc.lines, [Plain(MUL, d.value, y.value.reg)]);
      Release(y.value);
      assert alloc.Set() == yc.Given();
      r := Divide(v, d.value, upto, l);
    }

    /** The divisor of a muldiv, after the lines in upto, and the division itself. */
    method Divide(v: Val, d: Reg, ghost upto: seq<Line>, ghost l: seq<Line>) returns (r: Option<Held>)
      requires Valid() && v.Muldiv? && lines == l + upto
      modifies this`lines, alloc
      ensures alloc.Valid()
      ensures match Mat(v.c, temps, old(alloc.Set()))
              case None => r.None?
              case Some(zc) =>
                && r == Some(Held(d, true)) && alloc.Set() == zc.Given()
                && lines == l + (upto + zc.lines + [Plain(DIVMODW, d, zc.reg)])
      decreases v, 0, 0
    {
      hide Mat;
      ghost var f := alloc.Set();
      var z := Materialize(v.c);
      if z.None? {
        return None;
      }
      ghost var zc := Mat(v.c, temps, f).value;
      Emit(Plain(DIVMODW, d, z.value.reg));
      assert lines == l + (upto + zc.lines + [Plain(DIVMODW, d, z.value.reg)]);
      Release(z.value);
      return Some(Held(d, true));
    }

    method MaterializeMux(v: Val) returns (r: Option<Held>)
      requires Valid() && v.Mux?
      modifies this`lines, alloc
      ensures Lowered(r, Mat(v, temps, old(alloc.Set())), old(lines))
      decreases v, 0
    {
      hide Mat;
      ghost var l, f0 := lines, alloc.Set();
      MuxUnfolds(v, temps, f0);
      var x := Materialize(v.cond);
      if x.None? {
        return None;
      }
      ghost var xc := Mat(v.cond, temps, f0).value;
      var k := OwnIt(x.value, xc, l);
      if k.None? {
        return None;
      }
      ghost var kc := Own(xc).value;
      Emit(Plain(NEZ, k.value, 0));
      ghost var upto := kc.lines + [Plain(NEZ, k.value, 0)];
      Assoc(l, kc.lines, [Plain(NEZ, k.value, 0)]);
      var t, f := MuxBranches(v, Code(upto, k.value, true, kc.free), l);
      if t.None? || f.None? {
        return None;
      }
      ghost var tc := Mat(v.a, temps, kc.free).value;
      ghost var fc := Mat(v.b, temps, tc.free).value;
      var d := Fresh();
      if d.None? {
        return None;
      }
      EmitMux(d.value, k.value, t.value.reg, f.value.reg);
      Assoc(l, upto + tc.lines + fc.lines, MuxLines(d.value, k.value, t.value.reg, f.value.reg));
      Release(Held(k.value, true));
      Release(t.value);
      Release(f.value);
      return Some(Held(d.value, true));
    }

    /** Both branches of a mux, after the code in k. */
    method MuxBranches(v: Val, ghost k: Code, ghost l: seq<Line>) returns (t: Option<Held>, f: Option<Held>)
      requires Valid() && v.Mux? && alloc.Set() == k.free && lines == l + k.lines
      modifies this`lines, alloc
      ensures alloc.Valid()
      ensures match Mat(v.a, temps, k.free)
              case None => t.None?
              case Some(tc) =>
                && t == Some(Held(tc.reg, tc.owned))
                && match Mat(v.b, temps, tc.free)
                   case None => f.None?
                   case Some(fc) =>
                     && f == Some(Held(fc.reg, fc.owned)) && alloc.Set() == fc.free
                     && lines == l + (k.lines + tc.lines + fc.lines)
      decreases v, 0, 0
    {
      hide Mat;
      f := None;
      t := Materialize(v.a);
      if t.Some? {
        ghost var tc := Mat(v.a, temps, k.free).value;
        f := Materialize(v.b);
        if f.Some? {
          ghost var fc := Mat(v.b, temps, tc.free).value;
          assert lines == l + (k.lines + tc.lines + fc.lines);
        }
      }
    }

    /** d = f + k*(t - f). */
    method EmitMux(d: Reg, k: Reg, t: Reg, f: Reg)
      modifies this`lines
      ensures lines == old(lines) + MuxLines(d, k, t, f)
    {
      Emit(Plain(MOV, d, t));
      Emit(Plain(SUB, d, f));
      Emit(Plain(MUL, d, k));
      Emit(Plain(ADD, d, f));
    }

    method MaterializeUnary(v: Val, a: Val, op: Op) returns (r: Option<Held>)
      requires Valid() && ((v == Lo32(a) && op == LO32) || (v == Notb(a) && op == NOTB))
      modifies this`lines, alloc
      ensures Lowered(r, Mat(v, temps, old(alloc.Set())), old(lines))
      decreases v, 0
    {
      ghost var lines0, free0 := lines, alloc.Set();
      var x := Materialize(a);
      if x.None? {
        return None;
      }
      var d := OwnIt(x.value, Mat(a, temps, free0).value, lines0);
      if d.None? {
        return None;
      }
      Emit(Plain(op, d.value, 0));
      return Some(Held(d.value, true));
    }

    // ---- statements --------------------------------------------------------------------------------

    /** The builder, with lines0 emitted before, is where lowering the statement leaves it. */
    ghost predicate Stated(ok: bool, built: Option<Built>, lines0: seq<Line>)
      reads this, alloc
    {
      && (ok <==> built.Some?)
      && (ok ==> Ready() && temps == built.value.names && alloc.Set() == built.value.free
                 && lines == lines0 + built.value.lines)
    }

    /** m.set: keep the value in a register for the rest of the method; the handle is its index in temps. */
    method Keep(v: Val) returns (handle: Option<nat>)
      requires Ready()
      modifies this, alloc
      ensures Stated(handle.Some?, LowerStmt(Stmt.Keep(v), old(temps), old(alloc.Set())), old(lines))
      ensures handle.Some? ==> handle.value == |old(temps)| && temps[handle.value] in old(alloc.Set())
    {
      hide Mat;
      ghost var l, f := lines, alloc.Set();
      var x := Materialize(v);
      if x.None? {
        return None;
      }
      var d := OwnIt(x.value, Mat(v, temps, f).value, l);
      if d.None? {
        return None;
      }
      StmtBalanced(Stmt.Keep(v), temps, f);
      ElementsPush(temps, d.value);
      named := named + {d.value};
      handle := Some(|temps|);
      temps := temps + [d.value];
    }

    /** cell.set: the value first, so that it survives addressing. */
    method SetCell(cell: Cell, v: Val) returns (ok: bool)
      requires Ready()
      modifies this`lines, alloc
      ensures Stated(ok, LowerStmt(StoreTo(cell, v), old(temps), old(alloc.Set())), old(lines))
    {
      hide Mat, MatAddr;
      ghost var l, f := lines, alloc.Set();
      var x := Materialize(v);
      if x.None? {
        return false;
      }
      ghost var xc := Mat(v, temps, f).value;
      var at := Addr(cell);
      if at.None? {
        return false;
      }
      ghost var ac := MatAddr(cell, temps, xc.free).value;
      StmtBalanced(StoreTo(cell, v), temps, f);
      Emit(Plain(SSTORE, at.value, x.value.reg));
      assert lines == l + (xc.lines + ac.lines + [Plain(SSTORE, at.value, x.value.reg)]);
      Release(Held(at.value, true));
      Release(x.value);
      return true;
    }

    /** _balanced: no temporary is live except the kept ones. */
    method CheckBalanced() returns (ok: bool)
      requires Valid()
      ensures ok <==> Balanced(temps, alloc.Set())
    {
      ok := true;
      var left := [1, 2, 3, 4, 5, 6];
      for i := 0 to |left|
        invariant ok <==> forall k :: 0 <= k < i ==> left[k] in alloc.free || left[k] in named
      {
        if left[i] !in alloc.free && left[i] !in named {
          ok := false;
        }
      }
      assert forall r: Reg :: r in TEMPS <==> r in left;
      assert forall r: Reg :: r in temps <==> r in named;
    }

    /**
     Every statement that takes operands and emits one line over them: require, pay, apay, amint, aburn, arenounce,
     ret, label, jmp and jnz. At labels and jumps the balance check runs; it never fails.
     */
    method State(s: Stmt) returns (ok: bool)
      requires Ready() && Simple(s)
      modifies this`lines, alloc
      ensures Stated(ok, LowerStmt(s, old(temps), old(alloc.Set())), old(lines))
    {
      ghost var free0 := alloc.Set();
      if s.LabelAt? || s.Goto? {
        var balanced := CheckBalanced();
        assert balanced;
      }
      var hs := MaterializeAll(Operands(s));
      if hs.None? {
        return false;
      }
      StmtBalanced(s, temps, free0);
      Emit(FinalLine(s, RegsOf(hs.value)));
      ReleaseAll(hs.value);
      if s.GotoIf? {
        var balanced := CheckBalanced();
        assert balanced;
      }
      return true;
    }
  }

  lemma Assoc(a: seq<Line>, b: seq<Line>, c: seq<Line>)
    ensures a + b + c == a + (b + c)
  {
  }

  lemma ElementsPush(s: seq<Reg>, r: Reg)
    ensures Elements(s + [r]) == Elements(s) + {r}
  {
  }

  // ---- one level of lowering -----------------------------------------------------------------------

  lemma BinUnfolds(v: Val, names: seq<Reg>, free: set<Reg>)
    requires Pinned(names, free) && v.Bin?
    ensures Mat(v, names, free) ==
            match Mat(First(v), names, free)
            case None => None
            case Some(x) =>
              match Own(x)
              case None => None
              case Some(d) =>
                match Mat(Second(v), names, d.free)
                case None => None
                case Some(y) => Some(Code(d.lines + y.lines + BinLines(v.op, d.reg, y.reg), d.reg, true, y.Given()))
  {
  }

  lemma MuldivUnfolds(v: Val, names: seq<Reg>, free: set<Reg>)
    requires Pinned(names, free) && v.Muldiv?
    ensures Mat(v, names, free) ==
            match Mat(v.a, names, free)
            case None => None
            case Some(x) =>
              match Own(x)
              case None => None
              case Some(d) =>
                match Mat(v.b, names, d.free)
                case None => None
                case Some(y) =>
                  match Mat(v.c, names, y.Given())
                  case None => None
                  case Some(z) =>
                    Some(Code(d.lines + y.lines + [Plain(MUL, d.reg, y.reg)] + z.lines
                              + [Plain(DIVMODW, d.reg, z.reg)], d.reg, true, z.Given()))
  {
  }

  lemma AllNone(names: seq<Reg>, free: set<Reg>)
    requires Pinned(names, free)
    ensures MatAll([], names, free) == Some(Codes([], [], {}, free))
  {
  }

  lemma AllUnfolds(els: seq<Val>, n: nat, names: seq<Reg>, free: set<Reg>)
    requires Pinned(names, free) && n < |els|
    ensures MatAll(els[..n + 1], names, free) ==
            match MatAll(els[..n], names, free)
            case None => None
            case Some(xs) =>
              match Mat(els[n], names, xs.free)
              case None => None
              case Some(x) =>
                Some(Codes(xs.lines + x.lines, xs.regs + [x.reg], xs.held + (if x.owned then {x.reg} else {}), x.free))
  {
    assert els[..n + 1][..n] == els[..n];
  }

  lemma MuxUnfolds(v: Val, names: seq<Reg>, free: set<Reg>)
    requires Pinned(names, free) && v.Mux?
    ensures Mat(v, names, free) ==
            match Mat(v.cond, names, free)
            case None => None
            case Some(x) =>
              match Own(x)
              case None => None
              case Some(k) =>
                match Mat(v.a, names, k.free)
                case None => None
                case Some(t) =>
                  match Mat(v.b, names, t.free)
                  case None => None
                  case Some(f) =>
                    match ZkPyExpr.Take(f.free)
                    case None => None
                    case Some(rf) =>
                      Some(Code(k.lines + [Plain(NEZ, k.reg, 0)] + t.lines + f.lines
                                + MuxLines(rf.0, k.reg, t.reg, f.reg), rf.0, true,
                                (rf.1 + {k.reg}) + (if t.owned then {t.reg} else {})
                                + (if f.owned then {f.reg} else {})))
  {
  }

  // ---- values held together ------------------------------------------------------------------------

  function RegsOf(hs: seq<Held>): (rs: seq<Reg>)
    ensures |rs| == |hs| && forall i :: 0 <= i < |hs| ==> rs[i] == hs[i].reg
  {
    seq(|hs|, i requires 0 <= i < |hs| => hs[i].reg)
  }

  function OwnedRegs(hs: seq<Held>): set<Reg> {
    if hs == [] then {}
    else OwnedRegs(hs[..|hs| - 1]) + (if hs[|hs| - 1].owned then {hs[|hs| - 1].reg} else {})
  }

  lemma OwnedPrefix(hs: seq<Held>, i: nat)
    requires i <= |hs|
    ensures OwnedRegs(hs[..i]) <= OwnedRegs(hs)
    ensures 0 < i ==> (hs[i - 1].owned ==> hs[i - 1].reg in OwnedRegs(hs))
  {
    if i < |hs| {
      assert hs[..|hs| - 1][..i] == hs[..i];
      OwnedPrefix(hs[..|hs| - 1], i);
    } else {
      assert hs[..i] == hs;
    }
  }

  ghost predicate HoldsAll(hs: seq<Held>, codes: Codes) {
    RegsOf(hs) == codes.regs && OwnedRegs(hs) == codes.held
  }

  lemma {:induction false} AllStops(els: seq<Val>, names: seq<Reg>, free: set<Reg>, n: nat)
    requires Pinned(names, free) && n < |els| && MatAll(els[..n + 1], names, free).None?
    ensures MatAll(els, names, free).None?
    decreases |els|
  {
    if n + 1 == |els| {
      assert els[..n + 1] == els;
    } else {
      assert els[..|els| - 1][..n + 1] == els[..n + 1];
      AllStops(els[..|els| - 1], names, free, n);
    }
  }
}
