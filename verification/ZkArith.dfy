/**
 The machine's arithmetic measured against plain integers: field operations, the windowed divisions and one round of the
 hash, which the machine computes reducing at every step.
 */
module ZkArith {
  import opened Numbers
  import opened Options
  import opened Field
  import opened ZkVM
  import G = ZkGuards

  // ---- the field -----------------------------------------------------------------------------------

  /** Equal up to multiples of the field's order. */
  ghost predicate Cong(x: int, y: int) {
    x % P == y % P
  }

  lemma Apart(x: int, y: int) returns (k: int)
    requires Cong(x, y)
    ensures x == y + k * P
  {
    k := x / P - y / P;
  }

  lemma Together(x: int, y: int, k: int)
    requires x == y + k * P
    ensures Cong(x, y)
  {
  }

  lemma Expand(x: int, k: int, p: int, y: int)
    ensures (x + k * p) * y == x * y + (k * y) * p && x * y == y * x
  {
  }

  lemma CongFactor(a: int, x: int, b: int)
    requires Cong(a, x)
    ensures Cong(a * b, x * b) && Cong(b * a, b * x)
  {
    hide Cong;
    var k := Apart(a, x);
    Expand(x, k, P, b);
    Expand(a, 0, P, b);
    Together(a * b, x * b, k * b);
  }

  lemma CongTimes(a: int, x: int, b: int, y: int)
    requires Cong(a, x) && Cong(b, y)
    ensures Cong(a * b, x * y)
  {
    CongFactor(a, x, b);
    CongFactor(b, y, x);
  }

  lemma CongPlus(a: int, x: int, b: int, y: int)
    requires Cong(a, x) && Cong(b, y)
    ensures Cong(a + b, x + y)
  {
    hide Cong;
    var j := Apart(a, x);
    var k := Apart(b, y);
    Together(a + b, x + y, j + k);
  }

  lemma Same(x: int)
    ensures Cong(x % P, x) && Cong(x, x % P)
  {
  }

  lemma Settled(x: Elem, y: Elem)
    requires Cong(x, y)
    ensures x == y
  {
  }

  lemma CongMul(a: Elem, x: int, b: Elem, y: int)
    requires Cong(a, x) && Cong(b, y)
    ensures Cong(Mul(a, b), x * y)
  {
    CongTimes(a, x, b, y);
    Same(a * b);
  }

  lemma CongAdd(a: Elem, x: int, b: Elem, y: int)
    requires Cong(a, x) && Cong(b, y)
    ensures Cong(Add(a, b), x + y)
  {
    CongPlus(a, x, b, y);
    Same(a + b);
  }

  lemma AddWraps(a: Elem, b: Elem)
    ensures Add(a, b) == if a + b < P then a + b else a + b - P
    ensures Sub(a, b) == if a >= b then a - b else a + P - b
  {
  }

  lemma Spread(a: int, b: int, c: int)
    ensures a * (b + c) == a * b + a * c && a * b == b * a
  {
  }

  /** Addition wraps once, subtraction undoes it, and multiplication is the one that distributes over it with unit 1. */
  lemma FieldLaws(a: Elem, b: Elem, c: Elem)
    ensures Add(a, b) == if a + b < P then a + b else a + b - P
    ensures Sub(a, b) == if a >= b then a - b else a + P - b
    ensures Sub(Add(a, b), b) == a && Add(Sub(a, b), b) == a
    ensures Mul(a, 1) == a && Mul(a, b) == Mul(b, a)
    ensures Mul(a, Add(b, c)) == Add(Mul(a, b), Mul(a, c))
  {
    AddWraps(a, b);
    AddWraps(Add(a, b), b);
    AddWraps(Sub(a, b), b);
    Spread(a, b, c);
    Units(a, b);
    hide Add, Sub, Mul;
    Distributes(a, b, c);
  }

  lemma Units(a: Elem, b: Elem)
    ensures Mul(a, 1) == a && Mul(a, b) == Mul(b, a)
  {
    Spread(a, b, 0);
  }

  lemma Distributes(a: Elem, b: Elem, c: Elem)
    ensures Mul(a, Add(b, c)) == Add(Mul(a, b), Mul(a, c))
  {
    assert Cong(a, a) && Cong(b, b) && Cong(c, c);
    hide Cong, Mul, Add;
    CongAdd(b, b, c, c);
    CongMul(a, a, Add(b, c), b + c);
    CongMul(a, a, b, b);
    CongMul(a, a, c, c);
    CongAdd(Mul(a, b), a * b, Mul(a, c), a * c);
    Spread(a, b, c);
    Meet(Mul(a, Add(b, c)), Add(Mul(a, b), Mul(a, c)), a * (b + c));
  }

  lemma Meet(x: Elem, y: Elem, z: int)
    requires Cong(x, z) && Cong(y, z)
    ensures x == y
  {
  }

  // ---- division ------------------------------------------------------------------------------------

  /** A windowed division is defined exactly inside its window, where it is the one with a remainder below the
    * divisor. */
  lemma DivRemExactly(wide: bool, x: Elem, y: Elem, q: Elem, r: Elem)
    ensures var divisors, quotients := Pow2(if wide then 31 else 15), Pow2(if wide then 32 else 48);
            DivRem(wide, x, y) == Some((q, r)) <==>
              1 <= y <= divisors && q < quotients && q * y + r == x && r < y
  {
    hide Pow2;
    Windows();
    if 1 <= y {
      if q * y + r == x && r < y { QuotientIs(x, y, q, r); }
      Divided(x, y);
    }
  }

  lemma Divided(x: nat, y: nat)
    requires y >= 1
    ensures x / y * y + x % y == x && x % y < y
  {
  }

  /** And so it reverts on a zero or too large divisor and on a quotient past the window only. */
  lemma DivRemDefined(wide: bool, x: Elem, y: Elem)
    ensures var divisors, quotients := Pow2(if wide then 31 else 15), Pow2(if wide then 32 else 48);
            DivRem(wide, x, y).Some? <==> 1 <= y <= divisors && x < quotients * y
  {
    Windows();
    if 1 <= y { QuotientBelow(x, y, if wide then Pow2(32) else Pow2(48)); }
  }

  lemma Windows()
    ensures Pow2(15) == 0x8000 && Pow2(31) == 0x8000_0000
    ensures Pow2(32) == TWO_32 && Pow2(48) == 0x1_0000_0000_0000
  {
    assert Pow2(8) == 0x100;
    PowerAdds(8, 8);
    PowerAdds(7, 8);
    PowerAdds(16, 15);
    PowerAdds(16, 16);
    PowerAdds(32, 16);
  }

  lemma QuotientBelow(x: nat, y: nat, n: nat)
    requires y >= 1
    ensures x / y < n <==> x < n * y
  {
    var q, r := x / y, x % y;
    assert x == q * y + r;
    if q < n { TimesMonotone(q + 1, n, y); } else { TimesMonotone(n, q, y); }
  }

  lemma TimesMonotone(a: nat, b: nat, y: nat)
    requires a <= b
    ensures a * y <= b * y && (a + 1) * y == a * y + y
  {
  }

  /** What the deploy gate checks of each instruction buys in any state: an immediate is loaded as it is, a context read
    * never reverts, a division keeps both of its results, and a jump taken lands in the program. */
  lemma FitBuys(ctx: Ctx, prog: seq<Ins>, pc: nat, c: Core)
    requires G.ValidMethod(prog) && pc < |prog|
    ensures var ins, to := prog[pc], StepAt(ctx, prog, pc, c);
            && (ins.op.MOVI? ==> to.Go? && to.core.regs[ins.d] == ins.imm)
            && (ins.op.CTX? || ins.op.ACTX? || ins.op.JMP? || ins.op.JNZ? ==> to.Go?)
            && (ins.op.JMP? || (ins.op.JNZ? && c.regs[ins.s] != 0) ==> to.pc == ins.imm < |prog|)
            && ((ins.op.DIVMOD? || ins.op.DIVMODW?) && to.Go? ==>
                  var q, r := to.core.regs[ins.d], to.core.regs[7];
                  q * c.regs[ins.s] + r == c.regs[ins.d] && r < c.regs[ins.s])
  {
    var ins := prog[pc];
    assert G.Fit(prog, ins);
    if ins.op.DIVMOD? || ins.op.DIVMODW? {
      var wide, x, y := ins.op.DIVMODW?, c.regs[ins.d], c.regs[ins.s];
      if DivRem(wide, x, y).Some? {
        var qr := DivRem(wide, x, y).value;
        DivRemExactly(wide, x, y, qr.0, qr.1);
      }
    }
  }

  // ---- the hash ------------------------------------------------------------------------------------

  lemma Seventh(x: Elem, n: nat)
    requires Cong(x, n)
    ensures Cong(Pow7(x), Power(n, 7))
  {
    hide Cong, Mul, Power;
    var x2 := Mul(x, x);
    CongMul(x, n, x, n);
    CongMul(x2, n * n, x2, n * n);
    CongMul(Mul(x2, x2), n * n * (n * n), x2, n * n);
    CongMul(Mul(Mul(x2, x2), x2), n * n * (n * n) * (n * n), x, n);
    SevenTimes(n);
  }

  lemma SevenTimes(n: nat)
    ensures Power(n, 7) == n * n * (n * n) * (n * n) * n
  {
    var a := n * n;
    assert Power(n, 1) == n;
    assert Power(n, 2) == a;
    assert Power(n, 3) == n * a;
    assert Power(n, 4) == n * (n * a);
    assert Power(n, 5) == n * (n * (n * a));
    assert Power(n, 6) == n * (n * (n * (n * a)));
    assert Power(n, 7) == n * (n * (n * (n * (n * a))));
    hide Power;
    Pair(n, a);
    Pair(n, n * (n * a));
    Pair(n, a * a);
    Swap(n, a * a, a);
  }

  lemma Pair(n: int, x: int)
    ensures n * (n * x) == n * n * x
  {
  }

  lemma Swap(n: int, x: int, a: int)
    ensures n * (x * a) == x * a * n && n * (a * x) == x * a * n
  {
  }

  /** One round, in integers reduced once at the end: add constants, take seventh powers, mix by [[2, 1], [1, 3]]. */
  lemma RoundExact(sp: Sponge, k: nat, h: (Elem, Elem))
    ensures var s0, s1 := Power(h.0 + sp.rc(k).0, 7), Power(h.1 + sp.rc(k).1, 7);
            Round(sp, k, h) == ((2 * s0 + s1) % P, (s0 + 3 * s1) % P)
  {
    var s0, s1 := Power(h.0 + sp.rc(k).0, 7), Power(h.1 + sp.rc(k).1, 7);
    Lane(h.0, sp.rc(k).0);
    Lane(h.1, sp.rc(k).1);
    Mixed(Pow7(Add(h.0, sp.rc(k).0)), Pow7(Add(h.1, sp.rc(k).1)), s0, s1);
  }

  lemma Lane(x: Elem, constant_: Elem)
    ensures Cong(Pow7(Add(x, constant_)), Power(x + constant_, 7))
  {
    hide Pow7, Power;
    Same(x + constant_);
    Seventh(Add(x, constant_), x + constant_);
  }

  lemma Mixed(t0: Elem, t1: Elem, s0: nat, s1: nat)
    requires Cong(t0, s0) && Cong(t1, s1)
    ensures Add(Mul(2, t0), t1) == (2 * s0 + s1) % P && Add(t0, Mul(3, t1)) == (s0 + 3 * s1) % P
  {
    assert Cong(2, 2) && Cong(3, 3);
    Same(2 * s0 + s1);
    Same(s0 + 3 * s1);
    hide Cong, Mul, Add;
    CongMul(2, 2, t0, s0);
    CongMul(3, 3, t1, s1);
    CongAdd(Mul(2, t0), 2 * s0, t1, s1);
    CongAdd(t0, s0, Mul(3, t1), 3 * s1);
    Meet(Add(Mul(2, t0), t1), (2 * s0 + s1) % P, 2 * s0 + s1);
    Meet(Add(t0, Mul(3, t1)), (s0 + 3 * s1) % P, s0 + 3 * s1);
  }
}
