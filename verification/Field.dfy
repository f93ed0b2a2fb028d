/** The Goldilocks prime field: plain integers in [0, P), as execnode/stark/field.py computes on them. */
module Field {
  const P: nat := 0xFFFF_FFFF_0000_0001

  const TWO_32: nat := 0x1_0000_0000
  const TWO_62: nat := 0x4000_0000_0000_0000
  const TWO_63: nat := 0x8000_0000_0000_0000
  const TWO_64: nat := 0x1_0000_0000_0000_0000

  type Elem = x: nat | x < P

  function Add(a: Elem, b: Elem): Elem {
    (a + b) % P
  }

  function Sub(a: Elem, b: Elem): Elem {
    (a - b) % P
  }

  function Mul(a: Elem, b: Elem): Elem {
    (a * b) % P
  }

  /** The branchless mux f + c*(t - f) picks t when c is 1 and f when c is 0. */
  lemma MuxPicks(c: Elem, t: Elem, f: Elem)
    requires c == 0 || c == 1
    ensures Add(Mul(Sub(t, f), c), f) == if c == 1 then t else f
  {
    var x := Sub(t, f);
    if c == 1 {
      assert x * c == x;
      assert Mul(x, c) == x;
      if t >= f {
        assert x == t - f;
      } else {
        assert x == t - f + P;
      }
    } else {
      assert x * c == 0;
    }
  }

  /** Splitting a field element at 32 bits: the high half tops out only when the low half is zero. */
  lemma HighHalfCanonical(x: Elem)
    ensures x / TWO_32 == TWO_32 - 1 ==> x % TWO_32 == 0
    ensures x % TWO_32 < P
  {
    assert P == (TWO_32 - 1) * TWO_32 + 1;
  }
}
