/** Powers and increasing lists of numbers. */
module Numbers {
  function Power(b: nat, n: nat): (p: nat)
    ensures b > 0 ==> p > 0
  {
    if n == 0 then 1 else b * Power(b, n - 1)
  }

  function Pow2(n: nat): (p: nat)
    ensures p >= 1
  {
    if n == 0 then 1 else 2 * Pow2(n - 1)
  }

  lemma {:induction false} PowerAdds(m: nat, n: nat)
    ensures Pow2(m + n) == Pow2(m) * Pow2(n)
  {
    if m > 0 { PowerAdds(m - 1, n); }
  }

  predicate Increasing(s: seq<nat>) {
    forall i, j :: 0 <= i < j < |s| ==> s[i] < s[j]
  }

  lemma QuotientIs(x: int, m: nat, q: int, r: int)
    requires m >= 1 && x == q * m + r && 0 <= r < m
    ensures x / m == q && x % m == r
  {
    var d := x / m - q;
    assert d * m == r - x % m;
    if d >= 1 { TimesAtLeast(d, m); }
    if d <= -1 { TimesAtLeast(-d, m); }
  }

  lemma TimesAtLeast(d: int, m: int)
    requires d >= 1 && m >= 1
    ensures d * m >= m && -d * m == -(d * m)
  {
    assert d * m == (d - 1) * m + m;
    assert (d - 1) * m >= 0;
  }
}
