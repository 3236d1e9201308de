/** Facts about products and quotients, proved once so that no other proof has to find them. */
module Arithmetic {

  lemma {:induction false} MulMonotone(a: nat, b: nat, r: nat)
    requires a <= b
    ensures a * r <= b * r
  {
    if a < b {
      MulMonotone(a, b - 1, r);
      assert b * r == (b - 1) * r + r;
    }
  }

  lemma MulStep(a: nat, b: nat, r: nat)
    requires a < b
    ensures a * r + r <= b * r
  {
    MulMonotone(a + 1, b, r);
    assert (a + 1) * r == a * r + r;
  }

  lemma DivModSplit(x: nat, r: nat)
    requires r > 0
    ensures x == x % r + (x / r) * r
  {
  }

  /** Quotient and remainder are the only way to split `x` by `r`. */
  lemma DivModUnique(x: nat, r: nat, d: nat, q: nat)
    requires q < r && x == d * r + q
    ensures x / r == d && x % r == q
  {
    var e := x / r;
    assert x == e * r + x % r;
    if e < d {
      MulStep(e, d, r);
    } else if d < e {
      MulStep(d, e, r);
    }
  }

  lemma DivMonotone(few: nat, many: nat, r: nat)
    requires 0 < r && few <= many
    ensures few / r <= many / r
  {
    var d, e := few / r, many / r;
    assert few == d * r + few % r && many == e * r + many % r;
    if e < d {
      MulStep(e, d, r);
    }
  }

  /** Multiplying by a constant commutes with wrapping. */
  lemma MulMod(m: nat, c: nat, r: nat)
    requires r > 0
    ensures (m % r * c) % r == (c * m) % r
  {
    var d, s := m / r, m % r;
    DivModSplit(m, r);
    var e, f := s * c / r, s * c % r;
    DivModSplit(s * c, r);
    Regroup(c, d, r, s, e, f);
    DivModUnique(c * m, r, c * d + e, f);
  }

  lemma Regroup(c: nat, d: nat, r: nat, s: nat, e: nat, f: nat)
    requires s * c == f + e * r
    ensures c * (s + d * r) == (c * d + e) * r + f
  {
    assert c * (s + d * r) == s * c + c * d * r;
    assert (c * d + e) * r == c * d * r + e * r;
  }

  /** Wrapping at a multiple of `n` keeps the value modulo `n`. */
  lemma LowKept(m: nat, q: nat, n: nat)
    requires n > 0 && q > 0 && q * n > 0
    ensures m % (q * n) % n == m % n
  {
    var r := q * n;
    var d, s := m / r, m % r;
    DivModSplit(m, r);
    var e, f := s / n, s % n;
    DivModSplit(s, n);
    Gather(d, r, q, n, e);
    DivModUnique(m, n, d * q + e, f);
  }

  lemma Gather(d: nat, r: nat, q: nat, n: nat, e: nat)
    requires r == q * n
    ensures d * r + e * n == (d * q + e) * n
  {
    assert d * r == (d * q) * n;
  }
}
