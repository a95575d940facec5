/**
 * Integer facts shared by the slicing, padding and window helpers:
 * ceiling division and the monotonicity of multiplication.
 */
module Arith {

  /** Ceiling division for a non-negative numerator. */
  function CeilDiv(n: nat, d: nat): nat
    requires d > 0
  {
    (n + d - 1) / d
  }

  lemma DivUnique(m: int, d: int, q: int, r: int)
    requires d > 0 && 0 <= r < d && m == q * d + r
    ensures m / d == q
  {
    var q', r' := m / d, m % d;
    assert (q - q') * d == r' - r;
    if q > q' {
      assert (q - q') * d >= d by { MulAtLeast(q - q', d); }
    } else if q < q' {
      assert (q' - q) * d >= d by { MulAtLeast(q' - q, d); }
    }
  }

  /** The Euclidean remainder is the only r in [0, |d|) with m == q * d + r,
      for a divisor of either sign. */
  lemma ModUnique(m: int, d: int, q: int, r: int)
    requires d != 0 && 0 <= r < (if d < 0 then -d else d) && m == q * d + r
    ensures m % d == r
  {
    var q', r' := m / d, m % d;
    var e := if d < 0 then -d else d;
    assert (q - q') * d == r' - r;
    if q != q' {
      var k := if q > q' then q - q' else q' - q;
      assert k * e == (if r' > r then r' - r else r - r') by {
        if d < 0 { assert k * e == (if q > q' then (q' - q) * d else (q - q') * d); }
      }
      MulAtLeast(k, e);
    }
  }

  lemma MulAtLeast(a: int, d: int)
    requires a >= 1 && d > 0
    ensures a * d >= d
  {
  }

  lemma CeilDivStep(n: nat, d: nat)
    requires d > 0
    ensures CeilDiv(n + d, d) == CeilDiv(n, d) + 1
  {
    var q, r := (n + d - 1) / d, (n + d - 1) % d;
    assert (n + d) + d - 1 == (q + 1) * d + r;
    DivUnique((n + d) + d - 1, d, q + 1, r);
  }

  lemma MulMono(a: int, b: int, d: nat)
    requires a <= b
    ensures a * d <= b * d
  {
    assert b * d - a * d == (b - a) * d;
  }

  /** The multiples of d below n are the first ceil(n / d) of them. */
  lemma CeilDivBelow(n: nat, d: nat, i: nat)
    requires d > 0
    ensures i < CeilDiv(n, d) <==> i * d < n
  {
    var q, t := CeilDiv(n, d), (n + d - 1) % d;
    assert n + d - 1 == q * d + t;
    if i < q {
      MulMono(i, q - 1, d);
      assert (q - 1) * d == q * d - d;
    } else {
      MulMono(q, i, d);
    }
  }

  lemma CeilDivSmall(n: nat, d: nat)
    requires 0 < n <= d
    ensures CeilDiv(n, d) == 1
  {
    assert d <= n + d - 1 < 2 * d;
  }

  lemma MulStep(k: nat, step: nat)
    requires k > 0
    ensures (k - 1) * step + step == k * step
  {
  }
}
