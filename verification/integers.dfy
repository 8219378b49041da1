/** Integer facts the fixed-point and bit-field proofs rest on. */
module Integers {
  lemma MulLe(a: int, b: int, c: nat)
    requires a <= b
    ensures a * c <= b * c
  {
  }

  lemma MulLt(a: int, b: int, c: nat)
    requires a < b && 0 < c
    ensures a * c < b * c
  {
  }

  lemma MulLeInv(a: int, b: int, c: nat)
    requires a * c <= b * c && 0 < c
    ensures a <= b
  {
    if a > b {
      MulLt(b, a, c);
    }
  }

  lemma MulLtInv(a: int, b: int, c: nat)
    requires a * c < b * c
    ensures a < b
  {
    if a >= b {
      MulLe(b, a, c);
    }
  }

  lemma AddMul(a: int, b: int, c: int)
    ensures (a + b) * c == a * c + b * c
  {
  }

  lemma Distribute(p: int, v: int, t: int, b: int)
    ensures p * (v + t * b) == p * v + t * (p * b)
  {
  }

  lemma DivModNat(x: nat, m: nat)
    requires 0 < m
    ensures x == (x / m) * m + x % m
    ensures 0 <= x % m < m && 0 <= x / m
    ensures (x / m) * m <= x
  {
  }

  function Div(x: nat, m: nat): nat
    requires 0 < m
  {
    x / m
  }

  function Mod(x: nat, m: nat): (r: nat)
    requires 0 < m
    ensures r < m
  {
    x % m
  }

  lemma DivUnique(x: int, m: int, q: int, r: int)
    requires 0 <= r < m && x == q * m + r
    ensures x / m == q && x % m == r
  {
    var d := x / m - q;
    assert d * m == r - x % m;
    assert d > 0 ==> d * m >= m;
    assert d < 0 ==> d * m <= -m;
  }

  /** Division is the right adjoint of multiplication. */
  lemma FloorLe(x: nat, m: nat, y: int)
    requires 0 < m
    ensures y <= x / m <==> y * m <= x
  {
    DivModNat(x, m);
    if y <= x / m {
      MulLe(y, x / m, m);
    } else {
      MulLe(x / m + 1, y, m);
    }
  }

  lemma DivDiv(x: nat, a: nat, b: nat)
    requires 0 < a && 0 < b
    ensures a * b > 0 && x / (a * b) == (x / a) / b
  {
    var q, r := x / a, x % a;
    var q2, r2 := q / b, q % b;
    DivModNat(x, a);
    DivModNat(q, b);
    MulLe(r2, b - 1, a);
    assert (q2 * b + r2) * a == q2 * (a * b) + r2 * a;
    assert (b - 1) * a == a * b - a;
    DivUnique(x, a * b, q2, r2 * a + r);
  }
}
