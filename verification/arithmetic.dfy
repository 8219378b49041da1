/** Checked and full-width 256-bit arithmetic of crates/lunarbase-math/src/arithmetic.rs. */
module Arithmetic {
  import opened Chain
  import opened Integers

  datatype MathError = DivisionByZero | Overflow

  const TWO_256: nat :=
    0x1_0000000000000000_0000000000000000_0000000000000000_0000000000000000

  type U256 = n: nat | n < TWO_256

  /** Fixed-point price scale. */
  const WAD: U256 := 1_000_000_000_000_000_000
  /** One million protocol basis points are one hundred percent. */
  const BPS: U256 := 1_000_000
  const SLIPPAGE_SCALE: U256 := 10
  const MAX_SLIPPAGE_BPS: U256 := 100_000

  /** A 512-bit or unbounded result narrowed to 256 bits. */
  function Narrow(x: nat): Result<U256, MathError> {
    if x < TWO_256 then Ok(x) else Err(Overflow)
  }

  function CheckedAdd(x: nat, y: nat): Result<U256, MathError> { Narrow(x + y) }

  function CheckedSub(x: nat, y: nat): Result<nat, MathError> {
    if y <= x then Ok(x - y) else Err(Overflow)
  }

  /** `ceil(x / d)` as quotient and remainder give it. */
  function Ceil(x: nat, d: nat): nat
    requires 0 < d
  {
    if Mod(x, d) == 0 then Div(x, d) else Div(x, d) + 1
  }

  function CeilDiv(x: U256, d: U256): Result<U256, MathError> {
    if d == 0 then Err(DivisionByZero) else Narrow(Ceil(x, d))
  }

  function FullMulDivDown(x: nat, y: nat, d: nat): Result<U256, MathError> {
    if d == 0 then Err(DivisionByZero) else Narrow(Div(x * y, d))
  }

  function FullMulDivUp(x: nat, y: nat, d: nat): Result<U256, MathError> {
    if d == 0 then Err(DivisionByZero) else Narrow(Ceil(x * y, d))
  }

  function MulDivDown256(x: nat, y: nat, d: nat): Result<nat, MathError> {
    if d == 0 then Err(DivisionByZero)
    else if x * y < TWO_256 then Ok(Div(x * y, d))
    else Err(Overflow)
  }

  // ---- Rounding as adjunctions ----

  /** Rounding down: the largest y with y * d <= x. */
  lemma FloorAdjoint(x: nat, d: nat, y: int)
    requires 0 < d
    ensures y <= Div(x, d) <==> y * d <= x
  {
    FloorLe(x, d, y);
  }

  /** Rounding up: the smallest y with x <= y * d. */
  lemma CeilAdjoint(x: nat, d: nat, y: int)
    requires 0 < d
    ensures Ceil(x, d) <= y <==> x <= y * d
  {
    DivModNat(x, d);
    if x <= y * d {
      if y < Div(x, d) {
        MulLe(y + 1, Div(x, d), d);
      } else if y == Div(x, d) {
        assert Mod(x, d) == 0;
      }
    } else {
      FloorLe(x, d, y);
    }
  }

  /** A ceiling overshoots by less than one unit. */
  lemma CeilBounds(x: nat, d: nat)
    requires 0 < d
    ensures x <= Ceil(x, d) * d < x + d
  {
    DivModNat(x, d);
    assert (Div(x, d) + 1) * d == Div(x, d) * d + d;
  }

  lemma CeilMonotone(x: nat, y: nat, d: nat)
    requires x <= y && 0 < d
    ensures Ceil(x, d) <= Ceil(y, d)
  {
    CeilAdjoint(y, d, Ceil(y, d));
    CeilAdjoint(x, d, Ceil(y, d));
  }

  /** Two ceilings in a row are one. */
  lemma CeilCeil(x: nat, a: nat, b: nat)
    requires 0 < a && 0 < b
    ensures a * b > 0 && Ceil(Ceil(x, a), b) == Ceil(x, a * b)
  {
    var l, r := Ceil(Ceil(x, a), b), Ceil(x, a * b);
    CeilChain(x, a, b, l);
    CeilChain(x, a, b, r);
  }

  lemma CeilChain(x: nat, a: nat, b: nat, y: nat)
    requires 0 < a && 0 < b
    ensures a * b > 0
    ensures Ceil(Ceil(x, a), b) <= y <==> Ceil(x, a * b) <= y
  {
    CeilAdjoint(Ceil(x, a), b, y);
    CeilAdjoint(x, a, y * b);
    CeilAdjoint(x, a * b, y);
    assert y * b * a == y * (a * b);
  }

  lemma Expand(a: int, y: int, b: int, t: int)
    ensures (a - y) * (b + t) == a * b + a * t - y * (b + t)
  {
  }

  lemma CeilFloorDual(a: nat, b: nat, t: nat, y: int)
    requires 0 < b
    ensures Ceil(a * t, b + t) <= a - y <==> y <= Div(a * b, b + t)
  {
    CeilAdjoint(a * t, b + t, a - y);
    FloorAdjoint(a * b, b + t, y);
    Expand(a, y, b, t);
  }

  /** Splitting a in the ratio t to b: the rounded-up share and the rounded-down rest make up a. */
  lemma CeilIsRest(a: nat, b: nat, t: nat)
    requires 0 < b
    ensures Ceil(a * t, b + t) == a - Div(a * b, b + t)
  {
    CeilFloorDual(a, b, t, Div(a * b, b + t));
    CeilFloorDual(a, b, t, a - Ceil(a * t, b + t));
  }
}
