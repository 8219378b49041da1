/** Lane conversions, slippage and fees of crates/lunarbase-math/src/fees.rs. */
module Fees {
  import opened Chain
  import opened Integers
  import opened Arithmetic

  function Min(a: nat, b: nat): nat { if a < b then a else b }

  function LaneExactIn(price: nat, amount: nat, cashToAsset: bool): Result<U256, MathError> {
    if price == 0 then Ok(0)
    else if cashToAsset then FullMulDivDown(amount, WAD, price)
    else FullMulDivDown(amount, price, WAD)
  }

  function LaneExactOut(price: nat, amount: nat, cashToAsset: bool): Result<U256, MathError> {
    if price == 0 then Ok(0)
    else if cashToAsset then FullMulDivUp(amount, price, WAD)
    else FullMulDivUp(amount, WAD, price)
  }

  function LaneSlippageBps(swapCash: nat, principalCash: nat, k: nat): (r: Result<U256, MathError>)
    ensures r.Ok? ==> r.value <= MAX_SLIPPAGE_BPS
  {
    if swapCash == 0 || principalCash == 0 || k == 0 then Ok(0)
    else
      var raw :- FullMulDivUp(swapCash, k, principalCash);
      var scaled :- CeilDiv(raw, SLIPPAGE_SCALE);
      Ok(Min(scaled, MAX_SLIPPAGE_BPS))
  }

  function WeightedSlippageK(p1: nat, k1: nat, p2: nat, k2: nat): Result<U256, MathError> {
    var total :- CheckedAdd(p1, p2);
    if total == 0 then Ok(0)
    else
      var first :- FullMulDivUp(p1, k1, total);
      var second :- FullMulDivUp(p2, k2, total);
      var sum :- CheckedAdd(first, second);
      Ok(Min(sum, BPS))
  }

  function FeeForRouter(whitelisted: bool, multiplier: U256, feeBps: nat): (r: Result<U256, MathError>)
    ensures r.Ok? ==> r.value <= BPS
  {
    var fee := Min(feeBps, BPS);
    if whitelisted then Ok(fee)
    else if multiplier != 0 && fee > Div(BPS, multiplier) then Ok(BPS)
    else if fee * multiplier < TWO_256 then Ok(Min(fee * multiplier, BPS))
    else Err(Overflow)
  }

  function ExactInFee(anchor: nat, feeBps: nat): Result<U256, MathError> {
    if anchor == 0 || feeBps == 0 then Ok(0)
    else
      var d :- CheckedAdd(BPS, feeBps);
      FullMulDivUp(anchor, feeBps, d)
  }

  function ExactOutFee(anchor: nat, feeBps: nat): Result<U256, MathError> {
    if anchor == 0 || feeBps == 0 then Ok(0) else FullMulDivUp(anchor, feeBps, BPS)
  }

  function SplitFee(fee: nat, partnerBps: nat): Result<(nat, nat), MathError> {
    if fee == 0 then Ok((0, 0))
    else if partnerBps == 0 then Ok((0, fee))
    else
      var partner :- MulDivDown256(fee, partnerBps, BPS);
      var treasury :- CheckedSub(fee, partner);
      Ok((partner, treasury))
  }

  // ---- Conversions ----

  /** Value of `amount` of a lane's asset, and of cash, on one common scale. */
  function SideValue(price: nat, amount: nat, cash: bool): nat {
    if cash then amount * WAD else amount * price
  }

  /** An exact-in conversion gives the most that is worth no more than the input. */
  lemma ExactInIsLargest(price: nat, amount: nat, cashToAsset: bool, y: nat)
    requires 0 < price && LaneExactIn(price, amount, cashToAsset).Ok?
    ensures y <= LaneExactIn(price, amount, cashToAsset).value <==>
      SideValue(price, y, !cashToAsset) <= SideValue(price, amount, cashToAsset)
  {
    if cashToAsset {
      FloorAdjoint(amount * WAD, price, y);
    } else {
      FloorAdjoint(amount * price, WAD, y);
    }
  }

  /** An exact-out conversion asks for the least that is worth no less than the output. */
  lemma ExactOutIsSmallest(price: nat, amount: nat, cashToAsset: bool, x: nat)
    requires 0 < price && LaneExactOut(price, amount, cashToAsset).Ok?
    ensures LaneExactOut(price, amount, cashToAsset).value <= x <==>
      SideValue(price, amount, !cashToAsset) <= SideValue(price, x, cashToAsset)
  {
    if cashToAsset {
      CeilAdjoint(amount * price, WAD, x);
    } else {
      CeilAdjoint(amount * WAD, price, x);
    }
  }

  /**
   * Per lane the two directions are adjoint: the input needed for y is at most x
   * exactly when y is at most the output obtained from x. An overflowing
   * conversion counts as larger than every 256-bit amount.
   */
  lemma LaneAdjoint(price: nat, cashToAsset: bool, x: U256, y: U256)
    requires 0 < price
    ensures AtMost(LaneExactOut(price, y, cashToAsset), x) <==> AtLeast(LaneExactIn(price, x, cashToAsset), y)
  {
    if cashToAsset {
      CeilAdjoint(y * price, WAD, x);
      FloorAdjoint(x * WAD, price, y);
    } else {
      CeilAdjoint(y * WAD, price, x);
      FloorAdjoint(x * price, WAD, y);
    }
  }

  predicate AtMost(r: Result<U256, MathError>, x: nat) { r.Ok? && r.value <= x }

  predicate AtLeast(r: Result<U256, MathError>, y: nat) { r.Err? || y <= r.value }

  // ---- Slippage ----

  /** Whenever slippage succeeds, its two ceilings are one ceiling by ten times the principal, then the cap. */
  lemma SlippageIsOneCeiling(swapCash: nat, principalCash: nat, k: nat)
    requires 0 < principalCash && LaneSlippageBps(swapCash, principalCash, k).Ok?
    ensures LaneSlippageBps(swapCash, principalCash, k).value ==
      Min(Ceil(swapCash * k, principalCash * SLIPPAGE_SCALE), MAX_SLIPPAGE_BPS)
  {
    if swapCash == 0 || k == 0 {
      assert swapCash * k == 0;
      CeilAdjoint(0, principalCash * SLIPPAGE_SCALE, 0);
    } else {
      CeilCeil(swapCash * k, principalCash, SLIPPAGE_SCALE);
    }
  }

  /** Before its cap the weighted K is the ceiling of the true weighted average, or one more. */
  lemma WeightedKWithinOne(p1: nat, k1: nat, p2: nat, k2: nat)
    requires 0 < p1 + p2
    ensures var exact := Ceil(p1 * k1 + p2 * k2, p1 + p2);
      exact <= Ceil(p1 * k1, p1 + p2) + Ceil(p2 * k2, p1 + p2) <= exact + 1
    ensures WeightedSlippageK(p1, k1, p2, k2).Ok? ==>
      WeightedSlippageK(p1, k1, p2, k2).value == Min(Ceil(p1 * k1, p1 + p2) + Ceil(p2 * k2, p1 + p2), BPS)
  {
    CeilSum(p1 * k1, p2 * k2, p1 + p2);
  }

  lemma CeilSum(a: nat, b: nat, d: nat)
    requires 0 < d
    ensures Ceil(a + b, d) <= Ceil(a, d) + Ceil(b, d) <= Ceil(a + b, d) + 1
  {
    var x, y, z := Ceil(a, d), Ceil(b, d), Ceil(a + b, d);
    CeilBounds(a, d);
    CeilBounds(b, d);
    CeilBounds(a + b, d);
    AddMul(x, y, d);
    CeilAdjoint(a + b, d, x + y);
    AddMul(z, 2, d);
    MulLtInv(x + y, z + 2, d);
  }

  // ---- Fees ----

  /** For every 256-bit multiplier the router fee is `min(fee * multiplier, BPS)` over the integers. */
  lemma RouterFeeExact(whitelisted: bool, multiplier: U256, feeBps: nat)
    ensures FeeForRouter(whitelisted, multiplier, feeBps) ==
      Ok(if whitelisted then Min(feeBps, BPS) else Min(Min(feeBps, BPS) * multiplier, BPS))
  {
    var fee := Min(feeBps, BPS);
    if multiplier != 0 {
      FloorAdjoint(BPS, multiplier, fee);
    }
  }
}
