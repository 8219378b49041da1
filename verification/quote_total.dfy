/** Fee classes compared, and the absence of arithmetic errors. */
module QuoteTotal {
  import opened Chain
  import opened Integers
  import opened Arithmetic
  import opened Fees
  import opened Quote
  import opened QuoteLaws
  import Slot0

  // ---- Fee classes ----

  lemma FeeOrder(multiplier: U256, feeBps: nat)
    ensures FeeForRouter(true, multiplier, feeBps).Ok? && FeeForRouter(false, multiplier, feeBps).Ok?
    ensures multiplier > 0 ==>
      FeeForRouter(true, multiplier, feeBps).value <= FeeForRouter(false, multiplier, feeBps).value
    ensures multiplier == 0 ==> FeeForRouter(false, multiplier, feeBps).value == 0
  {
    RouterFeeExact(true, multiplier, feeBps);
    RouterFeeExact(false, multiplier, feeBps);
    if multiplier > 0 {
      MulLe(1, multiplier, Min(feeBps, BPS));
    }
  }

  /** Both classes share the anchor; the class with the lower fee has the lower total rate. */
  ghost predicate Ordered(low: Terms, high: Terms) {
    low.anchor == high.anchor && low.totalBps <= high.totalBps
  }

  lemma DirectOrder(
      state: QuoteState, request: QuoteRequest, asset: Address, lane: LaneState, cashToAsset: bool, w: Terms, n: Terms)
    requires DirectTerms(state, true, request, asset, lane, cashToAsset) == Ok(Ok(w))
    requires DirectTerms(state, false, request, asset, lane, cashToAsset) == Ok(Ok(n))
    ensures if state.blacklistFeeMultiplier > 0 then Ordered(w, n) else Ordered(n, w)
  {
    FeeOrder(state.blacklistFeeMultiplier,
      if cashToAsset then Slot0.AskFeeBps(lane.slot0) else Slot0.BidFeeBps(lane.slot0));
  }

  lemma RouteOrder(
      state: QuoteState, request: QuoteRequest, inputLane: LaneState, outputLane: LaneState, w: Terms, n: Terms)
    requires RouteTerms(state, true, request, inputLane, outputLane) == Ok(Ok(w))
    requires RouteTerms(state, false, request, inputLane, outputLane) == Ok(Ok(n))
    ensures if state.blacklistFeeMultiplier > 0 then Ordered(w, n) else Ordered(n, w)
  {
    FeeOrder(state.blacklistFeeMultiplier, Slot0.BidFeeBps(inputLane.slot0));
    FeeOrder(state.blacklistFeeMultiplier, Slot0.AskFeeBps(outputLane.slot0));
  }

  lemma TermsOrder(request: QuoteRequest, block: nat, state: QuoteState, w: Terms, n: Terms)
    requires TermsFor(request, block, state, true) == Ok(Ok(w))
    requires TermsFor(request, block, state, false) == Ok(Ok(n))
    ensures if state.blacklistFeeMultiplier > 0 then Ordered(w, n) else Ordered(n, w)
  {
    if request.assetOut == state.cash {
      DirectOrder(state, request, request.assetIn, state.lanes[request.assetIn], false, w, n);
    } else if request.assetIn == state.cash {
      DirectOrder(state, request, request.assetOut, state.lanes[request.assetOut], true, w, n);
    } else {
      RouteOrder(state, request, state.lanes[request.assetIn], state.lanes[request.assetOut], w, n);
    }
  }

  /** At least as good for the caller: no less output for the same input, no more input for the same output. */
  predicate AtLeastAsGood(request: QuoteRequest, a: QuoteResult, b: QuoteResult) {
    if request.mode.ExactIn? then a.amountOut >= b.amountOut else a.amountIn <= b.amountIn
  }

  lemma LowerRateIsBetter(
      state: QuoteState, request: QuoteRequest, p: QuotePolicy, q: QuotePolicy, low: Terms, high: Terms,
      a: QuoteResult, b: QuoteResult)
    requires Ordered(low, high) && low.feeBps <= low.totalBps && high.feeBps <= high.totalBps
    requires BPS + high.totalBps < TWO_256
    requires Settle(state, p, request, low) == Ok(Available(a))
    requires Settle(state, q, request, high) == Ok(Available(b))
    ensures AtLeastAsGood(request, a, b)
  {
    if request.mode.ExactIn? {
      ExactInAmounts(state, p, request, low, a);
      ExactInAmounts(state, q, request, high, b);
      LeftAntitone(low.anchor, low.totalBps, high.totalBps);
    } else {
      ExactOutAmounts(state, p, request, low, a);
      ExactOutAmounts(state, q, request, high, b);
      AddedMonotone(low.anchor, low.totalBps, high.totalBps);
    }
  }

  /**
   * When both classes get a quote, the whitelisted one is at least as good if
   * the multiplier is at least one. With a zero multiplier it is the other way round.
   */
  lemma WhitelistedIsNoWorse(
      request: QuoteRequest, block: nat, state: QuoteState, p: QuotePolicy, q: QuotePolicy,
      a: QuoteResult, b: QuoteResult)
    requires p.whitelisted && !q.whitelisted
    requires QuoteFor(request, block, state, p) == Ok(Available(a))
    requires QuoteFor(request, block, state, q) == Ok(Available(b))
    ensures if state.blacklistFeeMultiplier > 0 then AtLeastAsGood(request, a, b) else AtLeastAsGood(request, b, a)
  {
    var w := HasTerms(request, block, state, p, a);
    var n := HasTerms(request, block, state, q, b);
    TermsOrder(request, block, state, w, n);
    if state.blacklistFeeMultiplier > 0 {
      LowerRateIsBetter(state, request, p, q, w, n, a, b);
    } else {
      LowerRateIsBetter(state, request, q, p, n, w, b, a);
    }
  }

  // ---- No arithmetic error ----

  const TWO_32: nat := 0x1_0000_0000
  const TWO_112: nat := 0x1_0000_0000_0000_0000_0000_0000_0000
  const TWO_128: nat := 0x1_0000_0000_0000_0000_0000_0000_0000_0000
  const TWO_182: nat := 0x40_0000_0000_0000_0000_0000_0000_0000_0000_0000_0000_0000
  const TWO_241: nat := 0x2_0000_0000_0000_0000_0000_0000_0000_0000_0000_0000_0000_0000_0000_0000_0000

  lemma MulBelow(a: nat, b: nat, x: nat, y: nat)
    requires a < x && b < y
    ensures a * b < x * y
  {
    MulLe(a, x - 1, b);
    MulLe(b, y - 1, x - 1);
    assert (y - 1) * (x - 1) < x * y;
  }

  /** Rounding up by a positive divisor never exceeds the dividend. */
  lemma CeilAtMost(x: nat, d: nat)
    requires 0 < d
    ensures Ceil(x, d) <= x
  {
    CeilAdjoint(x, d, x);
    MulLe(1, d, x);
  }

  lemma DivAtMost(x: nat, d: nat)
    requires 0 < d
    ensures Div(x, d) <= x
  {
    FloorAdjoint(x, d, x + 1);
    MulLe(1, d, x + 1);
  }

  /** Converting an amount below 2^128 into cash fits, with room to spare. */
  lemma IntoCash(price: nat, amount: nat)
    requires price < TWO_112 && amount < TWO_128
    ensures LaneExactIn(price, amount, false).Ok? && LaneExactIn(price, amount, false).value * WAD < TWO_241
    ensures LaneExactOut(price, amount, true).Ok? && LaneExactOut(price, amount, true).value * WAD < TWO_241
  {
    if price != 0 {
      MulBelow(amount, price, TWO_128, TWO_112);
      FloorAdjoint(amount * price, WAD, Div(amount * price, WAD));
      CeilBounds(amount * price, WAD);
    }
  }

  /** Converting such cash into an asset fits. */
  lemma OutOfCash(price: nat, cash: nat)
    requires cash * WAD < TWO_241
    ensures LaneExactIn(price, cash, true).Ok? && LaneExactIn(price, cash, true).value < TWO_241
    ensures LaneExactOut(price, cash, false).Ok? && LaneExactOut(price, cash, false).value < TWO_241
  {
    if price != 0 {
      DivAtMost(cash * WAD, price);
      CeilAtMost(cash * WAD, price);
    }
  }

  /** Cash that fits at WAD scale is below 2^182. */
  lemma CashBelow(cash: nat)
    requires cash * WAD < TWO_241
    ensures cash < TWO_182
  {
  }

  lemma ProductFits(cash: nat, k: nat)
    requires cash * WAD < TWO_241 && k < TWO_32
    ensures cash * k < TWO_256
  {
    CashBelow(cash);
    MulBelow(cash, k, TWO_182, TWO_32);
  }

  lemma TwoCeilingsAtMost(x: nat, d: nat, e: nat)
    requires 0 < d && 0 < e
    ensures Ceil(Ceil(x, d), e) <= Ceil(x, d) <= x
  {
    CeilAtMost(x, d);
    CeilAtMost(Ceil(x, d), e);
  }

  lemma SlippageFits(cash: nat, principal: nat, k: nat)
    requires cash * WAD < TWO_241 && k < TWO_32
    ensures LaneSlippageBps(cash, principal, k).Ok?
  {
    if principal != 0 {
      ProductFits(cash, k);
      TwoCeilingsAtMost(cash * k, principal, SLIPPAGE_SCALE);
    }
  }

  lemma PrincipalFits(lane: LaneState)
    ensures PrincipalCashValue(lane).Ok? && PrincipalCashValue(lane).value < TWO_182
  {
    Slot0.ReaderBounds(lane.slot0);
    IntoCash(Slot0.Price(lane.slot0), lane.totalPrincipalAmount);
  }

  lemma DirectAnchorFits(price: nat, request: QuoteRequest, cashToAsset: bool)
    requires price < TWO_112 && request.amount < TWO_128
    ensures DirectAnchor(price, request, cashToAsset).Ok? && DirectAnchor(price, request, cashToAsset).value < TWO_241
    ensures SwapCash(request, DirectAnchor(price, request, cashToAsset).value, cashToAsset) * WAD < TWO_241
  {
    IntoCash(price, request.amount);
    OutOfCash(price, request.amount);
  }

  lemma DirectTermsFit(
      state: QuoteState, whitelisted: bool, request: QuoteRequest, asset: Address, lane: LaneState, cashToAsset: bool)
    requires request.amount < TWO_128
    ensures var r := DirectTerms(state, whitelisted, request, asset, lane, cashToAsset);
      r.Ok? && (r.value.Ok? ==> r.value.value.anchor < TWO_241)
  {
    Slot0.ReaderBounds(lane.slot0);
    DirectAnchorFits(Slot0.Price(lane.slot0), request, cashToAsset);
    var anchor := DirectAnchor(Slot0.Price(lane.slot0), request, cashToAsset).value;
    PrincipalFits(lane);
    FeeOrder(state.blacklistFeeMultiplier,
      if cashToAsset then Slot0.AskFeeBps(lane.slot0) else Slot0.BidFeeBps(lane.slot0));
    var cash := SwapCash(request, anchor, cashToAsset);
    SlippageFits(cash, PrincipalCashValue(lane).value, Slot0.SlippageKBps(lane.slot0));
  }

  lemma RouteAnchorFits(inputPrice: nat, outputPrice: nat, request: QuoteRequest)
    requires inputPrice < TWO_112 && outputPrice < TWO_112 && request.amount < TWO_128
    ensures var legs := RouteAnchor(inputPrice, outputPrice, request);
      legs.Ok? && legs.value.0 * WAD < TWO_241 && legs.value.1 < TWO_241
  {
    if request.mode.ExactIn? {
      IntoCash(inputPrice, request.amount);
      OutOfCash(outputPrice, LaneExactIn(inputPrice, request.amount, false).value);
    } else {
      IntoCash(outputPrice, request.amount);
      OutOfCash(inputPrice, LaneExactOut(outputPrice, request.amount, true).value);
    }
  }

  /** A share of a larger whole is rounded up to no more than the full coefficient. */
  lemma WeightedTermFits(part: nat, k: nat, total: nat)
    requires part <= total && 0 < total
    ensures Ceil(part * k, total) <= k
  {
    MulLe(part, total, k);
    CeilAdjoint(part * k, total, k);
  }

  lemma RouteSlippageFits(inputLane: LaneState, outputLane: LaneState, p1: nat, p2: nat, cash: nat)
    requires p1 < TWO_182 && p2 < TWO_182 && cash * WAD < TWO_241
    ensures RouteSlippage(inputLane, outputLane, p1, p2, cash).Ok?
  {
    Slot0.ReaderBounds(inputLane.slot0);
    Slot0.ReaderBounds(outputLane.slot0);
    var k1, k2 := Slot0.SlippageKBps(inputLane.slot0), Slot0.SlippageKBps(outputLane.slot0);
    if p1 + p2 > 0 {
      WeightedTermFits(p1, k1, p1 + p2);
      WeightedTermFits(p2, k2, p1 + p2);
    }
    SlippageFits(cash, p1 + p2, WeightedSlippageK(p1, k1, p2, k2).value);
  }

  lemma RouteTermsFit(
      state: QuoteState, whitelisted: bool, request: QuoteRequest, inputLane: LaneState, outputLane: LaneState)
    requires request.amount < TWO_128
    ensures var r := RouteTerms(state, whitelisted, request, inputLane, outputLane);
      r.Ok? && (r.value.Ok? ==> r.value.value.anchor < TWO_241)
  {
    Slot0.ReaderBounds(inputLane.slot0);
    Slot0.ReaderBounds(outputLane.slot0);
    RouteAnchorFits(Slot0.Price(inputLane.slot0), Slot0.Price(outputLane.slot0), request);
    PrincipalFits(inputLane);
    PrincipalFits(outputLane);
    RouteSlippageFits(inputLane, outputLane, PrincipalCashValue(inputLane).value, PrincipalCashValue(outputLane).value,
      RouteAnchor(Slot0.Price(inputLane.slot0), Slot0.Price(outputLane.slot0), request).value.0);
    FeeOrder(state.blacklistFeeMultiplier, Slot0.BidFeeBps(inputLane.slot0));
    FeeOrder(state.blacklistFeeMultiplier, Slot0.AskFeeBps(outputLane.slot0));
  }

  lemma TermsFit(request: QuoteRequest, block: nat, state: QuoteState, whitelisted: bool)
    requires request.amount < TWO_128
    ensures var r := TermsFor(request, block, state, whitelisted);
      r.Ok? && (r.value.Ok? ==> r.value.value.anchor < TWO_241)
  {
    var input, output := LaneOrReason(state, request.assetIn, block), LaneOrReason(state, request.assetOut, block);
    if input.Ok? {
      DirectTermsFit(state, whitelisted, request, request.assetIn, input.value, false);
    }
    if output.Ok? {
      DirectTermsFit(state, whitelisted, request, request.assetOut, output.value, true);
    }
    if input.Ok? && output.Ok? {
      RouteTermsFit(state, whitelisted, request, input.value, output.value);
    }
  }

  lemma AddedFits(anchor: nat, bps: nat)
    requires anchor < TWO_241 && bps <= 3 * BPS
    ensures anchor + Added(anchor, bps) < TWO_256
  {
    MulLe(bps, 3 * BPS, anchor);
    CeilAdjoint(anchor * bps, BPS, 3 * anchor);
  }

  /**
   * For every snapshot, block and multiplier, a request below 2^128 with a base
   * policy never fails with an arithmetic error, direct or routed.
   */
  lemma QuoteNeverOverflows(request: QuoteRequest, block: nat, state: QuoteState, policy: QuotePolicy)
    requires request.amount < TWO_128 && policy.verifiedPartnerFeeBps.None?
    ensures QuoteFor(request, block, state, policy).Ok?
  {
    TermsFit(request, block, state, policy.whitelisted);
    var r := TermsFor(request, block, state, policy.whitelisted);
    if r.value.Ok? {
      var t := r.value.value;
      QuoteIsSettlement(request, block, state, policy, t);
      if request.mode.ExactIn? {
        ExactInSettles(state, policy, request, t);
      } else {
        AddedFits(t.anchor, t.totalBps);
        ExactOutSettles(state, policy, request, t);
      }
    }
  }
}
