/** When the split of a fee with a verified partner can fail a quote that has terms. */
module QuoteShares {
  import opened Chain
  import opened Integers
  import opened Arithmetic
  import opened Fees
  import opened Quote
  import opened QuoteLaws
  import opened QuoteTotal
  import Slot0

  /** The product fits 256 bits and the partner gets no more than the fee. */
  predicate Splits(fee: nat, bps: nat) {
    fee * bps < TWO_256 && fee * bps < (fee + 1) * BPS
  }

  /** A fee can be split exactly when its product with the share fits and the share is at most all of it. */
  lemma SplitFeeExact(fee: nat, bps: nat)
    ensures SplitFee(fee, bps).Ok? <==> Splits(fee, bps)
  {
    if fee == 0 || bps == 0 {
      assert fee * bps == 0;
    } else {
      FloorAdjoint(fee * bps, BPS, fee + 1);
    }
  }

  /** A share of at most BPS leaves only the product to fit. */
  lemma SmallShareSplits(fee: nat, bps: nat)
    requires bps <= BPS
    ensures Splits(fee, bps) <==> fee * bps < TWO_256
  {
    MulLe(bps, BPS, fee);
    AddMul(fee, 1, BPS);
  }

  lemma SettleWithShare(state: QuoteState, policy: QuotePolicy, request: QuoteRequest, t: Terms)
    requires policy.verifiedPartnerFeeBps.Some? && Settle(state, Base(policy), request, t).Ok?
    ensures var base := Settle(state, Base(policy), request, t).value;
      Settle(state, policy, request, t).Ok? <==>
        (base.Available? ==> SplitFee(base.result.feeAmount, policy.verifiedPartnerFeeBps.value).Ok?)
  {
  }

  /**
   * For an amount below 2^128 and every share: the quote fails if and only if
   * the base quote is available and its fee cannot be split.
   */
  lemma ShareFailsExactly(request: QuoteRequest, block: nat, state: QuoteState, policy: QuotePolicy)
    requires request.amount < TWO_128 && policy.verifiedPartnerFeeBps.Some?
    ensures QuoteFor(request, block, state, Base(policy)).Ok?
    ensures var base := QuoteFor(request, block, state, Base(policy)).value;
      QuoteFor(request, block, state, policy).Ok? <==>
        (base.Available? ==> Splits(base.result.feeAmount, policy.verifiedPartnerFeeBps.value))
  {
    QuoteNeverOverflows(request, block, state, Base(policy));
    var terms := TermsFor(request, block, state, policy.whitelisted);
    if terms.value.Ok? {
      var t := terms.value.value;
      QuoteIsSettlement(request, block, state, policy, t);
      QuoteIsSettlement(request, block, state, Base(policy), t);
      SettleWithShare(state, policy, request, t);
      var base := QuoteFor(request, block, state, Base(policy)).value;
      if base.Available? {
        SplitFeeExact(base.result.feeAmount, policy.verifiedPartnerFeeBps.value);
      }
    }
  }

  /** The fee of an exact-in quote comes out of the same reserve as its output. */
  lemma ExactInFeeFits(request: QuoteRequest, block: nat, state: QuoteState, policy: QuotePolicy, r: QuoteResult)
    requires request.mode.ExactIn? && policy.verifiedPartnerFeeBps.None?
    requires QuoteFor(request, block, state, policy) == Ok(Available(r))
    ensures r.feeAmount < TWO_128
  {
    var t := HasTerms(request, block, state, policy, r);
    ExactInSettles(state, policy, request, t);
  }

  lemma SmallProduct(fee: nat, bps: nat)
    requires fee < TWO_128 && bps <= BPS
    ensures fee * bps < TWO_256
  {
    MulLe(bps, BPS, fee);
  }

  /** So an exact-in quote below 2^128 never fails for a share of at most BPS. */
  lemma ExactInNeverOverflows(request: QuoteRequest, block: nat, state: QuoteState, policy: QuotePolicy)
    requires request.amount < TWO_128 && request.mode.ExactIn?
    requires policy.verifiedPartnerFeeBps.Some? ==> policy.verifiedPartnerFeeBps.value <= BPS
    ensures QuoteFor(request, block, state, policy).Ok?
  {
    if policy.verifiedPartnerFeeBps.None? {
      QuoteNeverOverflows(request, block, state, policy);
    } else {
      ShareFailsExactly(request, block, state, policy);
      var base := QuoteFor(request, block, state, Base(policy)).value;
      if base.Available? {
        ExactInFeeFits(request, block, state, Base(policy), base.result);
        SmallProduct(base.result.feeAmount, policy.verifiedPartnerFeeBps.value);
        SmallShareSplits(base.result.feeAmount, policy.verifiedPartnerFeeBps.value);
      }
    }
  }

  /** And an exact-out quote below 2^128 with such a share fails exactly when fee times share needs 257 bits. */
  lemma ExactOutFailsExactly(request: QuoteRequest, block: nat, state: QuoteState, policy: QuotePolicy)
    requires request.amount < TWO_128 && request.mode.ExactOut?
    requires policy.verifiedPartnerFeeBps.Some? && policy.verifiedPartnerFeeBps.value <= BPS
    ensures QuoteFor(request, block, state, Base(policy)).Ok?
    ensures var base := QuoteFor(request, block, state, Base(policy)).value;
      QuoteFor(request, block, state, policy).Err? <==>
        base.Available? && base.result.feeAmount * policy.verifiedPartnerFeeBps.value >= TWO_256
  {
    ShareFailsExactly(request, block, state, policy);
    var base := QuoteFor(request, block, state, Base(policy)).value;
    if base.Available? {
      SmallShareSplits(base.result.feeAmount, policy.verifiedPartnerFeeBps.value);
    }
  }

  // ---- A snapshot in which exact-out fails ----

  const TWO_68: nat := 0x10_0000_0000_0000_0000
  const TWO_111: nat := 0x8000_0000_0000_0000_0000_0000_0000

  /** A live lane that charges everything and has no slippage. */
  predicate Charges(lane: LaneState, price: nat) {
    && Slot0.Decode(lane.slot0) == Slot0.LaneSlot0(price, BPS, BPS, 0, false, 0, true, false, 0, 0, 0)
    && lane.totalPrincipalAmount == WAD && lane.assetReserve == TWO_68 * WAD
  }

  lemma ExampleLegs(amount: nat)
    requires amount == TWO_68 * WAD
    ensures LaneExactOut(TWO_111, amount, true) == Ok(TWO_68 * TWO_111)
    ensures LaneExactOut(1, TWO_68 * TWO_111, false) == Ok(TWO_68 * TWO_111 * WAD)
  {
    ExactCeil(amount * TWO_111, WAD, TWO_68 * TWO_111);
    ExactCeil(TWO_68 * TWO_111 * WAD, 1, TWO_68 * TWO_111 * WAD);
  }

  lemma ExactCeil(x: nat, d: nat, q: nat)
    requires 0 < d && x == q * d
    ensures Ceil(x, d) == q
  {
    CeilAdjoint(x, d, q);
    CeilAdjoint(x, d, q - 1);
    AddMul(q - 1, 1, d);
  }

  lemma ExamplePrincipals(lane: LaneState, price: nat)
    requires Charges(lane, price) && 0 < price < TWO_128
    ensures PrincipalCashValue(lane) == Ok(price)
  {
    DivUnique(WAD * price, WAD, price, 0);
  }

  lemma NoSlippage(p1: nat, p2: nat, cash: nat, a: LaneState, b: LaneState)
    requires Slot0.SlippageKBps(a.slot0) == 0 && Slot0.SlippageKBps(b.slot0) == 0
    requires 0 < p1 < TWO_128 && 0 < p2 < TWO_128
    ensures RouteSlippage(a, b, p1, p2, cash) == Ok(0)
  {
    ExactCeil(0, p1 + p2, 0);
  }

  lemma ChargingReads(state: QuoteState, asset: Address, price: nat)
    requires asset in state.lanes && Charges(state.lanes[asset], price)
    ensures var word := state.lanes[asset].slot0;
      && Slot0.Price(word) == price && Slot0.SlippageKBps(word) == 0
      && Slot0.BidFeeBps(word) == Slot0.AskFeeBps(word) == BPS
    ensures LaneOrReason(state, asset, 0) == Ok(state.lanes[asset])
  {
    assert Slot0.Decode(state.lanes[asset].slot0).price == price;
  }

  /** The terms of a route whose legs, principals and slippage are known and whose lanes charge everything. */
  lemma ChargingRoute(state: QuoteState, whitelisted: bool, request: QuoteRequest, a: LaneState, b: LaneState,
                      p1: nat, p2: nat, cash: U256, anchor: U256, fee: nat)
    requires FeeForRouter(whitelisted, state.blacklistFeeMultiplier, BPS) == Ok(fee)
    requires RouteAnchor(Slot0.Price(a.slot0), Slot0.Price(b.slot0), request) == Ok((cash, anchor)) && 0 < anchor
    requires PrincipalCashValue(a) == Ok(p1) && PrincipalCashValue(b) == Ok(p2) && 0 < p1 && 0 < p2
    requires RouteSlippage(a, b, p1, p2, cash) == Ok(0)
    requires Slot0.BidFeeBps(a.slot0) == BPS && Slot0.AskFeeBps(b.slot0) == BPS
    ensures RouteTerms(state, whitelisted, request, a, b) == Ok(Ok(Terms(anchor, 2 * fee, 2 * fee)))
  {
  }

  lemma RoutedTerms(request: QuoteRequest, block: nat, state: QuoteState, whitelisted: bool)
    requires 0 < request.amount && request.assetIn != request.assetOut
    requires request.assetIn != state.cash && request.assetOut != state.cash
    requires LaneOrReason(state, request.assetIn, block).Ok? && LaneOrReason(state, request.assetOut, block).Ok?
    ensures TermsFor(request, block, state, whitelisted)
      == RouteTerms(state, whitelisted, request, state.lanes[request.assetIn], state.lanes[request.assetOut])
  {
  }

  lemma ChargingTerms(state: QuoteState, whitelisted: bool, request: QuoteRequest, p: nat, q: nat,
                      cash: U256, anchor: U256, fee: nat)
    requires FeeForRouter(whitelisted, state.blacklistFeeMultiplier, BPS) == Ok(fee)
    requires 0 < request.amount && request.assetIn != request.assetOut
    requires request.assetIn != state.cash && request.assetOut != state.cash
    requires request.assetIn in state.lanes && Charges(state.lanes[request.assetIn], p) && 0 < p < TWO_128
    requires request.assetOut in state.lanes && Charges(state.lanes[request.assetOut], q) && 0 < q < TWO_128
    requires RouteAnchor(p, q, request) == Ok((cash, anchor)) && 0 < anchor
    ensures TermsFor(request, 0, state, whitelisted) == Ok(Ok(Terms(anchor, 2 * fee, 2 * fee)))
  {
    var a, b := state.lanes[request.assetIn], state.lanes[request.assetOut];
    ChargingReads(state, request.assetIn, p);
    ChargingReads(state, request.assetOut, q);
    RoutedTerms(request, 0, state, whitelisted);
    ExamplePrincipals(a, p);
    ExamplePrincipals(b, q);
    NoSlippage(p, q, cash, a, b);
    ChargingRoute(state, whitelisted, request, a, b, p, q, cash, anchor, fee);
  }

  /** An input lane at price one and an output lane at price 2^111, both charging everything. */
  predicate Example(state: QuoteState, request: QuoteRequest) {
    && state.cash == 0 && 1 in state.lanes && 2 in state.lanes
    && Charges(state.lanes[1], 1) && Charges(state.lanes[2], TWO_111)
    && request == QuoteRequest(1, 2, TWO_68 * WAD, ExactOut)
  }

  /** The example's anchor: three times it fits 256 bits, twice it times a full share does not. */
  lemma ExampleLegsFit(state: QuoteState, request: QuoteRequest) returns (cash: U256, anchor: U256)
    requires Example(state, request)
    ensures RouteAnchor(1, TWO_111, request) == Ok((cash, anchor))
    ensures 0 < anchor && 3 * anchor < TWO_256 <= (2 * anchor) * BPS
  {
    ExampleLegs(request.amount);
    cash, anchor := TWO_68 * TWO_111, TWO_68 * TWO_111 * WAD;
  }

  lemma ExampleTerms(state: QuoteState, request: QuoteRequest, whitelisted: bool, fee: nat) returns (anchor: U256)
    requires Example(state, request) && FeeForRouter(whitelisted, state.blacklistFeeMultiplier, BPS) == Ok(fee)
    ensures RouteAnchor(1, TWO_111, request).Ok? && RouteAnchor(1, TWO_111, request).value.1 == anchor
    ensures 0 < anchor && 3 * anchor < TWO_256 <= (2 * anchor) * BPS
    ensures TermsFor(request, 0, state, whitelisted) == Ok(Ok(Terms(anchor, 2 * fee, 2 * fee)))
  {
    var cash;
    cash, anchor := ExampleLegsFit(state, request);
    ChargingTerms(state, whitelisted, request, 1, TWO_111, cash, anchor, fee);
  }

  /** An exact-out quote whose rate is all fee, once its terms are known. */
  lemma AllFeeQuote(state: QuoteState, policy: QuotePolicy, request: QuoteRequest, t: Terms, fee: nat)
    requires request.mode.ExactOut? && policy.verifiedPartnerFeeBps.None? && t.feeBps == t.totalBps
    requires TermsFor(request, 0, state, policy.whitelisted) == Ok(Ok(t))
    requires Added(t.anchor, t.feeBps) == fee && t.anchor + fee < TWO_256
    requires OutputReserve(state, request.assetOut).Some?
    requires request.amount <= OutputReserve(state, request.assetOut).value
    ensures QuoteFor(request, 0, state, policy)
      == Ok(Available(QuoteResult(t.anchor + fee, request.amount, request.assetIn, fee, None)))
  {
    QuoteIsSettlement(request, 0, state, policy, t);
    ExactOutSettles(state, policy, request, t);
  }

  lemma ExampleReserve(state: QuoteState, request: QuoteRequest)
    requires Example(state, request)
    ensures OutputReserve(state, request.assetOut) == Some(request.amount)
  {
  }

  lemma DoubleFee(anchor: nat)
    ensures Added(anchor, 2 * BPS) == 2 * anchor && Added(anchor, 0) == 0
  {
    ExactCeil(anchor * (2 * BPS), BPS, 2 * anchor);
    ExactCeil(anchor * 0, BPS, 0);
  }

  /** The whitelisted class is asked for three times the anchor. */
  lemma WhitelistedExample(state: QuoteState, request: QuoteRequest) returns (anchor: U256)
    requires Example(state, request)
    ensures RouteAnchor(1, TWO_111, request).Ok? && RouteAnchor(1, TWO_111, request).value.1 == anchor
    ensures 0 < anchor && TWO_256 <= (2 * anchor) * BPS
    ensures QuoteFor(request, 0, state, QuotePolicy(true, None))
      == Ok(Available(QuoteResult(3 * anchor, request.amount, 1, 2 * anchor, None)))
  {
    anchor := ExampleTerms(state, request, true, BPS);
    ExampleReserve(state, request);
    DoubleFee(anchor);
    AllFeeQuote(state, QuotePolicy(true, None), request, Terms(anchor, 2 * BPS, 2 * BPS), 2 * anchor);
  }

  /** With a multiplier of zero the other class is asked for the anchor only. */
  lemma OtherExample(state: QuoteState, request: QuoteRequest) returns (anchor: U256)
    requires Example(state, request) && state.blacklistFeeMultiplier == 0
    ensures RouteAnchor(1, TWO_111, request).Ok? && RouteAnchor(1, TWO_111, request).value.1 == anchor
    ensures QuoteFor(request, 0, state, QuotePolicy(false, None))
      == Ok(Available(QuoteResult(anchor, request.amount, 1, 0, None)))
  {
    anchor := ExampleTerms(state, request, false, 0);
    ExampleReserve(state, request);
    DoubleFee(anchor);
    AllFeeQuote(state, QuotePolicy(false, None), request, Terms(anchor, 0, 0), 0);
  }

  /** There the base quote is available and the same quote with a full partner share fails. */
  lemma ExampleFails(state: QuoteState, request: QuoteRequest)
    requires Example(state, request)
    ensures QuoteFor(request, 0, state, QuotePolicy(true, None)).Ok?
    ensures QuoteFor(request, 0, state, QuotePolicy(true, None)).value.Available?
    ensures QuoteFor(request, 0, state, QuotePolicy(true, Some(BPS))).Err?
  {
    var anchor := WhitelistedExample(state, request);
    ExactOutFailsExactly(request, 0, state, QuotePolicy(true, Some(BPS)));
  }

  /** With a multiplier of zero the other class pays a third there. */
  lemma ExampleIsWorse(state: QuoteState, request: QuoteRequest)
    requires Example(state, request) && state.blacklistFeeMultiplier == 0
    ensures QuoteFor(request, 0, state, QuotePolicy(true, None)).Ok?
    ensures QuoteFor(request, 0, state, QuotePolicy(false, None)).Ok?
    ensures var white := QuoteFor(request, 0, state, QuotePolicy(true, None)).value;
      var other := QuoteFor(request, 0, state, QuotePolicy(false, None)).value;
      && white.Available? && other.Available?
      && white.result.amountIn == 3 * other.result.amountIn && other.result.amountIn > 0
  {
    var a := WhitelistedExample(state, request);
    var b := OtherExample(state, request);
  }

  lemma ChargingLane(price: nat) returns (lane: LaneState)
    requires 0 < price < TWO_112
    ensures Charges(lane, price)
  {
    var f := Slot0.LaneSlot0(price, BPS, BPS, 0, false, 0, true, false, 0, 0, 0);
    Slot0.Pow2Values();
    Slot0.DecodeEncode(f);
    lane := LaneState(Slot0.Encode(f).value, TWO_68 * WAD, WAD);
  }

  lemma ExampleExists(multiplier: U256) returns (state: QuoteState, request: QuoteRequest)
    ensures Example(state, request) && state.blacklistFeeMultiplier == multiplier
  {
    var a := ChargingLane(1);
    var b := ChargingLane(TWO_111);
    state := QuoteState(0, 0, map[1 := a, 2 := b], multiplier);
    request := QuoteRequest(1, 2, TWO_68 * WAD, ExactOut);
  }

  /** So there is a snapshot in which an exact-out quote below 2^128 fails for its partner share alone. */
  lemma ExactOutCanFail() returns (state: QuoteState, request: QuoteRequest)
    ensures request.mode.ExactOut? && request.amount < TWO_128
    ensures QuoteFor(request, 0, state, QuotePolicy(true, None)).Ok?
    ensures QuoteFor(request, 0, state, QuotePolicy(true, None)).value.Available?
    ensures QuoteFor(request, 0, state, QuotePolicy(true, Some(BPS))).Err?
  {
    state, request := ExampleExists(0);
    ExampleFails(state, request);
  }

  /** And one with a multiplier of zero in which the whitelisted class pays three times as much. */
  lemma WhitelistedCanBeWorse() returns (state: QuoteState, request: QuoteRequest)
    ensures request.mode.ExactOut? && state.blacklistFeeMultiplier == 0
    ensures QuoteFor(request, 0, state, QuotePolicy(true, None)).Ok?
    ensures QuoteFor(request, 0, state, QuotePolicy(false, None)).Ok?
    ensures var white := QuoteFor(request, 0, state, QuotePolicy(true, None)).value;
      var other := QuoteFor(request, 0, state, QuotePolicy(false, None)).value;
      && white.Available? && other.Available?
      && white.result.amountIn == 3 * other.result.amountIn && other.result.amountIn > 0
  {
    state, request := ExampleExists(0);
    ExampleIsWorse(state, request);
  }
}
