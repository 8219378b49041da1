/** What every available quote guarantees: exact amounts, value, fee classes. */
module QuoteLaws {
  import opened Chain
  import opened Integers
  import opened Arithmetic
  import opened Fees
  import opened Quote
  import Slot0

  // ---- The exact-in spread ----

  /** A larger divisor gives no larger quotient. */
  lemma DivAntitone(x: nat, d: nat, e: nat)
    requires 0 < d <= e
    ensures Div(x, e) <= Div(x, d)
  {
    FloorAdjoint(x, e, Div(x, e));
    FloorAdjoint(x, d, Div(x, e));
    MulLe(d, e, Div(x, e));
  }

  /** What an exact-in rate leaves of an anchor. */
  function Left(anchor: nat, bps: nat): nat { Div(anchor * BPS, BPS + bps) }

  lemma LeftBound(anchor: nat, bps: nat)
    ensures Left(anchor, bps) <= anchor
    ensures bps == 0 ==> Left(anchor, bps) == anchor
    ensures Left(anchor, bps) == 0 <==> anchor == 0 || bps > (anchor - 1) * BPS
  {
    FloorAdjoint(anchor * BPS, BPS + bps, anchor + 1);
    FloorAdjoint(anchor * BPS, BPS + bps, 1);
    AddMul(anchor, 1, BPS + bps);
    AddMul(anchor, -1, BPS);
    assert anchor * (BPS + bps) == anchor * BPS + anchor * bps;
    if bps == 0 {
      DivUnique(anchor * BPS, BPS, anchor, 0);
    }
  }

  /** The exact-in fee is the anchor less `floor(anchor * BPS / (BPS + bps))`. */
  lemma ExactInFeeExact(anchor: U256, bps: nat)
    requires BPS + bps < TWO_256
    ensures Left(anchor, bps) <= anchor
    ensures ExactInFee(anchor, bps) == Ok(anchor - Left(anchor, bps))
  {
    LeftBound(anchor, bps);
    if anchor != 0 && bps != 0 {
      CeilIsRest(anchor, BPS, bps);
    }
  }

  lemma LeftAntitone(anchor: nat, bps: nat, more: nat)
    requires bps <= more
    ensures Left(anchor, more) <= Left(anchor, bps)
  {
    DivAntitone(anchor * BPS, BPS + bps, BPS + more);
  }

  /** What an exact-out rate adds to an anchor. */
  function Added(anchor: nat, bps: nat): nat { Ceil(anchor * bps, BPS) }

  lemma AddedMonotone(anchor: nat, bps: nat, more: nat)
    requires bps <= more
    ensures Added(anchor, bps) <= Added(anchor, more)
  {
    MulLe(bps, more, anchor);
    CeilMonotone(anchor * bps, anchor * more, BPS);
  }

  lemma ExactOutFeeExact(anchor: nat, bps: nat)
    ensures ExactOutFee(anchor, bps) == Narrow(Added(anchor, bps))
  {
    if anchor == 0 || bps == 0 {
      assert anchor * bps == 0;
      DivUnique(0, BPS, 0, 0);
    }
  }

  // ---- Settlement ----

  /** Outcome of an exact-in quote as a formula of its terms. */
  function ExactInOutcome(state: QuoteState, request: QuoteRequest, t: Terms): QuoteOutcome
    requires Left(t.anchor, t.feeBps) <= t.anchor
  {
    var out, fee := Left(t.anchor, t.totalBps), t.anchor - Left(t.anchor, t.feeBps);
    if t.anchor == 0 || t.totalBps > (t.anchor - 1) * BPS then Unavailable(SpreadConsumesAnchor)
    else match OutputReserve(state, request.assetOut)
      case None => Unavailable(MissingLane(request.assetOut))
      case Some(reserve) =>
        if out + fee > reserve then Unavailable(InsufficientOutputReserve(request.assetOut))
        else Available(QuoteResult(request.amount, out, request.assetOut, fee, None))
  }

  /**
   * An exact-in quote never fails once it has terms. The spread consumes the
   * anchor exactly when the total rate exceeds `(anchor - 1) * BPS`; otherwise
   * the output is `floor(anchor * BPS / (BPS + total))`.
   */
  lemma ExactInSettles(state: QuoteState, policy: QuotePolicy, request: QuoteRequest, t: Terms)
    requires request.mode.ExactIn? && policy.verifiedPartnerFeeBps.None?
    requires t.feeBps <= t.totalBps && BPS + t.totalBps < TWO_256
    ensures Left(t.anchor, t.totalBps) <= Left(t.anchor, t.feeBps) <= t.anchor
    ensures Settle(state, policy, request, t) == Ok(ExactInOutcome(state, request, t))
  {
    ExactInFeeExact(t.anchor, t.feeBps);
    ExactInFeeExact(t.anchor, t.totalBps);
    LeftAntitone(t.anchor, t.feeBps, t.totalBps);
    LeftBound(t.anchor, t.totalBps);
  }

  function ExactOutOutcome(state: QuoteState, request: QuoteRequest, t: Terms): QuoteOutcome {
    match OutputReserve(state, request.assetOut)
    case None => Unavailable(MissingLane(request.assetOut))
    case Some(reserve) =>
      if request.amount > reserve then Unavailable(InsufficientOutputReserve(request.assetOut))
      else
        Available(QuoteResult(
          t.anchor + Added(t.anchor, t.totalBps), request.amount, request.assetIn, Added(t.anchor, t.feeBps), None))
  }

  /** An exact-out quote asks for the anchor plus the rounded-up spread, and fails only if that needs 257 bits. */
  lemma ExactOutSettles(state: QuoteState, policy: QuotePolicy, request: QuoteRequest, t: Terms)
    requires request.mode.ExactOut? && policy.verifiedPartnerFeeBps.None? && t.feeBps <= t.totalBps
    ensures Added(t.anchor, t.feeBps) <= Added(t.anchor, t.totalBps)
    ensures Settle(state, policy, request, t) ==
      if t.anchor + Added(t.anchor, t.totalBps) < TWO_256 then Ok(ExactOutOutcome(state, request, t)) else Err(Overflow)
  {
    ExactOutFeeExact(t.anchor, t.feeBps);
    ExactOutFeeExact(t.anchor, t.totalBps);
    AddedMonotone(t.anchor, t.feeBps, t.totalBps);
  }

  // ---- When the spread consumes the anchor ----

  lemma QuoteIsSettlement(request: QuoteRequest, block: nat, state: QuoteState, policy: QuotePolicy, t: Terms)
    requires TermsFor(request, block, state, policy.whitelisted) == Ok(Ok(t))
    ensures QuoteFor(request, block, state, policy) == Settle(state, policy, request, t)
  {
  }

  lemma OutcomeConsumes(state: QuoteState, request: QuoteRequest, t: Terms)
    requires WellPriced(t, MaxTotalBps(request, state)) && Left(t.anchor, t.feeBps) <= t.anchor
    ensures ExactInOutcome(state, request, t) == Unavailable(SpreadConsumesAnchor) <==>
      t.totalBps > (t.anchor - 1) * BPS
    ensures t.totalBps > (t.anchor - 1) * BPS ==> t.anchor < (if IsDirect(request, state) then 3 else 4)
    ensures ExactInOutcome(state, request, t).Available? ==>
      ExactInOutcome(state, request, t).result.amountOut == Div(t.anchor * BPS, BPS + t.totalBps)
  {
  }

  /** A partner share changes neither a refusal nor the amounts. */
  lemma PolicyOnlyAllocates(state: QuoteState, policy: QuotePolicy, request: QuoteRequest, t: Terms)
    requires Settle(state, Base(policy), request, t).Ok?
    ensures var base := Settle(state, Base(policy), request, t).value;
      if base.Unavailable? then Settle(state, policy, request, t) == Ok(base)
      else Settle(state, policy, request, t).Ok? ==>
        Settle(state, policy, request, t) ==
          Ok(Available(base.result.(feeAllocation := Settle(state, policy, request, t).value.result.feeAllocation)))
  {
  }

  /**
   * Under every policy the refusal happens exactly when the total rate exceeds
   * `(anchor - 1) * BPS`, hence never for a direct anchor of three or more nor a
   * routed one of four or more; otherwise the output is the rounded-down share
   * of the anchor. Only a partner share can make the quote fail after that.
   */
  lemma SpreadConsumesExactly(request: QuoteRequest, block: nat, state: QuoteState, policy: QuotePolicy, t: Terms)
    requires request.mode.ExactIn? && TermsFor(request, block, state, policy.whitelisted) == Ok(Ok(t))
    ensures var q := QuoteFor(request, block, state, policy);
      && (q == Ok(Unavailable(SpreadConsumesAnchor)) <==> t.totalBps > (t.anchor - 1) * BPS)
      && (q == Ok(Unavailable(SpreadConsumesAnchor)) ==> t.anchor < (if IsDirect(request, state) then 3 else 4))
      && (q.Ok? && q.value.Available? ==> q.value.result.amountOut == Div(t.anchor * BPS, BPS + t.totalBps))
      && (policy.verifiedPartnerFeeBps.None? ==> q.Ok?)
  {
    QuoteIsSettlement(request, block, state, policy, t);
    ExactInSettles(state, Base(policy), request, t);
    OutcomeConsumes(state, request, t);
    PolicyOnlyAllocates(state, policy, request, t);
    assert policy.verifiedPartnerFeeBps.None? ==> policy == Base(policy);
  }

  // ---- Value ----

  /** Worth of an amount in one snapshot: cash counts at WAD, an asset at its lane's price. */
  function Worth(state: QuoteState, asset: Address, amount: nat): nat {
    if asset == state.cash then amount * WAD
    else if asset in state.lanes then amount * Slot0.Price(state.lanes[asset].slot0)
    else 0
  }

  lemma WorthMonotone(state: QuoteState, asset: Address, a: nat, b: nat)
    requires a <= b
    ensures Worth(state, asset, a) <= Worth(state, asset, b)
  {
    if asset == state.cash {
      MulLe(a, b, WAD);
    } else if asset in state.lanes {
      MulLe(a, b, Slot0.Price(state.lanes[asset].slot0));
    }
  }

  lemma DirectAnchorWorth(price: nat, request: QuoteRequest, cashToAsset: bool)
    requires DirectAnchor(price, request, cashToAsset).Ok? && DirectAnchor(price, request, cashToAsset).value > 0
    ensures var anchor := DirectAnchor(price, request, cashToAsset).value;
      if request.mode.ExactIn?
      then SideValue(price, anchor, !cashToAsset) <= SideValue(price, request.amount, cashToAsset)
      else SideValue(price, request.amount, !cashToAsset) <= SideValue(price, anchor, cashToAsset)
  {
    var anchor := DirectAnchor(price, request, cashToAsset).value;
    if request.mode.ExactIn? {
      ExactInIsLargest(price, request.amount, cashToAsset, anchor);
    } else {
      ExactOutIsSmallest(price, request.amount, cashToAsset, anchor);
    }
  }

  lemma RouteAnchorWorth(inputPrice: nat, outputPrice: nat, request: QuoteRequest)
    requires RouteAnchor(inputPrice, outputPrice, request).Ok?
    requires RouteAnchor(inputPrice, outputPrice, request).value.1 > 0
    ensures var anchor := RouteAnchor(inputPrice, outputPrice, request).value.1;
      if request.mode.ExactIn? then anchor * outputPrice <= request.amount * inputPrice
      else request.amount * outputPrice <= anchor * inputPrice
  {
    var (cash, anchor) := RouteAnchor(inputPrice, outputPrice, request).value;
    if request.mode.ExactIn? {
      if inputPrice == 0 {
        ZeroFlows(outputPrice, anchor);
      } else {
        ExactInIsLargest(inputPrice, request.amount, false, cash);
        ExactInIsLargest(outputPrice, cash, true, anchor);
      }
    } else {
      if outputPrice != 0 {
        ExactOutIsSmallest(outputPrice, request.amount, true, cash);
        ExactOutIsSmallest(inputPrice, cash, false, anchor);
      }
    }
  }

  /** Converting nothing gives nothing. */
  lemma ZeroFlows(price: nat, anchor: nat)
    requires LaneExactIn(price, 0, true) == Ok(anchor)
    ensures anchor == 0
  {
    if price != 0 {
      DivUnique(0, price, 0, 0);
    }
  }

  /** Rounding favours the pool: an anchor is never worth more than what it is converted from. */
  lemma TermsWorth(request: QuoteRequest, block: nat, state: QuoteState, policy: QuotePolicy, t: Terms)
    requires TermsFor(request, block, state, policy.whitelisted) == Ok(Ok(t))
    ensures request.mode.ExactIn? ==>
      Worth(state, request.assetOut, t.anchor) <= Worth(state, request.assetIn, request.amount)
    ensures request.mode.ExactOut? ==>
      Worth(state, request.assetOut, request.amount) <= Worth(state, request.assetIn, t.anchor)
  {
    if request.assetOut == state.cash {
      DirectAnchorWorth(Slot0.Price(state.lanes[request.assetIn].slot0), request, false);
    } else if request.assetIn == state.cash {
      DirectAnchorWorth(Slot0.Price(state.lanes[request.assetOut].slot0), request, true);
    } else {
      RouteAnchorWorth(Slot0.Price(state.lanes[request.assetIn].slot0),
                       Slot0.Price(state.lanes[request.assetOut].slot0), request);
    }
  }

  // ---- Policies ----

  function Base(policy: QuotePolicy): QuotePolicy { QuotePolicy(policy.whitelisted, None) }

  /** The partner gets its share of the fee, rounded down, and the treasury the rest. */
  predicate SharesOut(fee: nat, bps: nat, a: FeeAllocation) {
    a.partnerFee == Div(fee * bps, BPS) && a.partnerFee + a.treasuryFee == fee
  }

  lemma SplitAddsUp(fee: nat, partnerBps: nat)
    requires SplitFee(fee, partnerBps).Ok?
    ensures var (partner, treasury) := SplitFee(fee, partnerBps).value;
      SharesOut(fee, partnerBps, FeeAllocation(partner, treasury))
  {
    if fee == 0 || partnerBps == 0 {
      assert fee * partnerBps == 0;
      DivUnique(0, BPS, 0, 0);
    }
  }

  lemma SettleSplits(state: QuoteState, policy: QuotePolicy, request: QuoteRequest, t: Terms, r: QuoteResult)
    requires Settle(state, policy, request, t) == Ok(Available(r))
    ensures Settle(state, Base(policy), request, t) == Ok(Available(r.(feeAllocation := None)))
    ensures Allocate(policy, r.feeAmount) == Ok(r.feeAllocation)
  {
  }

  /** The terms behind an available quote. */
  lemma HasTerms(request: QuoteRequest, block: nat, state: QuoteState, policy: QuotePolicy, r: QuoteResult)
    returns (t: Terms)
    requires QuoteFor(request, block, state, policy) == Ok(Available(r))
    ensures TermsFor(request, block, state, policy.whitelisted) == Ok(Ok(t))
    ensures Settle(state, policy, request, t) == Ok(Available(r))
  {
    t := TermsFor(request, block, state, policy.whitelisted).value.value;
  }

  /** A verified partner share only splits the fee: an available quote has the base amounts and its shares add up. */
  lemma PartnerShareIsNeutral(request: QuoteRequest, block: nat, state: QuoteState, policy: QuotePolicy, r: QuoteResult)
    requires QuoteFor(request, block, state, policy) == Ok(Available(r))
    ensures QuoteFor(request, block, state, Base(policy)) == Ok(Available(r.(feeAllocation := None)))
    ensures r.feeAllocation.Some? <==> policy.verifiedPartnerFeeBps.Some?
    ensures r.feeAllocation.Some? ==>
      SharesOut(r.feeAmount, policy.verifiedPartnerFeeBps.value, r.feeAllocation.value)
  {
    var t := HasTerms(request, block, state, policy, r);
    SettleSplits(state, policy, request, t, r);
    if policy.verifiedPartnerFeeBps.Some? {
      SplitAddsUp(r.feeAmount, policy.verifiedPartnerFeeBps.value);
    }
  }

  // ---- Value along quotes ----

  lemma ExactInAmounts(state: QuoteState, policy: QuotePolicy, request: QuoteRequest, t: Terms, r: QuoteResult)
    requires request.mode.ExactIn? && t.feeBps <= t.totalBps && BPS + t.totalBps < TWO_256
    requires Settle(state, policy, request, t) == Ok(Available(r))
    ensures r.amountIn == request.amount && r.amountOut == Left(t.anchor, t.totalBps)
    ensures r.amountOut + r.feeAmount <= t.anchor
  {
    SettleSplits(state, policy, request, t, r);
    ExactInSettles(state, Base(policy), request, t);
  }

  lemma ExactOutAmounts(state: QuoteState, policy: QuotePolicy, request: QuoteRequest, t: Terms, r: QuoteResult)
    requires request.mode.ExactOut? && t.feeBps <= t.totalBps
    requires Settle(state, policy, request, t) == Ok(Available(r))
    ensures r.amountOut == request.amount && r.amountIn == t.anchor + Added(t.anchor, t.totalBps)
    ensures t.anchor + r.feeAmount <= r.amountIn
  {
    SettleSplits(state, policy, request, t, r);
    ExactOutSettles(state, Base(policy), request, t);
  }

  /** Worth taken from the pool, fee included, and worth given to it. */
  ghost predicate LosesWorth(state: QuoteState, request: QuoteRequest, r: QuoteResult) {
    if request.mode.ExactIn? then
      Worth(state, request.assetOut, r.amountOut + r.feeAmount) <= Worth(state, request.assetIn, r.amountIn)
    else
      && r.feeAmount <= r.amountIn
      && Worth(state, request.assetOut, r.amountOut) <= Worth(state, request.assetIn, r.amountIn - r.feeAmount)
  }

  lemma WorthBelowAnchor(state: QuoteState, request: QuoteRequest, anchor: nat, r: QuoteResult)
    requires request.mode.ExactIn? && r.amountOut + r.feeAmount <= anchor
    requires Worth(state, request.assetOut, anchor) <= Worth(state, request.assetIn, r.amountIn)
    ensures LosesWorth(state, request, r)
    ensures Worth(state, request.assetOut, r.amountOut) <= Worth(state, request.assetIn, r.amountIn)
  {
    WorthMonotone(state, request.assetOut, r.amountOut + r.feeAmount, anchor);
    WorthMonotone(state, request.assetOut, r.amountOut, anchor);
  }

  lemma WorthAboveAnchor(state: QuoteState, request: QuoteRequest, anchor: nat, r: QuoteResult)
    requires request.mode.ExactOut? && anchor + r.feeAmount <= r.amountIn
    requires Worth(state, request.assetOut, r.amountOut) <= Worth(state, request.assetIn, anchor)
    ensures LosesWorth(state, request, r)
    ensures Worth(state, request.assetOut, r.amountOut) <= Worth(state, request.assetIn, r.amountIn)
  {
    WorthMonotone(state, request.assetIn, anchor, r.amountIn - r.feeAmount);
    WorthMonotone(state, request.assetIn, anchor, r.amountIn);
  }

  /**
   * Under every policy, mode and route an available quote gives no more worth
   * than it takes, even after the fee is added to the output it was taken from
   * or removed from the input it was added to.
   */
  lemma QuoteLosesWorth(request: QuoteRequest, block: nat, state: QuoteState, policy: QuotePolicy, r: QuoteResult)
    requires QuoteFor(request, block, state, policy) == Ok(Available(r))
    ensures LosesWorth(state, request, r)
    ensures Worth(state, request.assetOut, r.amountOut) <= Worth(state, request.assetIn, r.amountIn)
  {
    var t := HasTerms(request, block, state, policy, r);
    TermsWorth(request, block, state, policy, t);
    if request.mode.ExactIn? {
      ExactInAmounts(state, policy, request, t, r);
      WorthBelowAnchor(state, request, t.anchor, r);
    } else {
      ExactOutAmounts(state, policy, request, t, r);
      WorthAboveAnchor(state, request, t.anchor, r);
    }
  }

  /** One executed quote against a snapshot. */
  datatype Hop = Hop(request: QuoteRequest, block: nat, policy: QuotePolicy, result: QuoteResult)

  /** Available quotes against one snapshot, each spending at most what the one before it paid out. */
  ghost predicate IsChainOfQuotes(state: QuoteState, hops: seq<Hop>) {
    && (forall i :: 0 <= i < |hops| ==>
          QuoteFor(hops[i].request, hops[i].block, state, hops[i].policy) == Ok(Available(hops[i].result)))
    && (forall i, j :: 0 <= i < j < |hops| && j == i + 1 ==>
          && hops[j].request.assetIn == hops[i].request.assetOut
          && hops[j].result.amountIn <= hops[i].result.amountOut)
  }

  /** Along any finite chain of quotes worth never increases. */
  lemma {:induction false} ChainLosesWorth(state: QuoteState, hops: seq<Hop>)
    requires hops != [] && IsChainOfQuotes(state, hops)
    ensures var first, last := hops[0], hops[|hops| - 1];
      Worth(state, last.request.assetOut, last.result.amountOut)
      <= Worth(state, first.request.assetIn, first.result.amountIn)
    decreases |hops|
  {
    var n := |hops| - 1;
    var last := hops[n];
    QuoteLosesWorth(last.request, last.block, state, last.policy, last.result);
    if n > 0 {
      ChainPrefix(state, hops, n);
      ChainLosesWorth(state, hops[..n]);
      WorthMonotone(state, last.request.assetIn, last.result.amountIn, hops[n - 1].result.amountOut);
    }
  }

  lemma ChainPrefix(state: QuoteState, hops: seq<Hop>, n: nat)
    requires IsChainOfQuotes(state, hops) && n <= |hops|
    ensures IsChainOfQuotes(state, hops[..n])
  {
  }

  /** So no cycle of quotes returns more of an asset than it started with. */
  lemma CycleReturnsNoMore(state: QuoteState, hops: seq<Hop>)
    requires hops != [] && IsChainOfQuotes(state, hops)
    requires hops[0].request.assetIn == hops[|hops| - 1].request.assetOut
    ensures hops[|hops| - 1].result.amountOut <= hops[0].result.amountIn
  {
    var first, last := hops[0], hops[|hops| - 1];
    ChainLosesWorth(state, hops);
    var asset := first.request.assetIn;
    if asset == state.cash {
      MulLeInv(last.result.amountOut, first.result.amountIn, WAD);
    } else {
      AvailableIsLive(first.request, first.block, state, first.policy, first.result);
      MulLeInv(last.result.amountOut, first.result.amountIn, Slot0.Price(state.lanes[asset].slot0));
    }
  }

  lemma RoutePriced(p: nat, q: nat, request: QuoteRequest)
    requires RouteAnchor(p, q, request).Ok? && RouteAnchor(p, q, request).value.1 > 0
    ensures p > 0 && q > 0
  {
    if p == 0 && q != 0 {
      DivUnique(0, q, 0, 0);
    }
    if q == 0 && p != 0 {
      DivUnique(0, p, 0, 0);
    }
  }

  /** The lane's record exists, is not paused, has a price and has not expired. */
  predicate Live(state: QuoteState, asset: Address, block: nat) {
    && asset in state.lanes
    && var f := Slot0.Decode(state.lanes[asset].slot0);
      f.exists_ && !f.paused && 0 < f.price && block <= f.latestUpdateBlock + f.blockDelay
  }

  /** An available quote has a live lane behind each asset that is not cash. */
  lemma AvailableIsLive(request: QuoteRequest, block: nat, state: QuoteState, policy: QuotePolicy, r: QuoteResult)
    requires QuoteFor(request, block, state, policy) == Ok(Available(r))
    ensures request.assetIn != state.cash ==> Live(state, request.assetIn, block)
    ensures request.assetOut != state.cash ==> Live(state, request.assetOut, block)
  {
    var t := HasTerms(request, block, state, policy, r);
    if request.assetOut != state.cash && request.assetIn != state.cash {
      RoutePriced(Slot0.Price(state.lanes[request.assetIn].slot0),
                  Slot0.Price(state.lanes[request.assetOut].slot0), request);
    }
  }

  // ---- Adjoint modes through a route ----

  predicate NeedsAtMost(legs: Result<(U256, U256), MathError>, x: nat) { legs.Ok? && legs.value.1 <= x }

  predicate GivesAtLeast(legs: Result<(U256, U256), MathError>, y: nat) { legs.Err? || y <= legs.value.1 }

  /**
   * Through both legs of a route the modes stay adjoint: the input needed for
   * output y is at most x exactly when y is at most the output obtained from x.
   * With an overflow counting as too large, this holds if and only if not both
   * intermediate cash amounts overflow.
   */
  lemma RouteAdjoint(inputPrice: nat, outputPrice: nat, give: QuoteRequest, take: QuoteRequest)
    requires 0 < inputPrice && 0 < outputPrice && give.mode.ExactIn? && take.mode.ExactOut?
    ensures (NeedsAtMost(RouteAnchor(inputPrice, outputPrice, take), give.amount)
        <==> GivesAtLeast(RouteAnchor(inputPrice, outputPrice, give), take.amount))
      <==> (LaneExactIn(inputPrice, give.amount, false).Ok? || LaneExactOut(outputPrice, take.amount, true).Ok?)
  {
    var x, y := give.amount, take.amount;
    var cashIn, cashOut := LaneExactIn(inputPrice, x, false), LaneExactOut(outputPrice, y, true);
    if cashOut.Ok? {
      LaneAdjoint(inputPrice, false, x, cashOut.value);
    }
    if cashIn.Ok? {
      LaneAdjoint(outputPrice, true, cashIn.value, y);
    }
  }

  lemma LegsOverflow(price: nat, amount: nat)
    requires price == 4 * WAD && amount == TWO_256 - 1
    ensures LaneExactIn(price, amount, false).Err? && LaneExactOut(price, amount, true).Err?
  {
    DivUnique(amount * price, WAD, 4 * amount, 0);
    CeilAdjoint(amount * price, WAD, 4 * amount - 1);
  }

  /** Two lanes at four cash per unit and the largest amounts: both legs overflow and the modes are not adjoint. */
  lemma RouteNotAdjoint(price: nat, give: QuoteRequest, take: QuoteRequest)
    requires price == 4 * WAD && give.mode.ExactIn? && take.mode.ExactOut?
    requires give.amount == take.amount == TWO_256 - 1
    ensures !(NeedsAtMost(RouteAnchor(price, price, take), give.amount)
              <==> GivesAtLeast(RouteAnchor(price, price, give), take.amount))
  {
    LegsOverflow(price, give.amount);
    RouteAdjoint(price, price, give, take);
  }
}
