/**
 * What a quote is priced from, in terms of the decoded lanes and integer
 * arithmetic only: which fee, which slippage, which anchor, and why there is none.
 */
module QuoteTerms {
  import opened Chain
  import opened Integers
  import opened Arithmetic
  import opened Fees
  import opened Quote
  import opened QuoteLaws
  import Slot0

  function Fields(lane: LaneState): Slot0.LaneSlot0 { Slot0.Decode(lane.slot0) }

  function CashValue(amount: nat, price: nat): nat { Div(amount * price, WAD) }

  /** The lane's principal in cash. */
  function PrincipalValue(lane: LaneState): nat { CashValue(lane.totalPrincipalAmount, Fields(lane).price) }

  /** The fee a class of router pays, for every multiplier. */
  function RouterFee(whitelisted: bool, multiplier: nat, feeBps: nat): nat {
    Min(Min(feeBps, BPS) * (if whitelisted then 1 else multiplier), BPS)
  }

  /** Slippage of an amount of cash against a principal: rounded up once, then capped. */
  function Slippage(cash: nat, principal: nat, k: nat): nat
    requires 0 < principal
  {
    Min(Ceil(cash * k, 10 * principal), MAX_SLIPPAGE_BPS)
  }

  /** The lane of a direct quote. */
  function DirectAsset(request: QuoteRequest, state: QuoteState): Address {
    if request.assetIn == state.cash then request.assetOut else request.assetIn
  }

  // ---- Direct quotes ----

  lemma PrincipalIs(lane: LaneState)
    requires PrincipalCashValue(lane).Ok?
    ensures PrincipalCashValue(lane).value == PrincipalValue(lane)
  {
    if lane.totalPrincipalAmount == 0 || Fields(lane).price == 0 {
      assert lane.totalPrincipalAmount * Fields(lane).price == 0;
      DivUnique(0, WAD, 0, 0);
    }
  }

  lemma SlippageIs(cash: nat, principal: nat, k: nat)
    requires 0 < principal && LaneSlippageBps(cash, principal, k).Ok?
    ensures LaneSlippageBps(cash, principal, k).value == Slippage(cash, principal, k)
  {
    SlippageIsOneCeiling(cash, principal, k);
    assert principal * SLIPPAGE_SCALE == 10 * principal;
  }

  lemma RouterFeeIs(whitelisted: bool, multiplier: U256, feeBps: nat)
    ensures FeeForRouter(whitelisted, multiplier, feeBps) == Ok(RouterFee(whitelisted, multiplier, feeBps))
  {
    RouterFeeExact(whitelisted, multiplier, feeBps);
  }

  lemma DirectRates(state: QuoteState, whitelisted: bool, request: QuoteRequest, asset: Address, lane: LaneState,
                    toAsset: bool, t: Terms)
    requires DirectTerms(state, whitelisted, request, asset, lane, toAsset) == Ok(Ok(t))
    ensures 0 < PrincipalValue(lane)
    ensures var f := Fields(lane);
      && t.feeBps
        == RouterFee(whitelisted, state.blacklistFeeMultiplier, if toAsset then f.askFeeBps else f.bidFeeBps)
      && t.totalBps == t.feeBps
        + Slippage(if toAsset == request.mode.ExactIn? then request.amount else t.anchor, PrincipalValue(lane),
                   f.slippageKBps)
  {
    var f := Fields(lane);
    PrincipalIs(lane);
    RouterFeeIs(whitelisted, state.blacklistFeeMultiplier, if toAsset then f.askFeeBps else f.bidFeeBps);
    SlippageIs(if toAsset == request.mode.ExactIn? then request.amount else t.anchor, PrincipalValue(lane),
               f.slippageKBps);
  }

  /**
   * The terms of a direct quote. Buying with cash pays the lane's ask fee and
   * selling for cash its bid fee; slippage is that of the cash side of the swap.
   */
  lemma DirectTermsExact(request: QuoteRequest, block: nat, state: QuoteState, whitelisted: bool, t: Terms)
    requires TermsFor(request, block, state, whitelisted) == Ok(Ok(t)) && IsDirect(request, state)
    ensures DirectAsset(request, state) in state.lanes
    ensures var lane := state.lanes[DirectAsset(request, state)];
      var f, buying := Fields(lane), request.assetIn == state.cash;
      && 0 < f.price && 0 < PrincipalValue(lane)
      && (request.mode.ExactIn? ==>
            t.anchor == if buying then Div(request.amount * WAD, f.price) else Div(request.amount * f.price, WAD))
      && (request.mode.ExactOut? ==>
            t.anchor == if buying then Ceil(request.amount * f.price, WAD) else Ceil(request.amount * WAD, f.price))
      && t.feeBps
        == RouterFee(whitelisted, state.blacklistFeeMultiplier, if buying then f.askFeeBps else f.bidFeeBps)
      && t.totalBps == t.feeBps
        + Slippage(if buying == request.mode.ExactIn? then request.amount else t.anchor, PrincipalValue(lane),
                   f.slippageKBps)
  {
    var asset, buying := DirectAsset(request, state), request.assetIn == state.cash;
    DirectRates(state, whitelisted, request, asset, state.lanes[asset], buying, t);
  }

  // ---- Routed quotes ----

  /** The cash between the two legs of a route. */
  function RouteCash(request: QuoteRequest, inPrice: nat, outPrice: nat): nat {
    if request.mode.ExactIn? then Div(request.amount * inPrice, WAD) else Ceil(request.amount * outPrice, WAD)
  }

  /** Both lanes' slippage factors weighted by their principals, each part rounded up. */
  function PooledK(p1: nat, k1: nat, p2: nat, k2: nat): nat
    requires 0 < p1 + p2
  {
    Min(Ceil(p1 * k1, p1 + p2) + Ceil(p2 * k2, p1 + p2), BPS)
  }

  lemma RouteSlippageIs(a: LaneState, b: LaneState, p1: nat, p2: nat, cash: nat)
    requires 0 < p1 + p2 && RouteSlippage(a, b, p1, p2, cash).Ok?
    ensures RouteSlippage(a, b, p1, p2, cash).value
      == Slippage(cash, p1 + p2, PooledK(p1, Fields(a).slippageKBps, p2, Fields(b).slippageKBps))
  {
    var k1, k2 := Fields(a).slippageKBps, Fields(b).slippageKBps;
    WeightedKWithinOne(p1, k1, p2, k2);
    SlippageIs(cash, p1 + p2, PooledK(p1, k1, p2, k2));
  }

  lemma RouteRates(state: QuoteState, whitelisted: bool, request: QuoteRequest, a: LaneState, b: LaneState, t: Terms,
                   cash: nat)
    requires RouteTerms(state, whitelisted, request, a, b) == Ok(Ok(t))
    requires RouteAnchor(Fields(a).price, Fields(b).price, request).Ok?
    requires cash == RouteAnchor(Fields(a).price, Fields(b).price, request).value.0
    ensures 0 < PrincipalValue(a) && 0 < PrincipalValue(b)
    ensures t.feeBps == RouterFee(whitelisted, state.blacklistFeeMultiplier, Fields(a).bidFeeBps)
        + RouterFee(whitelisted, state.blacklistFeeMultiplier, Fields(b).askFeeBps)
    ensures var p1, p2 := PrincipalValue(a), PrincipalValue(b);
      t.totalBps == t.feeBps
        + 2 * Slippage(cash, p1 + p2, PooledK(p1, Fields(a).slippageKBps, p2, Fields(b).slippageKBps))
  {
    PrincipalIs(a);
    PrincipalIs(b);
    RouterFeeIs(whitelisted, state.blacklistFeeMultiplier, Fields(a).bidFeeBps);
    RouterFeeIs(whitelisted, state.blacklistFeeMultiplier, Fields(b).askFeeBps);
    RouteSlippageIs(a, b, PrincipalValue(a), PrincipalValue(b), cash);
  }

  lemma RouteAnchorIs(inPrice: nat, outPrice: nat, request: QuoteRequest)
    requires RouteAnchor(inPrice, outPrice, request).Ok? && RouteAnchor(inPrice, outPrice, request).value.1 > 0
    ensures 0 < inPrice && 0 < outPrice
    ensures var cash := RouteCash(request, inPrice, outPrice);
      RouteAnchor(inPrice, outPrice, request).value
        == (cash, if request.mode.ExactIn? then Div(cash * WAD, outPrice) else Ceil(cash * WAD, inPrice))
  {
    RoutePriced(inPrice, outPrice, request);
  }

  /**
   * The terms of a route. It pays the input lane's bid fee and the output lane's
   * ask fee, and twice the slippage of the cash between the legs against both
   * principals together.
   */
  lemma RouteTermsExact(request: QuoteRequest, block: nat, state: QuoteState, whitelisted: bool, t: Terms)
    requires TermsFor(request, block, state, whitelisted) == Ok(Ok(t)) && !IsDirect(request, state)
    ensures request.assetIn in state.lanes && request.assetOut in state.lanes
    ensures var a, b := state.lanes[request.assetIn], state.lanes[request.assetOut];
      var f, g := Fields(a), Fields(b);
      var p1, p2 := PrincipalValue(a), PrincipalValue(b);
      var cash := RouteCash(request, f.price, g.price);
      && 0 < f.price && 0 < g.price && 0 < p1 && 0 < p2
      && t.anchor == (if request.mode.ExactIn? then Div(cash * WAD, g.price) else Ceil(cash * WAD, f.price))
      && t.feeBps == RouterFee(whitelisted, state.blacklistFeeMultiplier, f.bidFeeBps)
        + RouterFee(whitelisted, state.blacklistFeeMultiplier, g.askFeeBps)
      && t.totalBps == t.feeBps + 2 * Slippage(cash, p1 + p2, PooledK(p1, f.slippageKBps, p2, g.slippageKBps))
  {
    var a, b := state.lanes[request.assetIn], state.lanes[request.assetOut];
    RouteAnchorIs(Fields(a).price, Fields(b).price, request);
    RouteRates(state, whitelisted, request, a, b, t, RouteCash(request, Fields(a).price, Fields(b).price));
  }

  // ---- Reserves ----

  /** What the pool holds of an asset. */
  function Reserve(state: QuoteState, asset: Address): nat
    requires asset == state.cash || asset in state.lanes
  {
    if asset == state.cash then state.cashReserve else state.lanes[asset].assetReserve
  }

  /** What a quote draws on the reserve: its output, and for exact-in also its fee. */
  function Draws(request: QuoteRequest, t: Terms): int {
    if request.mode.ExactIn? then Left(t.anchor, t.totalBps) + (t.anchor - Left(t.anchor, t.feeBps)) else request.amount
  }

  lemma OutputLane(request: QuoteRequest, block: nat, state: QuoteState, whitelisted: bool)
    requires TermsFor(request, block, state, whitelisted).Ok? && TermsFor(request, block, state, whitelisted).value.Ok?
    ensures request.assetOut == state.cash || request.assetOut in state.lanes
  {
  }

  /** The reserve of the output asset decides: what is quoted is covered, and only what is not covered is refused. */
  lemma ReserveDecides(request: QuoteRequest, block: nat, state: QuoteState, policy: QuotePolicy, t: Terms)
    requires policy.verifiedPartnerFeeBps.None? && TermsFor(request, block, state, policy.whitelisted) == Ok(Ok(t))
    requires QuoteFor(request, block, state, policy).Ok?
    ensures request.assetOut == state.cash || request.assetOut in state.lanes
    ensures var q := QuoteFor(request, block, state, policy).value;
      && (q == Unavailable(InsufficientOutputReserve(request.assetOut)) <==>
            q != Unavailable(SpreadConsumesAnchor) && Draws(request, t) > Reserve(state, request.assetOut))
      && (q.Available? ==>
            Draws(request, t) == q.result.amountOut + (if request.mode.ExactIn? then q.result.feeAmount else 0))
  {
    OutputLane(request, block, state, policy.whitelisted);
    QuoteIsSettlement(request, block, state, policy, t);
    if request.mode.ExactIn? {
      ExactInSettles(state, policy, request, t);
    } else {
      ExactOutSettles(state, policy, request, t);
    }
  }

  // ---- Why there is no quote ----

  /** A lane that exists, is not paused and has not expired. */
  predicate Open(state: QuoteState, asset: Address, block: nat) {
    && asset in state.lanes
    && var f := Fields(state.lanes[asset]);
      f.exists_ && !f.paused && block <= f.latestUpdateBlock + f.blockDelay
  }

  /** For every 64-bit block a lane is refused exactly when it is not open. */
  lemma LaneOpenExactly(state: QuoteState, asset: Address, block: nat)
    requires block <= U64_MAX
    ensures LaneOrReason(state, asset, block).Ok? <==> Open(state, asset, block)
  {
  }

  predicate Trades(request: QuoteRequest, state: QuoteState, asset: Address) {
    asset != state.cash && (asset == request.assetIn || asset == request.assetOut)
  }

  /** No price is set, or what comes in buys less than one unit. */
  predicate DirectWorthNothing(price: nat, request: QuoteRequest, buying: bool) {
    price == 0
    || (request.mode.ExactIn? && if buying then request.amount * WAD < price else request.amount * price < WAD)
  }

  predicate RouteWorthNothing(p: nat, q: nat, request: QuoteRequest) {
    p == 0 || q == 0 || (request.mode.ExactIn? && RouteCash(request, p, q) * WAD < q)
  }

  predicate WorthNothing(request: QuoteRequest, state: QuoteState) {
    if IsDirect(request, state) then
      && DirectAsset(request, state) in state.lanes
      && DirectWorthNothing(Fields(state.lanes[DirectAsset(request, state)]).price, request,
                            request.assetIn == state.cash)
    else
      && request.assetIn in state.lanes && request.assetOut in state.lanes
      && RouteWorthNothing(Fields(state.lanes[request.assetIn]).price, Fields(state.lanes[request.assetOut]).price,
                           request)
  }

  /** The condition behind a reason. */
  predicate Due(request: QuoteRequest, block: nat, state: QuoteState, reason: UnavailableReason) {
    match reason
    case ZeroAmount => request.amount == 0
    case EqualAssets => request.assetIn == request.assetOut
    case MissingLane(a) => Trades(request, state, a) && (a in state.lanes ==> !Fields(state.lanes[a]).exists_)
    case PausedLane(a) => Trades(request, state, a) && a in state.lanes && Fields(state.lanes[a]).paused
    case StaleLane(a) =>
      && Trades(request, state, a) && a in state.lanes
      && block > Fields(state.lanes[a]).latestUpdateBlock + Fields(state.lanes[a]).blockDelay
    case ZeroPrincipal(a) => Trades(request, state, a) && a in state.lanes && PrincipalValue(state.lanes[a]) == 0
    case ZeroAnchor => WorthNothing(request, state)
    case SpreadConsumesAnchor => request.mode.ExactIn?
    case InsufficientOutputReserve(a) => a == request.assetOut
  }

  lemma FloorIsZero(x: nat, d: nat)
    requires 0 < d
    ensures Div(x, d) == 0 <==> x < d
  {
    FloorAdjoint(x, d, 1);
  }

  lemma CeilIsZero(x: nat, d: nat)
    requires 0 < d
    ensures Ceil(x, d) == 0 <==> x == 0
  {
    CeilAdjoint(x, d, 0);
  }

  lemma ZeroAnchorDirect(price: nat, request: QuoteRequest, toAsset: bool)
    requires 0 < price && 0 < request.amount && DirectAnchor(price, request, toAsset) == Ok(0)
    ensures DirectWorthNothing(price, request, toAsset)
  {
    FloorIsZero(request.amount * WAD, price);
    FloorIsZero(request.amount * price, WAD);
    CeilIsZero(request.amount * price, WAD);
    CeilIsZero(request.amount * WAD, price);
    MulPositive(request.amount, price);
  }

  lemma MulPositive(x: nat, y: nat)
    requires 0 < x && 0 < y
    ensures 0 < x * y
  {
    MulLe(1, y, x);
  }

  lemma ZeroAnchorRoute(p: nat, q: nat, request: QuoteRequest)
    requires 0 < p && 0 < q && 0 < request.amount
    requires RouteAnchor(p, q, request).Ok? && RouteAnchor(p, q, request).value.1 == 0
    ensures RouteWorthNothing(p, q, request)
  {
    if request.mode.ExactIn? {
      FloorIsZero(Div(request.amount * p, WAD) * WAD, q);
    } else {
      ExactOutIsPositive(p, q, request);
    }
  }

  lemma ExactOutIsPositive(p: nat, q: nat, request: QuoteRequest)
    requires 0 < p && 0 < q && 0 < request.amount && request.mode.ExactOut? && RouteAnchor(p, q, request).Ok?
    ensures RouteAnchor(p, q, request).value.1 > 0
  {
    var cash := Ceil(request.amount * q, WAD);
    MulPositive(request.amount, q);
    CeilIsZero(request.amount * q, WAD);
    MulPositive(cash, WAD);
    CeilIsZero(cash * WAD, p);
  }

  lemma LaneReasonIsDue(request: QuoteRequest, block: nat, state: QuoteState, asset: Address)
    requires Trades(request, state, asset) && block <= U64_MAX && LaneOrReason(state, asset, block).Err?
    ensures Due(request, block, state, LaneOrReason(state, asset, block).error)
  {
  }

  lemma DirectReasonIsDue(request: QuoteRequest, block: nat, state: QuoteState, whitelisted: bool,
                          reason: UnavailableReason)
    requires IsDirect(request, state) && request.amount > 0 && request.assetIn != request.assetOut
    requires block <= U64_MAX && TermsFor(request, block, state, whitelisted) == Ok(Err(reason))
    ensures Due(request, block, state, reason)
  {
    var asset, buying := DirectAsset(request, state), request.assetIn == state.cash;
    if LaneOrReason(state, asset, block).Err? {
      LaneReasonIsDue(request, block, state, asset);
    } else {
      var lane := state.lanes[asset];
      assert DirectTerms(state, whitelisted, request, asset, lane, buying) == Ok(Err(reason));
      if reason.ZeroAnchor? && Fields(lane).price > 0 {
        ZeroAnchorDirect(Fields(lane).price, request, buying);
      } else if reason.ZeroPrincipal? {
        PrincipalIs(lane);
      }
    }
  }

  lemma RouteReasonIsDue(request: QuoteRequest, block: nat, state: QuoteState, whitelisted: bool,
                         reason: UnavailableReason)
    requires !IsDirect(request, state) && request.amount > 0 && request.assetIn != request.assetOut
    requires block <= U64_MAX && TermsFor(request, block, state, whitelisted) == Ok(Err(reason))
    ensures Due(request, block, state, reason)
  {
    if LaneOrReason(state, request.assetIn, block).Err? {
      LaneReasonIsDue(request, block, state, request.assetIn);
    } else if LaneOrReason(state, request.assetOut, block).Err? {
      LaneReasonIsDue(request, block, state, request.assetOut);
    } else {
      var a, b := state.lanes[request.assetIn], state.lanes[request.assetOut];
      assert RouteTerms(state, whitelisted, request, a, b) == Ok(Err(reason));
      RouteTermsReason(state, whitelisted, request, a, b, reason);
    }
  }

  lemma RouteTermsReason(state: QuoteState, whitelisted: bool, request: QuoteRequest, a: LaneState, b: LaneState,
                         reason: UnavailableReason)
    requires request.amount > 0 && RouteTerms(state, whitelisted, request, a, b) == Ok(Err(reason))
    ensures || (reason == ZeroPrincipal(request.assetIn) && PrincipalValue(a) == 0)
      || (reason == ZeroPrincipal(request.assetOut) && PrincipalValue(b) == 0)
      || (reason == ZeroAnchor && RouteWorthNothing(Fields(a).price, Fields(b).price, request))
  {
    if reason.ZeroAnchor? {
      if Fields(a).price > 0 && Fields(b).price > 0 {
        ZeroAnchorRoute(Fields(a).price, Fields(b).price, request);
      }
    } else {
      PrincipalIs(a);
      if reason != ZeroPrincipal(request.assetIn) {
        PrincipalIs(b);
      }
    }
  }

  lemma TermsReasonIsDue(request: QuoteRequest, block: nat, state: QuoteState, whitelisted: bool,
                         reason: UnavailableReason)
    requires block <= U64_MAX && TermsFor(request, block, state, whitelisted) == Ok(Err(reason))
    ensures Due(request, block, state, reason)
  {
    if request.amount > 0 && request.assetIn != request.assetOut {
      if IsDirect(request, state) {
        DirectReasonIsDue(request, block, state, whitelisted, reason);
      } else {
        RouteReasonIsDue(request, block, state, whitelisted, reason);
      }
    }
  }

  lemma HasReserve(request: QuoteRequest, block: nat, state: QuoteState, whitelisted: bool)
    requires TermsFor(request, block, state, whitelisted).Ok? && TermsFor(request, block, state, whitelisted).value.Ok?
    ensures OutputReserve(state, request.assetOut).Some?
  {
  }

  lemma SettlementReasons(state: QuoteState, policy: QuotePolicy, request: QuoteRequest, t: Terms,
                          reason: UnavailableReason)
    requires OutputReserve(state, request.assetOut).Some?
    requires Settle(state, policy, request, t) == Ok(Unavailable(reason))
    ensures reason == InsufficientOutputReserve(request.assetOut)
      || (reason == SpreadConsumesAnchor && request.mode.ExactIn?)
  {
  }

  /**
   * A quote is refused only for a reason that holds. So an open lane is never
   * reported missing, paused or stale, and a quote with a positive amount of
   * distinct assets, open lanes, prices and principals has terms unless
   * exact-in rounds to nothing.
   */
  lemma UnavailableIsDue(request: QuoteRequest, block: nat, state: QuoteState, policy: QuotePolicy,
                         reason: UnavailableReason)
    requires block <= U64_MAX && QuoteFor(request, block, state, policy) == Ok(Unavailable(reason))
    ensures Due(request, block, state, reason)
  {
    var terms := TermsFor(request, block, state, policy.whitelisted);
    if terms.value.Ok? {
      HasReserve(request, block, state, policy.whitelisted);
      SettlementReasons(state, policy, request, terms.value.value, reason);
    } else {
      TermsReasonIsDue(request, block, state, policy.whitelisted, reason);
    }
  }
}
