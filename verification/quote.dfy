/** Direct and two-leg quotes of crates/lunarbase-math/src/quote.rs. */
module Quote {
  import opened Chain
  import opened Arithmetic
  import opened Fees
  import Slot0

  type Address = nat

  datatype LaneState = LaneState(slot0: Slot0.Word, assetReserve: Slot0.u128, totalPrincipalAmount: Slot0.u128)

  datatype QuoteState = QuoteState(
    cash: Address,
    cashReserve: Slot0.u128,
    lanes: map<Address, LaneState>,
    blacklistFeeMultiplier: U256)

  datatype QuotePolicy = QuotePolicy(whitelisted: bool, verifiedPartnerFeeBps: Option<Slot0.u32>)

  datatype QuoteMode = ExactIn | ExactOut

  datatype QuoteRequest = QuoteRequest(assetIn: Address, assetOut: Address, amount: U256, mode: QuoteMode)

  datatype FeeAllocation = FeeAllocation(partnerFee: nat, treasuryFee: nat)

  datatype QuoteResult = QuoteResult(
    amountIn: nat,
    amountOut: nat,
    feeAsset: Address,
    feeAmount: nat,
    feeAllocation: Option<FeeAllocation>)

  datatype UnavailableReason =
    | ZeroAmount
    | EqualAssets
    | MissingLane(asset: Address)
    | PausedLane(asset: Address)
    | StaleLane(asset: Address)
    | ZeroPrincipal(asset: Address)
    | ZeroAnchor
    | SpreadConsumesAnchor
    | InsufficientOutputReserve(asset: Address)

  datatype QuoteOutcome = Available(result: QuoteResult) | Unavailable(reason: UnavailableReason)

  const U64_MAX: nat := 0xFFFF_FFFF_FFFF_FFFF

  function LaneOrReason(state: QuoteState, asset: Address, executionBlock: nat)
    : (r: Result<LaneState, UnavailableReason>)
    ensures r.Ok? ==> asset in state.lanes && r.value == state.lanes[asset]
  {
    if asset !in state.lanes then Err(MissingLane(asset))
    else
      var lane := state.lanes[asset];
      if !Slot0.Exists(lane.slot0) then Err(MissingLane(asset))
      else if Slot0.Paused(lane.slot0) then Err(PausedLane(asset))
      else if executionBlock > Min(Slot0.LatestUpdateBlock(lane.slot0) + Slot0.BlockDelay(lane.slot0), U64_MAX)
      then Err(StaleLane(asset))
      else Ok(lane)
  }

  function PrincipalCashValue(lane: LaneState): Result<U256, MathError> {
    if lane.totalPrincipalAmount == 0 then Ok(0)
    else LaneExactIn(Slot0.Price(lane.slot0), lane.totalPrincipalAmount, false)
  }

  function SpreadFee(anchor: nat, bps: nat, mode: QuoteMode): Result<U256, MathError> {
    if mode.ExactIn? then ExactInFee(anchor, bps) else ExactOutFee(anchor, bps)
  }

  /** The fee at its own rate, and what the total rate takes beyond it. */
  function LaneSpread(anchor: nat, feeBps: nat, totalBps: nat, mode: QuoteMode): Result<(nat, nat), MathError> {
    var fee :- SpreadFee(anchor, feeBps, mode);
    var total :- SpreadFee(anchor, totalBps, mode);
    var slippage :- CheckedSub(total, fee);
    Ok((fee, slippage))
  }

  function OutputReserve(state: QuoteState, asset: Address): Option<nat> {
    if asset == state.cash then Some(state.cashReserve)
    else if asset in state.lanes then Some(state.lanes[asset].assetReserve)
    else None
  }

  function Allocate(policy: QuotePolicy, fee: nat): Result<Option<FeeAllocation>, MathError> {
    match policy.verifiedPartnerFeeBps
    case None => Ok(None)
    case Some(bps) =>
      var (partner, treasury) :- SplitFee(fee, bps);
      Ok(Some(FeeAllocation(partner, treasury)))
  }

  /** Input and output once the spread is taken from the output or added to the input. */
  function Amounts(request: QuoteRequest, anchor: nat, totalSpread: nat): Result<(nat, nat), MathError> {
    match request.mode
    case ExactIn =>
      var out :- CheckedSub(anchor, totalSpread);
      Ok((request.amount, out))
    case ExactOut =>
      var input :- CheckedAdd(anchor, totalSpread);
      Ok((input, request.amount))
  }

  function FeeExceeds(fee: nat, reserve: nat, amountOut: nat): Result<bool, MathError> {
    var free :- CheckedSub(reserve, amountOut);
    Ok(fee > free)
  }

  /** The reserve cannot cover the output, or for exact-in the output and its fee. */
  function Insufficient(mode: QuoteMode, reserve: nat, amountOut: nat, fee: nat): Result<bool, MathError> {
    if amountOut > reserve then Ok(true)
    else if mode.ExactIn? then FeeExceeds(fee, reserve, amountOut)
    else Ok(false)
  }

  function AssembleQuote(
      state: QuoteState, policy: QuotePolicy, request: QuoteRequest,
      feeAsset: Address, anchor: nat, fee: nat, slippage: nat): Result<QuoteOutcome, MathError>
  {
    var totalSpread :- CheckedAdd(fee, slippage);
    if request.mode.ExactIn? && totalSpread >= anchor then Ok(Unavailable(SpreadConsumesAnchor))
    else
      var amounts :- Amounts(request, anchor, totalSpread);
      match OutputReserve(state, request.assetOut)
      case None => Ok(Unavailable(MissingLane(request.assetOut)))
      case Some(reserve) =>
        var insufficient :- Insufficient(request.mode, reserve, amounts.1, fee);
        if insufficient then Ok(Unavailable(InsufficientOutputReserve(request.assetOut)))
        else
          var allocation :- Allocate(policy, fee);
          Ok(Available(QuoteResult(amounts.0, amounts.1, feeAsset, fee, allocation)))
  }

  function DirectAnchor(price: nat, request: QuoteRequest, cashToAsset: bool): Result<U256, MathError> {
    if request.mode.ExactIn? then LaneExactIn(price, request.amount, cashToAsset)
    else LaneExactOut(price, request.amount, cashToAsset)
  }

  /** The cash side of a direct swap: the amount itself or its conversion. */
  function SwapCash(request: QuoteRequest, anchor: nat, cashToAsset: bool): nat {
    if cashToAsset == request.mode.ExactIn? then request.amount else anchor
  }

  /** Anchor amount, fee rate, and the rate of fee and slippage together. */
  datatype Terms = Terms(anchor: U256, feeBps: nat, totalBps: nat)

  predicate IsDirect(request: QuoteRequest, state: QuoteState) {
    request.assetIn == state.cash || request.assetOut == state.cash
  }

  /** The largest total rate: one full fee and capped slippage per leg. */
  function MaxTotalBps(request: QuoteRequest, state: QuoteState): nat {
    if IsDirect(request, state) then BPS + MAX_SLIPPAGE_BPS else 2 * (BPS + MAX_SLIPPAGE_BPS)
  }

  /** A positive anchor, a fee within the total, and a capped total rate. */
  predicate WellPriced(t: Terms, maxTotal: nat) {
    0 < t.anchor && t.feeBps <= t.totalBps <= maxTotal
  }

  /** What a quote is settled from, or the reason there is none. */
  type TermsOrReason = Result<Terms, UnavailableReason>

  /** First half of `quote_direct`: everything that does not depend on the spread. */
  function DirectTerms(
      state: QuoteState, whitelisted: bool, request: QuoteRequest,
      laneAsset: Address, lane: LaneState, cashToAsset: bool): (r: Result<TermsOrReason, MathError>)
    ensures r.Ok? && r.value.Ok? ==> WellPriced(r.value.value, BPS + MAX_SLIPPAGE_BPS)
    ensures r.Ok? && r.value.Ok? ==>
      DirectAnchor(Slot0.Price(lane.slot0), request, cashToAsset) == Ok(r.value.value.anchor)
  {
    var anchor :- DirectAnchor(Slot0.Price(lane.slot0), request, cashToAsset);
    if anchor == 0 then Ok(Err(ZeroAnchor))
    else
      var principal :- PrincipalCashValue(lane);
      if principal == 0 then Ok(Err(ZeroPrincipal(laneAsset)))
      else
        var rawFee := if cashToAsset then Slot0.AskFeeBps(lane.slot0) else Slot0.BidFeeBps(lane.slot0);
        var feeBps :- FeeForRouter(whitelisted, state.blacklistFeeMultiplier, rawFee);
        var slippage :- LaneSlippageBps(
          SwapCash(request, anchor, cashToAsset), principal, Slot0.SlippageKBps(lane.slot0));
        var totalBps :- CheckedAdd(feeBps, slippage);
        Ok(Ok(Terms(anchor, feeBps, totalBps)))
  }

  /** Intermediate cash and anchor of a two-leg route. */
  function RouteAnchor(inputPrice: nat, outputPrice: nat, request: QuoteRequest): Result<(U256, U256), MathError> {
    if request.mode.ExactIn? then
      var intermediate :- LaneExactIn(inputPrice, request.amount, false);
      var anchor :- LaneExactIn(outputPrice, intermediate, true);
      Ok((intermediate, anchor))
    else
      var intermediate :- LaneExactOut(outputPrice, request.amount, true);
      var anchor :- LaneExactOut(inputPrice, intermediate, false);
      Ok((intermediate, anchor))
  }

  function FeeAsset(request: QuoteRequest): Address {
    if request.mode.ExactIn? then request.assetOut else request.assetIn
  }

  /** First half of `quote_route`. */
  function RouteTerms(
      state: QuoteState, whitelisted: bool, request: QuoteRequest,
      inputLane: LaneState, outputLane: LaneState): (r: Result<TermsOrReason, MathError>)
    ensures r.Ok? && r.value.Ok? ==> WellPriced(r.value.value, 2 * (BPS + MAX_SLIPPAGE_BPS))
    ensures r.Ok? && r.value.Ok? ==>
      var legs := RouteAnchor(Slot0.Price(inputLane.slot0), Slot0.Price(outputLane.slot0), request);
      legs.Ok? && legs.value.1 == r.value.value.anchor
  {
    var legs :- RouteAnchor(Slot0.Price(inputLane.slot0), Slot0.Price(outputLane.slot0), request);
    if legs.1 == 0 then Ok(Err(ZeroAnchor))
    else
      var p1 :- PrincipalCashValue(inputLane);
      if p1 == 0 then Ok(Err(ZeroPrincipal(request.assetIn)))
      else
        var p2 :- PrincipalCashValue(outputLane);
        if p2 == 0 then Ok(Err(ZeroPrincipal(request.assetOut)))
        else
          var slippage :- RouteSlippage(inputLane, outputLane, p1, p2, legs.0);
          var bid :- FeeForRouter(
            whitelisted, state.blacklistFeeMultiplier, Slot0.BidFeeBps(inputLane.slot0));
          var ask :- FeeForRouter(
            whitelisted, state.blacklistFeeMultiplier, Slot0.AskFeeBps(outputLane.slot0));
          var feeBps :- CheckedAdd(bid, ask);
          var bidSide :- CheckedAdd(bid, slippage);
          var askSide :- CheckedAdd(ask, slippage);
          var totalBps :- CheckedAdd(bidSide, askSide);
          Ok(Ok(Terms(legs.1, feeBps, totalBps)))
  }

  function RouteSlippage(inputLane: LaneState, outputLane: LaneState, p1: nat, p2: nat, intermediate: nat)
    : (r: Result<U256, MathError>)
    ensures r.Ok? ==> r.value <= MAX_SLIPPAGE_BPS
  {
    var k :- WeightedSlippageK(
      p1, Slot0.SlippageKBps(inputLane.slot0), p2, Slot0.SlippageKBps(outputLane.slot0));
    PooledSlippage(intermediate, p1, p2, k)
  }

  function PooledSlippage(intermediate: nat, p1: nat, p2: nat, k: nat): (r: Result<U256, MathError>)
    ensures r.Ok? ==> r.value <= MAX_SLIPPAGE_BPS
  {
    var principal :- CheckedAdd(p1, p2);
    LaneSlippageBps(intermediate, principal, k)
  }

  function TermsFor(request: QuoteRequest, executionBlock: nat, state: QuoteState, whitelisted: bool)
    : (r: Result<TermsOrReason, MathError>)
    ensures r.Ok? && r.value.Ok? ==> WellPriced(r.value.value, MaxTotalBps(request, state))
  {
    if request.amount == 0 then Ok(Err(ZeroAmount))
    else if request.assetIn == request.assetOut then Ok(Err(EqualAssets))
    else if request.assetOut == state.cash then
      match LaneOrReason(state, request.assetIn, executionBlock)
      case Err(reason) => Ok(Err(reason))
      case Ok(lane) => DirectTerms(state, whitelisted, request, request.assetIn, lane, false)
    else if request.assetIn == state.cash then
      match LaneOrReason(state, request.assetOut, executionBlock)
      case Err(reason) => Ok(Err(reason))
      case Ok(lane) => DirectTerms(state, whitelisted, request, request.assetOut, lane, true)
    else
      match LaneOrReason(state, request.assetIn, executionBlock)
      case Err(reason) => Ok(Err(reason))
      case Ok(inputLane) =>
        match LaneOrReason(state, request.assetOut, executionBlock)
        case Err(reason) => Ok(Err(reason))
        case Ok(outputLane) => RouteTerms(state, whitelisted, request, inputLane, outputLane)
  }

  /** Second half, shared by direct and routed quotes: spread, amounts and reserves. */
  function Settle(state: QuoteState, policy: QuotePolicy, request: QuoteRequest, t: Terms)
    : Result<QuoteOutcome, MathError>
  {
    var spread :- LaneSpread(t.anchor, t.feeBps, t.totalBps, request.mode);
    AssembleQuote(state, policy, request, FeeAsset(request), t.anchor, spread.0, spread.1)
  }

  function QuoteFor(request: QuoteRequest, executionBlock: nat, state: QuoteState, policy: QuotePolicy)
    : Result<QuoteOutcome, MathError>
  {
    var terms :- TermsFor(request, executionBlock, state, policy.whitelisted);
    match terms
    case Err(reason) => Ok(Unavailable(reason))
    case Ok(t) => Settle(state, policy, request, t)
  }
}
