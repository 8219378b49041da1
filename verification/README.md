# Verified model of the LunarBase client core

This project models six parts of the LunarBase client in Dafny and proves what
they promise over every input, every run or every interleaving:

1. **Fork window and resolver.** A bounded chain of block headers with append,
   progressive-tip replacement, finality pruning and branch correction. The plain
   window is `ForkModel`; the Rust object is `ForkWindow`, the TypeScript one with
   its moving start index is `ForkWindowTs`, and both are proved to do what the
   plain window does. Runs are in `ForkRuns`, the parent-hash walk in `ForkResolver`,
   tokens committed to a changed window in `ForkTokens`.
2. **Quote arithmetic.** `Arithmetic`, `Fees` and `Quote` are the fixed-point
   formulas with their 256-bit limits; `QuoteLaws` and `QuoteTotal` hold the laws,
   `QuoteTerms` says what a quote is priced from and why there is none, and
   `QuoteShares` when a partner share can fail a quote.
3. **Packed lane word.** `Bits` and `Slot0` read and write the eleven fields by
   arithmetic, `Bitwise` shows that this is what the masks and shifts do, and
   `Slot0Runs` compares every sequence of updates with a plain record.
4. **Monad proposal lifecycle.** `Lifecycle` is one record as a function of the
   state, `LifecycleMachine` the object updated in place. Over runs, `LifecycleBudget`
   and `LifecycleLedger` are about memory, `LifecycleDelivery` and `LifecycleFinality`
   about finalized delivery, and `LifecycleBranch`, `LifecycleVisibility`,
   `LifecycleOnce`, `LifecycleOvertaken` and `LifecycleOutput` about what a consumer
   sees in every delivery mode.
5. **Readiness lease and source pump.** `Readiness` is a state machine whose steps are
   the atomic actions of any threads on the word and the flag. `Pump` is the pump with
   its own such steps among publishers, consumer, shutdown and abort; `PumpQueue`
   says what the consumer receives and `Worker` proves the readiness of that machine.
6. **Log fetch and checkpoint store.** `LogOrder` and `LogFetch` are the bisecting
   fetch and lane discovery, `Lanes` the meaning of a history of lanes; `Checkpoint` and `CheckpointStore` the ordered key and
   its compare-and-set.

`Chain`, `Integers` and `Lexicographic` hold shared types and facts.

Verify with `dafny verify dfyconfig.toml`.

## Results that qualify a promise

- A prepared head keeps the byte count of the moment it was prepared, while
  committing it tests only the tip. Finality may have moved in between: the count is
  then too high by one charge per pruned block, and right if and only if nothing was
  pruned (`StaleTokenOvercharges`, with `StaleTokenExample`).
- The resolver's answer for an unchanged tip applies if and only if no older retained
  block has the tip's hash (`NoopPlanExact`, with `SharedHashRejectsNoop`). Hashes
  naming one height each are enough.
- Connecting a source does not clear the ready flag. Two connects without a disconnect
  leave the flag standing for a connection that is gone
  (`SecondConnectLeavesStaleReady`). With nothing halfway, a connect is safe if and
  only if the flag is down (`ConnectSafeExactlyWhenNotReady`). The pump always
  disconnects first, so the worker never gets there (`WorkerReadiness`).
- A publisher that failed its re-check still has to take its flag back. Until then the
  flag can be stale with nobody between store and re-check
  (`RetractionLeavesStaleReady`), and it is stale exactly then
  (`StaleExactlyWhileRetracting`, `WorkerStaleExactlyWhileRetracting`).
- Through a two-leg route exact-in and exact-out are adjoint if and only if not both
  intermediate cash amounts overflow (`RouteAdjoint`, with `RouteNotAdjoint`).
- From a fee multiplier of one on the whitelisted class gets no worse a quote; with zero
  it gets no better a one (`WhitelistedIsNoWorse`), and can pay strictly more
  (`WhitelistedCanBeWorse`).
- Amounts below 2^128 never overflow with a base policy. Nor do they in exact-in with a
  partner share of at most all of the fee. In exact-out such a share makes the quote
  fail if and only if the base quote is available and its fee times the share needs
  257 bits (`ExactOutFailsExactly`, with `ExactOutCanFail`).
- Every log is applied at most once more often than it is taken back, unless a realtime
  proposal ends while another one is published at its height: then nobody takes its logs
  back, and a later vote applies them again (`AppliedTwiceExactly`, with
  `OvertakenIsAppliedTwice`, where a vote overtakes the executing proposal). Without a
  reorg every log is applied exactly once (`AppliedExactlyOnce`).
- The checkpoint script takes any stored value without a newline for unordered and
  replaces it. A stored value that is JSON with a newline in it is loaded whole and yet
  answers every store as stale, forever (`MultilineJsonIsStuck`). JSON is replaced if and
  only if it has no newline (`JsonReplacedExactly`), and any value if and only if it has
  none or the bytes before its first one are below the new key (`ReplacedExactly`).

## Modelling choices

- Hashes, addresses, topics and payloads are opaque values. Charges for retained
  memory are positive numbers; their exact sizes in bytes are not modelled.
- Block lookups, log providers, streams, clocks and the shutdown signal are oracles or
  free choices of the environment, so the theorems hold for all their behaviours.
- Heights are unbounded in the TypeScript window. The Rust window saturates at the
  largest 64-bit height, and the model does the same.
- Bit operations on the lane word are written as division, remainder and multiplication
  by powers of two, and combining fields that do not overlap as addition. `Bitwise`
  proves the agreement.
- A quote is split into its terms (anchor and rates) and their settlement. Every
  arithmetic failure is the one overflow error, so the order of two failing
  operations is not observable.
- Saturating additions on machine sizes in the lifecycle are plain additions: byte
  counts cannot reach the size of the address space. Its saturating subtractions are
  kept and proved never to saturate.
- A lifecycle record that reports a gap ends the lifecycle, so nothing is stated about
  the state it leaves behind.
- Threads interleave sequentially consistently. Weak compare-exchange may fail
  spuriously. The version word wraps at 64 bits, and the theorems cover fewer than
  2^63 connects and disconnects.
- Strings of the checkpoint key compare by byte value.
- The TypeScript `applyResolution` reports an incomplete replacement block before it
  looks at links or finality, the Rust one in branch order. The model keeps both.

## Model

| member | source | states |
|---|---|---|
| ForkModel.BranchErrorExact | crates/lunarbase-source-evm/src/fork.rs:322-343 | a replacement branch is accepted exactly when it is complete, on one chain, parent-linked with consecutive heights and ends at the new tip |
| ForkModel.PushHeadExact | crates/lunarbase-source-evm/src/fork.rs:158-204 | a block is appended exactly when it is the tip again, or a complete child of the tip (or the first block) within both budgets |
| ForkModel.ReplaceTipExact | crates/lunarbase-source-evm/src/fork.rs:207-249 | the tip is replaced exactly by a complete block above finality that hangs where the tip does, and nothing else changes |
| ForkModel.AdvanceExact | crates/lunarbase-source-evm/src/fork.rs:252-287 | finality moves exactly to a complete finalized block with the identity of the retained block its hash names first, unless another hash is finalized at its height |
| ForkModel.ApplyKeepsValid | crates/lunarbase-source-evm/src/fork.rs:290-343 | an accepted correction leaves a valid window that ends at the planned tip |
| ForkModel.AdvanceKeepsValid | crates/lunarbase-source-evm/src/fork.rs:252-287 | advancing finality leaves a valid window: the old one from the finalized block on, with that block exchanged for one of equal identity |
| ForkRuns.StepKeeps | crates/lunarbase-source-evm/src/fork.rs:158-343 | every operation keeps pruned and retained blocks one chain and only extends finalized history |
| ForkRuns.FinalizedHistoryIsAppendOnly | crates/lunarbase-source-evm/src/fork.rs:158-343 | between any two moments of any run, finalized history at the first is a prefix of finalized history at the second; pruned plus retained blocks are one parent-linked chain; the watermark is in front |
| ForkRuns.WatermarkIsAncestorOfLaterTips | crates/lunarbase-source-evm/src/fork.rs:252-343 | a finalized block is the ancestor of every later watermark and tip, at the same position of the history, with consecutive heights below the saturation ceiling |
| ForkWindow.CanonicalWindow.constructor | crates/lunarbase-source-evm/src/fork.rs:115-125 | a new window is empty and consistent |
| ForkWindow.CanonicalWindow.FindPosition | crates/lunarbase-source-evm/src/fork.rs:355-359 | the first retained block with a hash |
| ForkWindow.CanonicalWindow.PrepareHead | crates/lunarbase-source-evm/src/fork.rs:164-189 | succeeds and fails as the plain append does, with the byte count of the appended window, and changes nothing |
| ForkWindow.CanonicalWindow.CommitHead | crates/lunarbase-source-evm/src/fork.rs:192-204 | on a consistent window that accepts the token's block this completes the plain append, and the window stays consistent exactly when the token's byte count is that of the window as it is now |
| ForkWindow.CanonicalWindow.Push | crates/lunarbase-source-evm/src/fork.rs:158-161 | prepare and commit together are the plain append, with the window unchanged on error |
| ForkWindow.CanonicalWindow.PrepareTip | crates/lunarbase-source-evm/src/fork.rs:214-239 | accepts exactly the tip replacements the plain window accepts |
| ForkWindow.CanonicalWindow.CommitTip | crates/lunarbase-source-evm/src/fork.rs:242-249 | on a consistent window that accepts the block this completes the plain tip replacement and keeps the window consistent |
| ForkWindow.CanonicalWindow.ReplaceProgressiveTip | crates/lunarbase-source-evm/src/fork.rs:207-211 | is the plain tip replacement, with the window unchanged on error |
| ForkWindow.CanonicalWindow.Advance | crates/lunarbase-source-evm/src/fork.rs:252-287 | is the plain finality step and keeps the byte count exact |
| ForkWindow.CanonicalWindow.CheckReplacement | crates/lunarbase-source-evm/src/fork.rs:322-343 | the loop over the branch reports the first error of the plain validation |
| ForkWindow.CanonicalWindow.Apply | crates/lunarbase-source-evm/src/fork.rs:290-320 | is the plain correction, with the window unchanged on error |
| ForkTokens.StaleTokenOvercharges | crates/lunarbase-source-evm/src/fork.rs:164-204 | after any operations that leave the tip in place, a token's byte count is too high by a charge per block pruned since, so it is right exactly when nothing was pruned |
| ForkTokens.StaleTokenExample | crates/lunarbase-source-evm/src/fork.rs:164-204 | three appends, a token and a finality step after which the token counts four blocks where three are left |
| ForkResolver.WalkToWindow | crates/lunarbase-source-evm/src/fork.rs:430-486 | follows parent hashes in fewer than `max_depth` lookups and succeeds exactly when a walk within depth reaches the window |
| ForkResolver.Resolve | crates/lunarbase-source-evm/src/fork.rs:407-488 | for every lookup oracle, returns a plan exactly when the new tip is resolvable, and a plan it returns is well formed; a competing branch that hangs from a retained block and is known to the provider is planned whole; a tip at or below finality with another hash is a conflict |
| ForkResolver.CompetingReaches | crates/lunarbase-source-evm/src/fork.rs:430-486 | a branch of new blocks from any retained block, consecutive in height and within depth, lies above finality and is a walk that reaches the window at that block |
| ForkResolver.OneBlockCompetes | crates/lunarbase-source-evm/src/fork.rs:430-486 | every complete child of a retained block within depth is such a branch, whatever the provider knows |
| ForkResolver.PlanApplies | crates/lunarbase-source-evm/src/fork.rs:290-353 | a resolved plan applied to the unchanged window fails only by block or byte budget; otherwise the window is the old prefix plus the branch and ends at the new tip |
| ForkResolver.ReversedPlanRestores | crates/lunarbase-source-evm/src/fork.rs:290-343 | applying the swapped plan restores the original window exactly |
| ForkResolver.NoopPlanExact | crates/lunarbase-source-evm/src/fork.rs:290-320 | the plan that keeps the tip applies if and only if no older block has its hash |
| ForkResolver.SharedHashRejectsNoop | crates/lunarbase-source-evm/src/fork.rs:290-320 | a valid window of two blocks sharing a hash in which that plan is refused as stale |
| ForkResolver.DistinctHeightsAcceptNoop | crates/lunarbase-source-evm/src/fork.rs:290-320 | if a hash names one height the plan that keeps the tip always applies |
| ForkWindowTs.LocateSameIsStripped | packages/source-evm/src/fork.ts:164-173 | comparing blocks without event coordinates locates the same ancestor as comparing stripped blocks |
| ForkWindowTs.CanonicalWindow.constructor | packages/source-evm/src/fork.ts:69-77 | a new window is empty, consistent and starts at zero |
| ForkWindowTs.CanonicalWindow.Consistent | packages/source-evm/src/fork.ts:64-82 | a consistent window's physical array is no longer than `maxBlocks + max(1023, maxBlocks - 1)` |
| ForkWindowTs.CanonicalWindow.Length | packages/source-evm/src/fork.ts:80-82 | array length minus start index is the length of the plain window |
| ForkWindowTs.CanonicalWindow.PositionOf | packages/source-evm/src/fork.ts:201-205 | the physical index is the plain position shifted by the start index |
| ForkWindowTs.CanonicalWindow.Push | packages/source-evm/src/fork.ts:105-117 | refines the plain append |
| ForkWindowTs.CanonicalWindow.ReplaceProgressiveTip | packages/source-evm/src/fork.ts:120-130 | refines the plain tip replacement |
| ForkWindowTs.CanonicalWindow.LocateFinalized | packages/source-evm/src/fork.ts:133-155 | accepts and locates the same finalized block as the plain window, with the same errors |
| ForkWindowTs.CanonicalWindow.CompactAfterFinality | packages/source-evm/src/fork.ts:207-211 | leaves the plain window as it is and bounds the dead prefix |
| ForkWindowTs.CanonicalWindow.Advance | packages/source-evm/src/fork.ts:133-161 | refines the plain finality step, compaction included |
| ForkWindowTs.CanonicalWindow.CheckReplacement | packages/source-evm/src/fork.ts:181-193 | on complete branches reports the error of the plain validation |
| ForkWindowTs.CanonicalWindow.CheckPlan | packages/source-evm/src/fork.ts:164-199 | accepts exactly the stripped plans the plain window accepts |
| ForkWindowTs.CanonicalWindow.Apply | packages/source-evm/src/fork.ts:164-179 | refines the plain correction and keeps the array bound even when the branch shrinks |
| Arithmetic.CeilAdjoint | crates/lunarbase-math/src/arithmetic.rs:27-37 | a rounded-up quotient is at most y exactly when the dividend is at most y times the divisor |
| Arithmetic.CeilCeil | crates/lunarbase-math/src/arithmetic.rs:27-81 | two successive ceilings are one ceiling by the product |
| Fees.ExactInIsLargest | crates/lunarbase-math/src/fees.rs:15-28 | exact-in gives the most that is worth no more than the input |
| Fees.ExactOutIsSmallest | crates/lunarbase-math/src/fees.rs:34-47 | exact-out asks for the least that is worth no less than the output |
| Fees.LaneAdjoint | crates/lunarbase-math/src/fees.rs:15-47 | for every positive price and all 256-bit amounts the two conversions are adjoint, an overflow counting as too large |
| Fees.SlippageIsOneCeiling | crates/lunarbase-math/src/fees.rs:53-66 | successful slippage is one ceiling by ten times the principal, then the cap |
| Fees.WeightedKWithinOne | crates/lunarbase-math/src/fees.rs:71-84 | before its cap the weighted K is the ceiling of the weighted average or one more |
| Fees.RouterFeeExact | crates/lunarbase-math/src/fees.rs:90-106 | for every 256-bit multiplier the router fee is `min(fee * multiplier, BPS)` over the integers |
| QuoteLaws.ExactInFeeExact | crates/lunarbase-math/src/fees.rs:111-116 | what the exact-in fee leaves is `floor(anchor * BPS / (BPS + rate))` |
| QuoteLaws.ExactOutFeeExact | crates/lunarbase-math/src/fees.rs:118-123 | the exact-out fee is the rounded-up share of the anchor, and fails exactly beyond 256 bits |
| QuoteLaws.ExactInSettles | crates/lunarbase-math/src/quote.rs:48-123 | exact-in settlement as one closed formula: refusal, reserve test, output and fee; it never fails |
| QuoteLaws.ExactOutSettles | crates/lunarbase-math/src/quote.rs:48-123 | exact-out settlement as one closed formula; it fails exactly when the input needs 257 bits |
| QuoteLaws.SpreadConsumesExactly | crates/lunarbase-math/src/quote.rs:67-280 | for the terms that `QuoteTerms` gives, under every policy the spread consumes the anchor exactly when `total > (anchor - 1) * BPS`, never for a direct anchor of 3 or a routed one of 4; otherwise the output is the rounded-down share |
| QuoteLaws.TermsWorth | crates/lunarbase-math/src/quote.rs:124-216 | rounding favours the pool in every anchor, direct or routed |
| QuoteLaws.PartnerShareIsNeutral | crates/lunarbase-math/src/quote.rs:104-122 | a partner share leaves the amounts alone; the partner gets `floor(fee * share / BPS)` and the treasury the rest |
| QuoteLaws.QuoteLosesWorth | crates/lunarbase-math/src/quote.rs:295-357 | every available quote gives no more worth than it takes, fee included |
| QuoteLaws.ChainLosesWorth | crates/lunarbase-math/src/quote.rs:295-357 | along any finite chain of available quotes against one snapshot worth never increases |
| QuoteLaws.CycleReturnsNoMore | crates/lunarbase-math/src/quote.rs:295-357 | no cycle of quotes returns more of an asset than it started with |
| QuoteLaws.AvailableIsLive | crates/lunarbase-math/src/quote.rs:19-40 | behind each asset of an available quote that is not cash there is a lane that exists, is not paused, has a positive price and has not expired at the block |
| QuoteTerms.DirectTermsExact | crates/lunarbase-math/src/quote.rs:124-191 | the terms of a direct quote from the decoded lane: rounded anchor, the ask fee when buying with cash and the bid fee when selling for it, and the slippage of the cash side against the principal as one capped ceiling |
| QuoteTerms.RouteTermsExact | crates/lunarbase-math/src/quote.rs:192-280 | the terms of a route: both rounded legs, the bid fee of the input lane plus the ask fee of the output lane, and twice the slippage of the cash between them against both principals |
| QuoteTerms.ReserveDecides | crates/lunarbase-math/src/quote.rs:67-123 | a quote with terms is refused for its reserve exactly when what it draws on the output asset, for exact-in with its fee, exceeds that reserve |
| QuoteTerms.LaneOpenExactly | crates/lunarbase-math/src/quote.rs:19-40 | at every 64-bit block a lane is usable exactly when it exists, is not paused and has not passed its update block plus delay |
| QuoteTerms.UnavailableIsDue | crates/lunarbase-math/src/quote.rs:19-357 | a quote is refused only for a reason that holds, so open lanes with prices and principals have terms unless exact-in rounds to nothing |
| QuoteLaws.RouteAdjoint | crates/lunarbase-math/src/quote.rs:199-216 | the two-leg conversions are adjoint if and only if not both intermediate amounts overflow |
| QuoteLaws.RouteNotAdjoint | crates/lunarbase-math/src/quote.rs:199-216 | prices of four cash per unit and the largest amounts, for which the two modes are not adjoint |
| QuoteTotal.WhitelistedIsNoWorse | crates/lunarbase-math/src/quote.rs:150-279 | when both classes get a quote, the whitelisted one is at least as good for a multiplier of one or more, and at most as good for zero |
| QuoteTotal.QuoteNeverOverflows | crates/lunarbase-math/src/quote.rs:41-280 | for every state, block and multiplier, an amount below 2^128 with a base policy never gives an arithmetic error, direct or routed |
| QuoteShares.ShareFailsExactly | crates/lunarbase-math/src/quote.rs:67-122 | for an amount below 2^128 and every partner share, the quote fails if and only if the base quote is available and its fee cannot be split: the product needs 257 bits or the partner would get more than the fee |
| QuoteShares.SplitFeeExact | crates/lunarbase-math/src/fees.rs:129-142 | a fee can be split exactly when its product with the share fits 256 bits and the share is at most all of it |
| QuoteShares.ExactInNeverOverflows | crates/lunarbase-math/src/quote.rs:41-280 | an exact-in quote for an amount below 2^128 never gives an arithmetic error, for every partner share up to all of the fee |
| QuoteShares.ExactOutFailsExactly | crates/lunarbase-math/src/quote.rs:67-122 | an exact-out quote for an amount below 2^128 with such a share fails if and only if the base quote is available and its fee times the share needs 257 bits |
| QuoteShares.ExactOutCanFail | crates/lunarbase-math/src/quote.rs:67-122 | a snapshot and an amount below 2^128 for which the base quote is available and the one with a full partner share fails |
| QuoteShares.WhitelistedCanBeWorse | crates/lunarbase-math/src/quote.rs:150-279 | a snapshot with a multiplier of zero in which the whitelisted class pays three times what the other class pays |
| Slot0.Encode | crates/lunarbase-math/src/slot0.rs:239-276 | encoding succeeds exactly for fields within their widths |
| Slot0.DecodeEncode | crates/lunarbase-math/src/slot0.rs:83-113 | decoding an encoded record gives the record back |
| Slot0.EncodeDecode | crates/lunarbase-math/src/slot0.rs:239-276 | encoding a decoded word gives every 256-bit word back |
| Slot0.PackIsValue | crates/lunarbase-math/src/slot0.rs:239-276 | the shifted fields add up to the mixed-radix value of the record |
| Slot0.PackIsBitwise | crates/lunarbase-math/src/slot0.rs:257-276 | or-ing the fields into the word one by one gives that sum |
| Bitwise.WriteIsBitwise | crates/lunarbase-math/src/slot0.rs:67-70 | bit by bit, clearing with the inverted mask and or-ing the masked value is the arithmetic write |
| Bitwise.ReadIsBitwise | crates/lunarbase-math/src/slot0.rs:62-64 | masking the shifted word is the arithmetic read |
| Slot0.WriteDecodes | crates/lunarbase-math/src/slot0.rs:67-70 | writing a field changes that digit of the word and no other |
| Slot0.ThresholdProductsFit | crates/lunarbase-math/src/slot0.rs:306-329 | both products compared against the price-push threshold fit the 128 bits they are computed in |
| Slot0Runs.PutThresholdDecodes | crates/lunarbase-math/src/slot0.rs:187-209 | the threshold setter is refused exactly beyond its width and otherwise changes its two fields only |
| Slot0Runs.OperatorUpdateDecodes | crates/lunarbase-math/src/slot0.rs:294-329 | an operator update of the word is the update of the record, with its pause rule and errors |
| Slot0Runs.FeesRoundTrip | crates/lunarbase-math/src/slot0.rs:283-329 | a pair of fees packed for an update arrives as the ask and bid fee of the lane, with price and block |
| Slot0Runs.StepSimulates | crates/lunarbase-math/src/slot0.rs:171-329 | each setter and update commutes with decoding |
| Slot0Runs.WordSimulatesRecord | crates/lunarbase-math/src/slot0.rs:171-329 | over any sequence of updates the decoded word is the updated record |
| Slot0Runs.PausedExactlyWhenTripped | crates/lunarbase-math/src/slot0.rs:306-329 | over any sequence of updates without an explicit pause write the lane ends paused exactly when it was paused before or some accepted operator update, with the threshold enabled and a positive old price, moved the price up or down by more than that percentage |
| LifecycleMachine.ProposalLifecycle.constructor | crates/lunarbase-source-monad/src/lifecycle.rs:69-90 | a new lifecycle is unsynchronized, empty and sound |
| LifecycleMachine.StampHash | crates/lunarbase-source-monad/src/lifecycle.rs:283-285 | the loop gives every buffered log the block hash and changes nothing else |
| LifecycleMachine.ProposalLifecycle.Complete | crates/lunarbase-source-monad/src/lifecycle.rs:268-317 | the stamping loop and the index insertion do and emit what the end step says |
| LifecycleMachine.ProposalLifecycle.Drain | crates/lunarbase-source-monad/src/lifecycle.rs:447-456 | the draining loop emits the logs in order and returns their share of the budget |
| LifecycleMachine.ProposalLifecycle.PublishProposal | crates/lunarbase-source-monad/src/lifecycle.rs:415-470 | does and emits what publishing says; `LifecycleVisibility.PublishApplies` says which logs that applies |
| LifecycleMachine.ProposalLifecycle.Settle | crates/lunarbase-source-monad/src/lifecycle.rs:345-378 | publishing and the removal loop over the competitors do and emit what the finalization step says |
| LifecycleMachine.ProposalLifecycle.Accept | crates/lunarbase-source-monad/src/lifecycle.rs:92-149 | as long as no gap is reported the object keeps exact counters, limits and height index; in finalized delivery it conserves every log and emits logs only when a live proposal is finalized |
| LifecycleBudget.NeverSaturates | crates/lunarbase-source-monad/src/lifecycle.rs:345-477 | over every run no saturating subtraction, in the state it is made in, takes more than is there |
| LifecycleLedger.RecordLeads | crates/lunarbase-source-monad/src/lifecycle.rs:151-477 | the subtractions so listed are all there are: adding the log a record buffers and making them in turn, each on the counter as it then stands, leads from the counters before any accepted record to those after it |
| LifecycleLedger.RecordBalances | crates/lunarbase-source-monad/src/lifecycle.rs:151-477 | each counter after a record is the counter before it plus what the record buffers less the sum of the amounts taken |
| LifecycleLedger.CountersAreLedgers | crates/lunarbase-source-monad/src/lifecycle.rs:151-477 | over every run, all logs and bytes ever buffered are taken by a listed subtraction or still in the counter |
| LifecycleBudget.ProcessKeeps | crates/lunarbase-source-monad/src/lifecycle.rs:92-149 | every accepted record keeps the accounting and index invariant, in every delivery mode |
| LifecycleBudget.BudgetsAreExact | crates/lunarbase-source-monad/src/lifecycle.rs:151-477 | after every run both counters are the exact sums and within limits, proposals stay within theirs, the height index lists exactly the live proposals, and at most one per height is finalized |
| LifecycleDelivery.FinalizeDelivers | crates/lunarbase-source-monad/src/lifecycle.rs:345-470 | finalizing a proposal emits its logs in increasing index directly before its head |
| LifecycleDelivery.FateAtFinalization | crates/lunarbase-source-monad/src/lifecycle.rs:345-378 | a finalization empties the winner, drops its competitors and leaves other heights alone |
| LifecycleDelivery.FateElsewhere | crates/lunarbase-source-monad/src/lifecycle.rs:202-343 | in finalized delivery no other record touches a completed proposal's buffer |
| LifecycleDelivery.ProcessConserves | crates/lunarbase-source-monad/src/lifecycle.rs:202-477 | each record conserves every log, and only finalizing a live proposal emits logs |
| LifecycleDelivery.DeliveryConserves | crates/lunarbase-source-monad/src/lifecycle.rs:202-477 | over every run in finalized delivery each log handed in was applied, was discarded with a losing proposal or is still buffered; with increasing sequences it is applied at most once |
| LifecycleFinality.FinalizationIsDelivered | crates/lunarbase-source-monad/src/lifecycle.rs:345-470 | in every run the record that finalizes a live proposal emits, in one piece, its logs in increasing index directly before its head |
| LifecycleFinality.FinalizedIsAppliedOnce | crates/lunarbase-source-monad/src/lifecycle.rs:202-470 | a log held by a proposal that is finalized is applied exactly once in the whole run |
| LifecycleFinality.AppliedWasFinalized | crates/lunarbase-source-monad/src/lifecycle.rs:202-470 | a log that is applied was held by a live proposal that a record of the run finalized |
| LifecycleFinality.AppliedExactlyWhenFinalized | crates/lunarbase-source-monad/src/lifecycle.rs:202-470 | over every run a log is applied once if a proposal holding it is finalized and otherwise never |
| LifecycleFinality.AbandonedNeverApplied | crates/lunarbase-source-monad/src/lifecycle.rs:357-377 | a log held by a proposal whose competitor is finalized is never applied |
| LifecycleBranch.ProcessCoherent | crates/lunarbase-source-monad/src/lifecycle.rs:92-477 | in every delivery mode each record keeps: what is published at a height is a proposal of that height, it knows that it was announced, and buffers that need not be taken back are empty |
| LifecycleVisibility.PublishApplies | crates/lunarbase-source-monad/src/lifecycle.rs:415-470 | publishing applies a buffer exactly if its proposal is not the one shown at its height |
| LifecycleVisibility.ProcessBalances | crates/lunarbase-source-monad/src/lifecycle.rs:92-477 | in every delivery mode what a record applies it adds to what is visible, releases or orphans, and what it takes back was visible |
| LifecycleVisibility.RecordTakesBack | crates/lunarbase-source-monad/src/lifecycle/reorg.rs:6-50 | the removed logs in an output are, in order, the buffer of the proposal another one displaces, renumbered under the record and the hash of their own block |
| LifecycleOnce.AppliedIsAccountedFor | crates/lunarbase-source-monad/src/lifecycle.rs:92-477 | over every run each applied copy of a log was taken back, is visible, was released or was orphaned; of the copies handed in no more are visible or released |
| LifecycleOnce.AppliedAtMostOnceMore | crates/lunarbase-source-monad/src/lifecycle.rs:92-477 | with increasing sequences a log is applied at most once more often than it is taken back if realtime proposals end in place, and never less often if names are used once |
| LifecycleOnce.AppliedTwiceExactly | crates/lunarbase-source-monad/src/lifecycle.rs:268-470 | it is applied more often than that if and only if it was orphaned by its proposal ending out of place and is visible or released all the same |
| LifecycleOvertaken.OvertakenIsAppliedTwice | crates/lunarbase-source-monad/src/lifecycle.rs:268-470 | seven records in realtime after which a log has been applied twice and never taken back |
| LifecycleOnce.AppliedExactlyOnce | crates/lunarbase-source-monad/src/lifecycle.rs:202-470 | in realtime and block-ordered delivery, over every run without a reorg, each log handed in is applied exactly once: at once in realtime, else when its proposal ends; without removals in the output also over runs with reorgs |
| LifecycleOutput.ReorgsConnectHeads | crates/lunarbase-source-monad/src/lifecycle/reorg.rs:6-50 | over every run with names used once each reorg notice leads, at one height, from a head emitted before it to one emitted after it |
| LifecycleOutput.HeadsAreLast | crates/lunarbase-source-monad/src/lifecycle.rs:151-470 | in every run each record emits at most one head, as its last event, for its own block and with the commitment the record gives it |
| LifecycleOutput.LogsAreNumbered | crates/lunarbase-source-monad/src/lifecycle.rs:251-266 | at every moment the next log gets the number of log records since its proposal started, skipped ones included |
| Readiness.WordIncreases | crates/lunarbase-event-worker/src/metrics.rs:113-127 | a version bump raises the word and its low bit says whether a source is connected |
| Readiness.WordNamesOnePeriod | crates/lunarbase-event-worker/src/metrics.rs:113-127 | in every interleaving a word is seen again only if no connect or disconnect happened in between |
| Readiness.ReadyNamesTheConnection | crates/lunarbase-event-worker/src/metrics.rs:77-127 | for any threads whose connects follow disconnects, as `Worker.PumpIsDisciplined` shows the worker's do, ready with nothing halfway means the connected source's own lease published it |
| Readiness.StaleExactlyWhileRetracting | crates/lunarbase-event-worker/src/metrics.rs:100-111 | with nobody between store and re-check or bump and clear, a ready flag is stale exactly while its own publisher has yet to retract it |
| Readiness.RetractionLeavesStaleReady | crates/lunarbase-event-worker/src/metrics.rs:100-111 | a run in which a disconnect meets a publication and leaves such a flag |
| Worker.PumpIsDisciplined | crates/lunarbase-event-worker/src/pump.rs:83-124 | in every run of the worker from its start, what pump and publishers do to the word and the flag is a run of the lease machine in which every connect finds the word disconnected |
| Worker.WorkerReadiness | crates/lunarbase-event-worker/src/pump.rs:83-179 | in every interleaving of the pump with publishers, consumer, shutdown and abort, ready with nothing halfway means the connected source's own lease published it and its stream is open |
| Worker.WorkerStaleExactlyWhileRetracting | crates/lunarbase-event-worker/src/metrics.rs:100-111 | for that machine, with nobody between store and re-check or bump and clear, a ready flag is stale exactly while its own publisher has yet to retract it |
| Worker.ConnectedExactlyWhileServing | crates/lunarbase-event-worker/src/pump.rs:94-179 | in every run the word says connected exactly while the pump serves a stream, or is about to leave one |
| Readiness.SecondConnectLeavesStaleReady | crates/lunarbase-event-worker/src/metrics.rs:85-87 | a run with two connects in a row that ends ready for a connection that is gone |
| Readiness.ConnectSafeExactlyWhenNotReady | crates/lunarbase-event-worker/src/metrics.rs:85-92 | with nothing halfway a connect leaves a flag that is down or current if and only if the flag was down, which a disconnected word guarantees |
| Pump.TerminalIsGap | crates/lunarbase-event-worker/src/pump.rs:153-159 | the pump treats an update as terminal exactly when it will be queued as a gap |
| Pump.NormalizedFits | crates/lunarbase-event-worker/src/pump.rs:233-257 | normalization keeps the cursor and the payload of what is not made a gap, and what it lets through fits the byte capacity if the notice does |
| Worker.GapNeedsRevocation | crates/lunarbase-event-worker/src/pump.rs:155-160 | in every interleaving, when a gap enters the queue the word says disconnected, and a ready flag still up belongs to a publisher that has yet to take it back |
| Pump.AdmittedInOrder | crates/lunarbase-event-worker/src/pump.rs:75-243 | in every run each subscription's admitted updates are a contiguous prefix of its stream, a gap only at the end; earlier subscriptions were admitted whole; at most the item being sent is missing, lost only by shutdown, a closed queue or an abort |
| PumpQueue.ReceivedInOrder | crates/lunarbase-event-worker/src/pump.rs:181-231 | in every run what the consumer took followed by the open queue is all that was sent, in order, and each subscription's part of it is the normalized beginning of its stream after all earlier parts |
| PumpQueue.FailuresAreReported | crates/lunarbase-event-worker/src/pump.rs:103-119 | in every run each subscription that fails after an earlier success is reported by a gap of its own; only the last can be lost, when the pump ends |
| Pump.PermitsAreConserved | crates/lunarbase-event-worker/src/pump.rs:181-231 | in every run free permits plus held charges are the byte capacity, the gauges are exact and the queue stays within its slots |
| LogOrder.SortedIsUnique | packages/client/src/source.ts:21-40 | with distinct positions there is one order by cursor |
| LogOrder.BelowExactly | packages/client/src/source.ts:21-40 | the order is by block, transaction and log, and by the source's own numbering only without full coordinates |
| Lanes.ReplayLeaves | packages/source-evm/src/rpc.ts:546-551 | a replay leaves exactly the assets added and not removed since, each once, in the order of the additions that made them active |
| LogFetch.InitialLogRanges | packages/source-evm/src/rpc.ts:290-297 | consecutive ranges covering the request, none longer than a page |
| LogFetch.BisectKeeps | packages/source-evm/src/rpc.ts:266-271 | splitting the top range keeps the stack an in-order partition and shrinks the work left |
| LogFetch.AppendChunk | packages/source-evm/src/rpc.ts:256-265 | a chunk is added whole exactly when it is the contract's and fits both budgets |
| LogFetch.FetchPending | packages/source-evm/src/rpc.ts:244-272 | the stack is always an in-order partition of the unfetched blocks and the loop ends with every log once, for every rejection pattern |
| LogFetch.GetLogs | packages/source-evm/src/rpc.ts:230-275 | a result is the sorted logs of the whole range, each once, within budget; it is reached whenever only splittable ranges are rejected and the logs fit |
| LogFetch.ReplayPage | packages/source-evm/src/rpc.ts:546-551 | the loop over a page turns the lanes of any past history into the lanes of that history with the sorted page appended |
| LogFetch.ResolveLaneAssets | packages/source-evm/src/rpc.ts:530-555 | for every page size discovery gives exactly the assets added and not removed since over the full history in cursor order, each once, by activation; that order is unique when no two logs share a position |
| Checkpoint.DecimalOrder | crates/lunarbase-indexer/src/checkpoint.rs:168-180 | zero-padded decimals of one width compare as their numbers |
| Checkpoint.FormatOrder | crates/lunarbase-indexer/src/checkpoint.rs:168-180 | byte order of colon-separated keys is the numeric order of their fields |
| Checkpoint.OrderIsNumeric | crates/lunarbase-indexer/src/checkpoint.rs:168-180 | byte order of the key is the numeric order of the cursor tuple |
| Checkpoint.TupleOrder | crates/lunarbase-indexer/src/checkpoint.rs:168-180 | the tuple order is by block, execution block, blocks before their events, then transaction and log (or the source's own numbering), then commitment |
| Checkpoint.TupleFits | crates/lunarbase-client/src/model.rs:133-150 | every field of a native cursor fits its width in the key |
| CheckpointStore.JsonRoundTrip | crates/lunarbase-indexer/src/checkpoint.rs:149-166 | stripping the prefix gives back exactly the payload's JSON, and an empty one is an error |
| CheckpointStore.RedisCheckpointStore.Store | crates/lunarbase-indexer/src/checkpoint.rs:111-146 | afterwards the key holds the latest of all checkpoints handed in; success is reported exactly when the new one is beyond every earlier one, and otherwise nothing changes |
| CheckpointStore.RedisCheckpointStore.Load | crates/lunarbase-indexer/src/checkpoint.rs:88-109 | nothing before the first store, then the JSON of the latest checkpoint, or an error if that is empty |
| CheckpointStore.StoreCompares | crates/lunarbase-indexer/src/checkpoint.rs:15-35 | storing over a checkpoint compares cursor tuples: newer replaces, identical is unchanged, anything else is stale |
| CheckpointStore.KeepsTheLatest | crates/lunarbase-indexer/src/checkpoint.rs:111-166 | after any stores into an empty key it holds the earliest of those with the greatest cursor, and its JSON reads back |
| CheckpointStore.LatestIsStored | crates/lunarbase-indexer/src/checkpoint.rs:111-166 | whichever checkpoint is the latest is the one stored and read back |
| CheckpointStore.StoredExactlyWhenNewer | crates/lunarbase-indexer/src/checkpoint.rs:111-146 | a store reports success exactly when its cursor is beyond every earlier one, and otherwise changes nothing |
| CheckpointStore.ReplacedExactly | crates/lunarbase-indexer/src/checkpoint.rs:15-35 | any stored value is replaced exactly when it has no newline or the bytes before its first newline are below the new key; it is reported unchanged exactly when it is the new payload, and kept unless replaced |
| CheckpointStore.JsonReplacedExactly | crates/lunarbase-indexer/src/checkpoint.rs:15-35 | a value that starts as JSON loads whole; it is replaced whatever the cursor if it has no newline, and otherwise kept and the store reported as stale |
| CheckpointStore.UnorderedIsForgotten | crates/lunarbase-indexer/src/checkpoint.rs:21-25 | over a value without a newline any stores leave the key as if it had started empty |
| CheckpointStore.MultilineJsonIsStuck | crates/lunarbase-indexer/src/checkpoint.rs:15-35 | no stores at all replace a value that is JSON with a newline in it, and it keeps loading whole |

## Left out

- Worker.WorkerReadiness: assumes sequentially consistent interleaving and fewer than 2^63 version bumps, because the source's release and acquire orderings are not modelled.
- LogFetch.ResolveLaneAssets: with logs that share a position it promises a replay in some cursor order, because the order of those logs is the provider's.
- The watch channel that carries the pump's activity beside the readiness word.
- Readiness and the pump are state machines over their atomic steps instead of objects with methods, because the properties are about interleavings.
- The TypeScript `ForkResolver.resolve`: the same walk as the Rust one.
- Decoding of Monad execution records, ABI events, addresses and hashes, and their normalization errors, which end a fetch like any other failure.
- The HTTP, WebSocket and Redis transports, timeouts and reconnect delays, metrics rendering, configuration and command lines.
- A pump that unwinds from a panic, a shutdown sender dropped without a signal, and the wakeup order of waiting tasks.
- `QuoteIndexer`, `ConnectedQuoteClient`, the bootstrap handoff and the reducer behind them.
- Redis event scripts, recovery and fork runtime of the event worker.
- `packages/math`, which repeats the formulas of the Rust crate, and its decimal parsing.
- Exact byte sizes of retained structures, the sequence tracker, the Arbitrum context cache and record-id layouts: only easy members beside the cores above.
- Monotonicity of exact-in output in the amount: not promised, since slippage moves in whole basis points.
