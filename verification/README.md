# Quetzal batch-auction clearing: a Dafny model

This project models what the aggregator does between "an epoch closed" and "here
are the fills, the gross pool flows and the Merkle root to settle", and proves
what makers, liquidity providers and operators rely on. Run
`dafny verify dfyconfig.toml` to check everything.

| file | models |
|---|---|
| `Arithmetic`, `FixedPoint`, `Sequences`, `Apportion` | floor arithmetic, constants and errors, sums, stable sort, last-absorbs pro-rata split |
| `Buckets`, `Swap`, `SwapTheory`, `Backing` | the concentrated-liquidity step math, the bucket-walking swap, its order theory, fees and reserve backing |
| `Price`, `PriceTheory`, `SearchOutcomes` | the price evaluation, bisection, the one-sided fixed point, how the search meets the settlement, and when it may find no price |
| `Clearing`, `Conservation`, `Guarantees` | one pool's clearing: batch, fills, flows; conservation; price guarantees |
| `OneSidedBook`, `OneSidedLimits`, `Instances` | what the price of a one-sided book is worth, and when its orders get their limits; concrete pools and epochs that fall short |
| `Runs`, `Worth`, `FeePot` | any sequence of epochs: reserves, token B and token A against the price moves, fee growth and the claims on it |
| `Registry`, `MultiPair`, `Settlement`, `Slots` | routing, the multi-pool clearing, end-to-end conservation, the pool-id remapping |
| `Reveals`, `Arrival`, `OnChain`, `Merkle` | commitment replay and repair, independence of the arrival order, the contract's and the circuit's fold, the fills trees and their paths |
| `Queue`, `Cycle`, `Pipeline`, `Settling`, `Watcher` | the bounded reveal queue, the gated clearing cycle, its end-to-end theorems, the polling loop with its background calls |
| `Payouts`, `Entitlement`, `Claims`, `Redemption` | what one maker is paid, who is paid, and claims against the submitted root |
| `Deposit`, `Grid` | liquidity deposits, the 2^64 liquidity guard, the geometric bucket grid |

Loops, classes and in-place updates of the program are methods and classes here,
each proved equal to a specification function; the theorems are about those
functions.

## Main results

- **Settlement** (`Pipeline.SubmittedSettlementConserves`). If a cycle gets as far
  as submitting, the orders it settled are exactly the committed ones, and in every
  active slot, for both tokens, payouts plus the gross flow to the pool are at most
  the filled inputs plus the flow from the pool. `Settlement.SettlementConserves`
  gives the same as an equation: the gap is the fee dust plus, with no buyer, the
  unrouted sell input.
- **Search meets settlement** (`PriceTheory.SearchMeetsSettlement`). Whatever price
  the search returns, the re-run at it has an eligible order and does not saturate.
- **Price guarantees** (`Guarantees`): each filled order of the crossing side gets the
  uniform price up to a stated rounding, and so does each order of the AMM side of a
  mixed book that exits within tolerance. A one-sided book is weaker, see below.
- **Makers' payouts** (`Entitlement.SubmittedLeafExactly`, `Entitlement.SubmittedLeafPays`).
  A committed order has a leaf exactly when its pool, cleared on the committed orders that
  enter it, fills it; the leaf is its owner's and pays its own fill, so every price
  guarantee holds of the leaf.
- **Redemption** (`Redemption.RedeemedWithinFills`, `Redemption.EntitledOrderIsRedeemed`).
  Claims against a submitted root, by anyone in any order, never exceed the submitted
  fills, and every filled order's owner has a claim that the contract pays.
- **Settling** (`Settling.EpochSettles`): with the committed orders accepted, routed and
  cleared without an error, the plan submits exactly when some pool clears.
- **No price without a reason** (`SearchOutcomes.MixedOutcomes`,
  `SearchOutcomes.OneSidedFindsFixedPoint`): the bisection gives up only at a gap or a jump
  of the book, the refinement only when no pass ever settles.
- **Arrival order** (`Arrival.PlanIgnoresArrivalOrder`): a cycle throws, skips or submits
  the same whatever the order in which its reveals arrived.
- **Reserves and fees over runs** (`Runs.RunTracks`, `Runs.RunMoves`, `Worth.RunWorth`,
  `Runs.RunKeepsAggregates`, `FeePot.RunClaims`): every bucket's reserves follow the price
  from both sides, within a stated rounding per clearing.
- **Commitments** (`Reveals.ReplayIsSound`, `Arrival.AcceptedExactly`,
  `Arrival.LatePayloadsAccepted`, `OnChain.SettledOrdersBind`, `Merkle.PathBinds`).
- **Watcher** (`Watcher.RunIsExclusive`, `Watcher.CycleStarts`, `Watcher.RollIsDecided`):
  in every interleaving at most one of clearing cycle and auto-roll is pending, no cycle is
  ever turned away, and each is started exactly when it is due.

## Where the code falls short of what it says

- The comment on `oneSidedClearingPrice` says no order is filled below its limit. The
  price is sized on the input left after the fee while the orders pay the whole input, so
  an order whose limit lies between the two can be filled below it:
  `Instances.BuyerBelowLimit` and `Instances.SellerBelowLimit` are cases.
  `OneSidedLimits.SoleBuyerFallsShort` and `SoleSellerFallsShort` give the exact inputs
  for a sole order, `WholeBookLimit` for a book whose limits all accept its own price,
  `FilledLimit` for the orders that any one-sided book fills. What every order of a
  one-sided book is promised is a floor from its own amount and limit:
  `OneSidedLimits.BuyerFloor` and `SellerFloor`.
- The probe's comment treats a too-high price as one above the root. A higher price can
  stop being too high, because flooring the re-sized input can take it under the buckets'
  capacity: `PriceTheory.TooHighAbove` says exactly when, `Instances.TooHighCanReopen` is
  a case. Too-low prices have no such gap (`PriceTheory.TooLowIsDownwardClosed`).
- An auto-roll is meant for an epoch without reveals, but the fee balance is read
  between the decision and the send. `Watcher.RollFindsReveals` says exactly when the
  epoch is still empty at the send; `Watcher.RollCanMeetReveal` is a run where it is not.
- The comment on `recoverForwardedFee` says a pool that grows by the recovered fee is
  solvent for every future withdrawal. That holds for one clearing. Claims on the growth
  accumulated over several can exceed what was forwarded: `FeePot.SolventIff` says exactly
  when they cannot, `FeePot.ClaimsNearlyCovered` bounds the gap by one unit per further
  clearing, and `Instances.RunFallsShort` is a run. The pool contract caps a claim at the
  pot for this reason.
- The comment on `applyL64Guard` says shrinking token A lowers liquidity in every
  regime. Above the bucket it does not, and the guard then reports a deposit that adds
  nothing: `Deposit.ReportIsHonest` gives the exact condition and
  `Deposit.GuardCanMislead` an input. The caller's own checks make it harmless
  (`Deposit.PreflightIsSafe`).

- The contract folds submissions as they execute; the aggregator replays them by block and
  nonce. Nonces are random, so two submissions of one block can execute against the order
  of their nonces, and then the honest reveals of the epoch are rejected:
  `OnChain.HonestEpochAcceptedExactly` says exactly when, `OnChain.SameBlockCanFail` is the
  smallest case.

And two limits the code documents:

- A cycle that throws puts its reveals back; one that stops on a replay mismatch or on a
  book that does not cross does not. `Cycle.CycleKeepsQueue` says exactly when the queue
  is left as it was, and `Cycle.MissingRevealLosesTheRest` that one missing reveal loses
  the epoch's others.
- The bracket of the bisection can close on adjacent prices with no bound on the
  realized price there; `PriceTheory.MixedSearchIsSound` states what such an exit is worth.

## Assumptions

- Order amounts, limits, prices and liquidity are natural numbers; division is floor
  division on natural operands, which is shown where a difference is divided.
- Where order independence, payout lookup or corrections are stated, order nonces are
  distinct; the hash is a parameter, assumed injective and never zero only in the
  theorems that say so; number parsing and field reduction are the two functions of a
  `Codec`.
- The grid is contiguous only where a lemma asks for it; `Grid.GridIsContiguous` says
  when the generated grid is. `Grid.DivisorsArePositive` and `PriceTheory.PricedPool`
  state when no divisor rounds to zero; otherwise the division error is modelled.
- The buyers' price guarantee divides by the uniform price, so it asks for a positive one.
- A bucket and its bounds, two parallel arrays in the program, are one record here.
- What a price move is worth in token A is measured in real numbers, since it divides by
  prices; every amount and price is an integer.
- The search returns its reason for finding no price, where the program returns null.
- Block numbers, balances, registry, pool states, the proof and the submission are
  parameters of a cycle, each of which may fail.
- `submitCloseEpochOnly` and the cycle are `async`, so a call of theirs never throws
  before it returns a promise.

## Model

| member | source | states |
|---|---|---|
| Buckets.DownStepBound | aggregator/src/buckets.ts:112-115 | a down step that fits its bucket never rises, undershoots the lower bound by at most ceil(SCALE/sqrtP), and not at all when the floored divisor is exact |
| Buckets.RoundTripBound | aggregator/src/buckets.ts:99-126 | token B in, then the token A received fed back, returns at most the input plus floor(L·ceil(SCALE/sqrtPNew)/SCALE), whenever the first leg pays out |
| Apportion.SplitIsExact | aggregator/src/clearing.ts:655-665 | floored shares with the last one absorbing the remainder add up to the total |
| Apportion.SplitIsFair | aggregator/src/clearing.ts:462-479 | every share, the absorbing one included, is at least its floored pro-rata part and non-negative |
| SwapTheory.UpStepInBucket | aggregator/src/clearing.ts:618-653 | an upward step ends at or above its start and never past the bucket's upper bound, and on it when it crosses |
| SwapTheory.DownStepInBucket | aggregator/src/clearing.ts:618-653 | a downward step ends at or below its start, at most ceil(SCALE/sqrtP) under the bucket when it stops inside it, and exactly on the lower bound when it crosses |
| Swap.TouchBucket | aggregator/src/clearing.ts:618-682 | one funded bucket's iteration keeps the loop's account: steps so far plus the walk to go are the route, fees so far are the floored shares, the map holds one delta per touched bucket |
| Swap.TraceBuckets | aggregator/src/clearing.ts:603-689 | the bucket loop follows the recursive walk: containment, empty buckets, boundary crossings, running out of buckets |
| Swap.TraceBucketSwap | aggregator/src/clearing.ts:563-707 | the whole swap, errors and the four-bucket cap included, equals the recursive specification |
| Swap.CollectDeltas | aggregator/src/clearing.ts:694-706 | sorting the touched buckets by id gives each recorded delta once, ascending, and their reserve sums |
| Swap.WalkIsDirected | aggregator/src/clearing.ts:603-685 | a swap touches existing buckets only, each at most once, in one strict id direction |
| Swap.RouteNeedsInput | aggregator/src/clearing.ts:593-603 | no bucket is touched if and only if nothing is left after the fee |
| SwapTheory.WalkConsumes | aggregator/src/clearing.ts:603-685 | every unit of after-fee input is booked to exactly one touched bucket |
| SwapTheory.FlowSums | aggregator/src/clearing.ts:667-679 | the four reserve sums over the deltas are the walk's input and output, on the right token and sign for each direction |
| SwapTheory.FeesAddUp | aggregator/src/clearing.ts:655-665 | per-step fees are non-negative and add up to the withheld fee |
| SwapTheory.RecoveryBound | aggregator/src/clearing.ts:1123-1154 | the fee recovered from a cumulative increment is at most the step's fee and short by at most ceil(L/SCALE) |
| SwapTheory.ClaimsAreCovered | aggregator/src/clearing.ts:1123-1154 | however liquidity is divided into shares, the floored claims never exceed the recovered fee |
| SwapTheory.SmallerInputFits | aggregator/src/clearing.ts:603-692 | feasibility is downward closed, over no more buckets, in both directions |
| SwapTheory.SmallerSwapSettles | aggregator/src/clearing.ts:563-692 | if a swap settles so does every smaller one, save for an output divisor that rounds to zero below a price of one raw unit |
| SwapTheory.UpWalkEnds | aggregator/src/clearing.ts:630-653 | an upward swap ends at or above its start and inside the last bucket it touched |
| SwapTheory.DownWalkEnds | aggregator/src/clearing.ts:618-653 | a downward swap ends at or below its start, at most ceil(SCALE/sqrtP) under its last bucket |
| SwapTheory.UpPriceMonotone | aggregator/src/clearing.ts:603-685 | the final price of an upward walk is non-decreasing in its input across any crossings |
| SwapTheory.UpSwapPriceMonotone | aggregator/src/clearing.ts:563-692 | the same for whole swaps, fee and start bucket included |
| SwapTheory.StartsAtPrice | aggregator/src/clearing.ts:581-591 | a walk starts in the first bucket that holds the price, whenever one does |
| SwapTheory.StartsAtEnd | aggregator/src/clearing.ts:581-591 | a price outside every bucket starts the walk at the end of the grid it is on |
| SwapTheory.DownStepPays | aggregator/src/clearing.ts:630-653 | every downward step, crossing or not, pays its price move times its liquidity, rounded down |
| SwapTheory.DownWalkPays | aggregator/src/clearing.ts:603-685 | a downward walk pays its price moves times the liquidity it met, short by less than a unit per step |
| Conservation.BuySidePays | aggregator/src/clearing.ts:717-764 | a clearing that swaps token A pays the buyers the sellers' token B and that walk's output, over at most four buckets, and ends at its price |
| Backing.StepMoves | aggregator/src/clearing.ts:630-679 | one step: SCALE·Δb ≥ L·(sqrtTo − sqrtFrom) in its own bucket, less SCALE when it crosses upward, and with no slack downward |
| Backing.WalkMoves | aggregator/src/clearing.ts:603-685 | the same summed over a walk, for every bucket of any grid |
| Backing.WalkTracks | aggregator/src/clearing.ts:603-685 | token B in a bucket moves at most as its liquidity owes for the clamped price move, plus one visit's rounding and one landing's undershoot |
| Price.BucketNetSwap | aggregator/src/clearing.ts:717-764 | the AMM leg at a candidate price: direction, sizing of token B, saturation against other errors, realized price |
| Price.ClearingAt | aggregator/src/clearing.ts:210-220 | eligible sides and signed net imbalance at a price, with the AMM leg |
| Price.SearchBand | aggregator/src/clearing.ts:238-251 | the band loop equals the recursive band |
| Price.FindClearingPrice | aggregator/src/clearing.ts:233-323 | the search loop equals the recursive bisection, with every way of finding no price |
| Price.OneSidedClearingPrice | aggregator/src/clearing.ts:349-415 | the one-sided loop equals the recursive refinement |
| PriceTheory.BandSpansFunded | aggregator/src/clearing.ts:238-251 | the band exists if and only if a bucket is funded, and is the tightest around all funded buckets |
| PriceTheory.BandReaches | aggregator/src/clearing.ts:236-250 | the search runs from a hundredth of the lowest funded price, or one raw unit, to a hundred times the highest |
| PriceTheory.NetAIsNonIncreasing | aggregator/src/clearing.ts:210-220 | the net token A imbalance is non-increasing in the candidate price |
| PriceTheory.TooLowIsDownwardClosed | aggregator/src/clearing.ts:253-293 | every price below a too-low one is too low, so the search may discard them |
| PriceTheory.TooHighAbove | aggregator/src/clearing.ts:253-293 | above a too-high price a price is too high if and only if its own token B cannot be routed, and always when it routes no less |
| Instances.TooHighCanReopen | aggregator/src/clearing.ts:253-293 | a pool and a mixed book of orders above the dust floor where a price is too high and the next one up is not |
| PriceTheory.BisectionIsSound | aggregator/src/clearing.ts:303-322 | lo stays on the low side and hi on the high side, so a found price lies between the starting ends and is within tolerance or an end, with the matching sign, of a bracket lo <= hi <= lo + 1 |
| PriceTheory.BisectionConverges | aggregator/src/clearing.ts:303-322 | from a bracket no wider than 2^n, n rounds never end unconverged |
| PriceTheory.MixedSearchIsSound | aggregator/src/clearing.ts:233-323 | for a mixed book both hold of the whole search: every found price is such an exit, and with a band no wider than 2^128 the 128 rounds cannot run out |
| SearchOutcomes.BisectExplained | aggregator/src/clearing.ts:297-323 | from a bracket the bisection throws only what a probe in it throws, meets a gap only where a probe does, and finds no endpoint only between adjacent prices that are too low and too high |
| SearchOutcomes.MixedOutcomes | aggregator/src/clearing.ts:233-323 | the same of the whole search, with no bracket exactly when the band's ends answer and do not bracket, and no band exactly without a funded bucket |
| SearchOutcomes.MixedSearchFinds | aggregator/src/clearing.ts:233-323 | a bracketed mixed book without gap or jump, whose probes answer, is given a price |
| SearchOutcomes.BracketReads | aggregator/src/clearing.ts:289-295 | the search goes on exactly when the low end is too low or at most the buckets' price there, and the high end too high or at least that |
| SearchOutcomes.ProbeReads | aggregator/src/clearing.ts:260-293 | a probe of a mixed book is a gap exactly when no order accepts the price, too low or too high when the buckets cannot take the surplus or deficit, else the buckets' own price less the probed one |
| SearchOutcomes.FoundAtFirstClose | aggregator/src/clearing.ts:304-323 | a midpoint is returned within 1e9 of the buckets' price; an end of the bracket only when it was a band end or no closer |
| SearchOutcomes.SaturatesExactly | aggregator/src/clearing.ts:717-764 | the AMM leg saturates exactly when the buckets, or four of them, cannot take the volume, and passes on every other error |
| SearchOutcomes.ProbesAnswer | aggregator/src/clearing.ts:603-689 | on a contiguous grid around the price with its first bound at 1e9 or more, no probe throws |
| SearchOutcomes.SoundGridFinds | aggregator/src/clearing.ts:233-323 | there a bracketed mixed book without gap or jump always has a price |
| PriceTheory.BandIsOrdered | aggregator/src/clearing.ts:238-251 | the search starts in order, low end first, if and only if the top of the band is worth at least one raw unit |
| PriceTheory.SatisfiedIsPrefix | aggregator/src/clearing.ts:362-366 | the orders satisfied at a price lead the sorted candidates, so comparing set sizes compares sets |
| PriceTheory.RefineIsFixedPoint | aggregator/src/clearing.ts:375-415 | a price the refinement returns was computed over exactly the set it satisfies |
| PriceTheory.RefineStopsInTime | aggregator/src/clearing.ts:368-415 | every pass meets a new set size, so n+2 passes cannot run out |
| PriceTheory.OneSidedSearchIsFixedPoint | aggregator/src/clearing.ts:349-415 | a one-sided price is the realized price of exactly the orders the settlement finds eligible, of which there is at least one |
| SearchOutcomes.OneSidedFindsFixedPoint | aggregator/src/clearing.ts:377-415 | a one-sided book is given a price if and only if its passes ever settle; the repeated-size check and the pass limit stop no search that would succeed |
| PriceTheory.SellRerunSettles | aggregator/src/clearing.ts:717-752 | a one-sided sell book re-run at its own price never saturates |
| PriceTheory.BuyRerunSettles | aggregator/src/clearing.ts:717-752 | a one-sided buy book re-run at its own price is the swap it was priced on |
| PriceTheory.SearchMeetsSettlement | aggregator/src/clearing.ts:438-449 | the two guards after the search never fire, and the re-run can only fail on a zero divisor below a price of one raw unit |
| Clearing.DistributeSide | aggregator/src/clearing.ts:462-479 | the accumulator loop deals one side's total pro-rata with the last order absorbing the remainder |
| Clearing.ComputeClearing | aggregator/src/clearing.ts:438-498 | one pool's clearing: batch, search, guards, totals, fills |
| Clearing.ComputeClearingV2 | aggregator/src/clearing.ts:784-841 | the clearing with its deltas and before/after bucket states, from the one trace that priced it |
| Clearing.TraceIsInRange | aggregator/src/clearing.ts:817-841 | every delta names an existing bucket, in ascending order, so before and after states exist |
| Clearing.RecoverForwardedFee | aggregator/src/clearing.ts:1134-1154 | the two recovered fee totals of index-aligned deltas, or the length error |
| Clearing.DeriveAggregateFlows | aggregator/src/clearing.ts:1101-1121 | to-pool flows are the reserve adds plus the recovered fee, from-pool flows the reserve subs |
| Conservation.SwapFlows | aggregator/src/clearing.ts:593-706 | a directed swap adds exactly the after-fee input, takes out only the other token, and can forward at most the withheld fee and all but ceil(L/SCALE) per touched bucket |
| Conservation.EvalIsSwap | aggregator/src/clearing.ts:717-764 | an unsaturated price evaluation is one directed swap booked on one side |
| Conservation.TotalsAreNonNegative | aggregator/src/clearing.ts:451-460 | both side totals are non-negative and the routed token B never exceeds what sellers brought |
| Conservation.SideIsExact | aggregator/src/clearing.ts:462-479 | a side's fills name its orders in turn and pay out its total exactly |
| Conservation.SideIsFair | aggregator/src/clearing.ts:462-479 | each order gets at least its floored pro-rata part of the total |
| Conservation.V2IsSwap | aggregator/src/clearing.ts:784-841 | a cleared epoch's pool side is exactly one directed swap of the settled imbalance |
| Conservation.EvalBalances | aggregator/src/clearing.ts:451-460 | for each token, payout total plus reserve adds plus withheld fee equal inputs plus reserve subs, with the unrouted input when there is no buyer |
| Conservation.ClearingConserves | aggregator/src/clearing.ts:438-498 | one pool's conservation as an equation in both tokens, with the dust between zero and the rounding allowance |
| Guarantees.BatchIgnoresArrivalOrder | aggregator/src/clearing.ts:94-105 | the 32-order FIFO batch is the same for every permutation of distinct-nonce orders |
| Guarantees.BatchIsOldest | aggregator/src/clearing.ts:94-105 | whoever was cut off was submitted in a later block than everyone in a full batch, or in the same block under a larger nonce |
| Guarantees.BatchIsOrdered | aggregator/src/clearing.ts:94-105 | the batch itself stands in that order |
| Guarantees.ClearingIgnoresArrivalOrder | aggregator/src/clearing.ts:438-498 | price, fills, reserves and deltas are the same for every permutation |
| Guarantees.ClearsExactlyWhenFound | aggregator/src/clearing.ts:438-449 | an epoch is skipped if and only if the batch is empty or no price is found; after a found price only a zero divisor can throw |
| Guarantees.PositiveOrdersSettle | aggregator/src/clearing.ts:438-498 | with positive amounts and a priced pool a found price always clears |
| Guarantees.CrossingBuyersGetPrice | aggregator/src/clearing.ts:451-479 | with no token A surplus every filled buyer gets at least its input at the uniform price, hence at its limit |
| Guarantees.CrossingSellersGetPrice | aggregator/src/clearing.ts:451-479 | with no token A deficit every filled seller gets its input at the uniform price and at its limit, short by at most one unit |
| Guarantees.AmmBuyersGetPrice | aggregator/src/clearing.ts:295-313 | tolerance exit, token A left over: buyers together and each buyer pay at most P + TOLERANCE + 1 per unit |
| Guarantees.AmmSellersGetPrice | aggregator/src/clearing.ts:295-313 | tolerance exit, token B left over: sellers together get at least P − TOLERANCE per unit, less one unit each of scale and price |
| Guarantees.AmmSellerGetsPrice | aggregator/src/clearing.ts:295-313 | and so does each seller on its own fill, less two units of rounding and one of price |
| OneSidedBook.BuyBookPrice | aggregator/src/clearing.ts:349-415 | a cleared buy book: the buyers receive the quote for their whole input, and P·Y ≤ afterFee(input)·SCALE < (P+1)·Y |
| SwapTheory.UpOutputGap | aggregator/src/clearing.ts:603-685 | between two upward walks from one price, the larger input pays more by at most the extra input and one unit per bucket at the start price, one raw unit of price of the deepest bucket and one unit |
| OneSidedLimits.QuoteGap | aggregator/src/clearing.ts:563-707 | the same for two sell quotes of a pool, fee and bucket cap included |
| OneSidedLimits.SellBookTotal | aggregator/src/clearing.ts:349-415 | on every cleared sell book the sellers together receive what the price says of their input after the fee, short by at most the stated re-sizing gap |
| OneSidedLimits.BuyerFloor | aggregator/src/clearing.ts:335-348 | every filled buyer of a buy book: (out + 1)·(limit + 1)·10000 > SCALE·(9970·amountIn − 9999), whatever else is in the book |
| OneSidedLimits.SellerFloor | aggregator/src/clearing.ts:335-348 | every filled seller of a sell book: (out + 1 + gap)·SCALE·10000 ≥ limit·(9970·amountIn − 9999), the gap a function of pool and limit |
| OneSidedLimits.FilledSetAccepts | aggregator/src/clearing.ts:349-415 | the orders a one-sided clearing fills accept the price of their own input and split the quote for it; those left out change nothing |
| OneSidedLimits.WholeBookClears | aggregator/src/clearing.ts:349-415 | a one-sided batch clears with a fill for every order if and only if its whole input is priced and every limit accepts that price |
| OneSidedLimits.WholeBookLimit | aggregator/src/clearing.ts:335-348 | in such a book, a condition on pool and batch alone, an order gets its limit if and only if its part of the quote for the whole input reaches it |
| OneSidedLimits.FilledLimit | aggregator/src/clearing.ts:335-348 | in any one-sided book the same of the filled orders, and limits the quote is worth are always met |
| OneSidedLimits.SoleOrder | aggregator/src/clearing.ts:349-415 | a sole order clears if and only if its input is priced and its limit accepts the price, and is then paid the whole quote |
| OneSidedLimits.SoleBuyerFallsShort | aggregator/src/clearing.ts:335-348 | a sole buyer is filled below its limit if and only if the limit accepts the price of the input after the fee and is under that of the whole input |
| OneSidedLimits.SoleSellerFallsShort | aggregator/src/clearing.ts:335-348 | the same for a sole seller, on the quote for its re-sized input |
| OneSidedBook.BuyBookShortfall | aggregator/src/clearing.ts:335-348 | whenever the withheld fee is worth one unit of price, the buyers together receive less than the uniform price, and a sole buyer at that limit is filled below it |
| Instances.BuyerBelowLimit | aggregator/src/clearing.ts:335-348 | a generated bucket and a buy order above the dust floor that is filled below its limit |
| Instances.SellerBelowLimit | aggregator/src/clearing.ts:335-348 | the same for a sell order |
| Runs.EpochIsSwap | aggregator/src/clearing.ts:784-841 | every epoch's effect on a pool is one directed swap applied to its buckets |
| Runs.RunKeepsAggregates | aggregator/src/clearing.ts:694-706 | over any sequence of epochs aggregate reserves stay the sum of bucket reserves, and grid and liquidity stay put |
| Runs.EpochMoves | aggregator/src/clearing.ts:784-841 | one epoch: every bucket's token B covers the price moves made inside it, less one unit if it was crossed upward |
| Runs.RunMoves | aggregator/src/clearing.ts:784-841 | over any run and any grid: SCALE·Δreserve_b ≥ L·(price moves inside the bucket) − SCALE·(upward crossings), at most one crossing per epoch |
| Runs.EpochBacked | aggregator/src/clearing.ts:784-841 | one epoch moves every bucket's token B at least as far as its liquidity owes, less the counted slack |
| Runs.RunBacked | aggregator/src/clearing.ts:784-841 | the same over any run, the slack growing by at most one rounding allowance per epoch |
| Runs.RunTracks | aggregator/src/clearing.ts:784-841 | over any run a bucket's token B differs from what its liquidity owes for the clamped price move by at most one allowance below and one excess above per epoch |
| Worth.EpochWorth | aggregator/src/clearing.ts:784-841 | one epoch: every bucket's token A moves as the price moves made inside it are worth, L·SCALE/t − L·SCALE/s each, between one stated allowance below and one excess above |
| Worth.RunWorth | aggregator/src/clearing.ts:784-841 | the same from both sides over any run on any grid, per epoch, for a bucket whose lower bound exceeds its rounding, as every bound above 1e9 does (`LargeBoundIsAbove`) |
| FeePot.GrowthIsCredited | aggregator/src/clearing.ts:1123-1154 | an epoch never lowers a bucket's cumulative fee, and what its flows forward for the bucket is the recovery of exactly that growth |
| FeePot.CreditsAreForwarded | aggregator/src/clearing.ts:1101-1154 | the fee inside the gross flows is the sum of the per-bucket credits |
| FeePot.AccumulatedGrowth | aggregator/src/clearing.ts:1123-1154 | recovering an accumulated growth at once yields the credits plus the whole units of their remainders, fewer than one per increment |
| FeePot.ClaimsNearlyCovered | contracts/pool/src/main.nr:507-517 | claims on an accumulated growth exceed the credits by at most one unit per increment after the first |
| FeePot.SolventIff | aggregator/src/clearing.ts:1123-1134 | the credits cover every division of the liquidity if and only if the remainders stay below one unit |
| Instances.RunFallsShort | aggregator/src/clearing.ts:1123-1134 | a pool and three epochs of orders above the dust floor that forward 5998 units of token A for a bucket whose sole provider may claim 5999 |
| FeePot.RunClaims | aggregator/src/clearing.ts:784-841 | over any run of epochs and any division of a bucket's liquidity, claims on its fee growth stay within what was forwarded for it, plus one unit per epoch after the first |
| Registry.ResolveHopPools | aggregator/src/path.ts:25-36 | the per-hop lookup loop, with the two errors |
| Registry.ResolveRevealPath | aggregator/src/clearing-cycle.ts:313-346 | full tokens kept, truncated tokens resolved, an omitted path falling back to pool 0's pair |
| Registry.RoutedHopsTradePath | aggregator/src/clearing-cycle.ts:313-346 | each hop of a routed reveal is a configured pool that trades, truncated, that hop's bound tokens; the bound path is the revealed one or the fallback |
| Registry.ResolutionIsSymmetric | aggregator/src/path.ts:16-22 | a pair resolves to the same pool in either order |
| Registry.BuiltRegistryResolves | aggregator/src/clearing-cycle.ts:250-276 | a built registry resolves a configured pair to the first pool with that truncated pair |
| Registry.RoutedExactly | aggregator/src/clearing-cycle.ts:313-346 | a reveal is routed if and only if each hop of its path, or of the fallback, has a configured pool; one hop unless it names three tokens |
| Registry.EntryAligned | aggregator/src/clearing-cycle.ts:250-276 | a built entry keeps its pool and both tokens, truncated ones ascending and full ones aligned with them |
| MultiPair.DropUnroutable | aggregator/src/clearing.ts:934-950 | exactly the two-hop and dust orders' nonces are dropped |
| MultiPair.BucketOrders | aggregator/src/clearing.ts:958-975 | pools in order of first visit, each with its surviving orders in submission order |
| MultiPair.ComputeClearingMultiPair | aggregator/src/clearing.ts:907-1062 | the router equals its specification, and the composite pass is never entered |
| Settlement.ClearedPools | aggregator/src/clearing.ts:977-993 | each pool of the result was cleared on its own sub-batch, once |
| Settlement.EmittedFillFor | aggregator/src/clearing.ts:1029-1062 | looking a nonce up in the emitted fills finds that order's own fill or none |
| Settlement.EmissionIsFaithful | aggregator/src/clearing.ts:1029-1062 | summed over all orders, what is emitted for a pool and side is what that pool's fills hold |
| Settlement.SettlementConserves | aggregator/src/clearing.ts:907-1062 | end-to-end conservation as an equation, for every cleared pool and both tokens, with the dust between zero and the rounding allowance |
| Entitlement.SubOrdersAre | aggregator/src/clearing.ts:934-975 | a pool is cleared on exactly the direct orders of its pair with at least 100000 in, in submission order |
| Entitlement.EmittedExactly | aggregator/src/clearing.ts:1029-1062 | an order has an emitted fill if and only if it is one of those and the pool's clearing has it in its batch at a price its limit accepts |
| Slots.RemapFillPoolIdsToSlots | aggregator/src/clearing-cycle.ts:904-924 | the in-place rewrite replaces each pool id by its slot, or throws exactly when a fill names no active pool |
| Slots.SlotRoundTrip | aggregator/src/clearing-cycle.ts:904-924 | looking the slot up gives the original fill back |
| Slots.EmittedFillsNamePools | aggregator/src/clearing.ts:1029-1062 | every emitted fill comes from a surviving order, owner included, and names a cleared pool |
| Slots.ClearedFillsRemap | aggregator/src/clearing-cycle.ts:585-587 | the remapping of a cleared result never throws |
| Reveals.ReplayOrderAcc | aggregator/src/validate.ts:62-68 | the fold loop equals the recursive accumulator |
| Reveals.ValidateReveals | aggregator/src/validate.ts:113-151 | the canonical reveals when their fold matches, else nothing |
| Reveals.ParsesExactly | aggregator/src/validate.ts:86-111 | a payload parses to a reveal if and only if each field of the reveal is the reading of its own payload field, the path length defaulting to 2 and missing words to 0 |
| Reveals.DroppedExactly | aggregator/src/validate.ts:86-111 | a payload is dropped if and only if one of its parts does not read |
| Reveals.RepairReveals | aggregator/src/validate.ts:172-229 | the first combination of the drift box whose fold matches, with its corrections |
| Reveals.DecodeOffsets | aggregator/src/validate.ts:172-229 | the peeling loop gives the mixed-radix digits of a combination |
| Reveals.CommittedListBinds | aggregator/src/validate.ts:38-68 | equal accumulators commit to equal order sequences, field by field |
| Reveals.ReplayIsSound | aggregator/src/validate.ts:113-151 | against a committed sequence the result is that sequence when the canonical reveals are it, and nothing otherwise |
| Reveals.HonestRevealsAccepted | aggregator/src/validate.ts:113-151 | reveals of exactly the committed orders, in any arrival order, are accepted |
| Arrival.HonestPayloadsAccepted | aggregator/src/validate.ts:113-151 | payloads that read, field by field, as the committed orders in order of block and nonce are accepted in any arrival order |
| Arrival.LatePayloadsAccepted | aggregator/src/validate.ts:172-229 | so are at most six payloads each up to three blocks late |
| Arrival.AcceptedExactly | aggregator/src/clearing-cycle.ts:437-482 | what is accepted is the committed sequence exactly when the canonical reveals are it or such a drift makes them so, and nothing otherwise |
| Reveals.UnparseableRevealsIgnored | aggregator/src/validate.ts:86-151 | unparseable reveals inserted anywhere change nothing |
| Reveals.DigitsCoverBox | aggregator/src/validate.ts:172-229 | the mixed-radix decode enumerates the whole offset box |
| Reveals.RepairIsSoundAndComplete | aggregator/src/validate.ts:172-229 | repair succeeds if and only if some offset vector of the box reproduces the accumulator, and returns such a correction |
| Reveals.RepairRecoversCommitted | aggregator/src/validate.ts:172-229 | a repair against a committed sequence is that sequence |
| Reveals.CorrectionsAreTheMoves | aggregator/src/validate.ts:172-229 | the reported corrections are exactly the reveals that moved, and by how much |
| Arrival.RepairIgnoresArrivalOrder | aggregator/src/validate.ts:172-229 | rearranged reveals are repaired or not alike, and to the same sequence |
| Arrival.PlanIgnoresArrivalOrder | aggregator/src/clearing-cycle.ts:431-587 | rearranged reveals lead to the same throw, skip or submission |
| OnChain.CommitmentsAgree | circuits/clearing/src/binding.nr:84-100 | the aggregator's commitment to an order is the circuit's |
| OnChain.FillLeavesAgree | circuits/clearing/src/merkle.nr:11-13 | the aggregator's leaf of the 32-leaf tree is the circuit's |
| OnChain.Orderbook.AppendOrder | contracts/orderbook/src/main.nr:699-710 | a submission folds its commitment while fewer than 32 are in, and reverts after that |
| OnChain.Orderbook.SubmitAll | contracts/orderbook/src/main.nr:699-710 | an epoch's submissions leave the accumulator the aggregator replays |
| OnChain.ReplayChainWithPath | circuits/clearing/src/binding.nr:107-120 | the circuit's pass over its 32 slots folds those in use |
| OnChain.SettledOrdersBind | circuits/clearing/src/main.nr:52-53 | whatever the aggregator accepts passes the circuit's check against the accumulator |
| OnChain.HonestEpochAcceptedExactly | contracts/orderbook/src/main.nr:521-560 | with every submission honestly revealed the epoch is accepted if and only if the submissions executed in order of block and nonce |
| OnChain.SameBlockCanFail | contracts/orderbook/src/main.nr:521-560 | two submissions of one block, executed against the order of their nonces, are rejected |
| Merkle.MerkleRoot32 | aggregator/src/merkle.ts:29-42 | the five-round loop gives the level-by-level root, or the shape error |
| Merkle.BuildFillsTree | aggregator/src/merkle.ts:50-100 | succeeds exactly on at most 32 fills with distinct non-zero nonces; same root as the 32-leaf loop, one harvested path per fill |
| Merkle.BuildHopFillsTree | aggregator/src/merkle.ts:122-195 | succeeds exactly on a power-of-two depth, room and distinct keys, with root and harvested paths; depth 0 passes with no fills and no root |
| Merkle.PowerOfTwoTest | aggregator/src/merkle.ts:127-130 | n & (n − 1) is zero exactly for powers of two |
| Merkle.LevelsGiveTreeRoot | aggregator/src/merkle.ts:29-42 | hashing level by level gives the root of the recursive split into halves |
| Merkle.HarvestedPathFolds | aggregator/src/merkle.ts:177-195 | at every depth each harvested path folds to the root by the index bits |
| Merkle.PathBinds | aggregator/src/merkle.ts:177-195 | with an injective hash a right-length path that folds to the root proves the leaf at its index and is the harvested one |
| Merkle.ClaimsAreEmittedFills | aggregator/src/merkle.ts:122-195 | every fill is claimable, and a verified claim other than the sentinel is one of the fills, owner and amount included |
| Queue.RevealQueue.SetCurrentEpoch | aggregator/src/queue.ts:44-49 | exactly the epochs outside the window are evicted |
| Queue.RevealQueue.Enqueue | aggregator/src/queue.ts:51-67 | a payload is stored unless out of the window, already held, or over the cap |
| Queue.RevealQueue.DrainEpoch | aggregator/src/queue.ts:69-75 | an epoch's payloads are returned in insertion order and removed, nothing else |
| Queue.RevealQueue.Size | aggregator/src/queue.ts:77-81 | the number of occupied (epoch, position) slots |
| Queue.RunKeepsValid | aggregator/src/queue.ts:44-88 | over every run held epochs stay in the window, within the cap and duplicate-free, and after the first known epoch at most 5·512 reveals are held |
| Queue.StoredPayloadStays | aggregator/src/queue.ts:51-67 | a stored payload is never overwritten, moved or lost before its epoch is drained or evicted |
| Queue.RequeueRestores | aggregator/src/clearing-cycle.ts:871-879 | re-enqueueing what was just drained restores the queue exactly |
| Queue.RequeueLosesNothing | aggregator/src/clearing-cycle.ts:871-879 | in a queue that moved on, each re-enqueued nonce is held unless its epoch left the window or is full |
| Queue.ArrivalIsStored | aggregator/src/queue.ts:51-67 | a reveal goes to the end of its epoch exactly when that is at most two from the live one, its nonce is new there and fewer than 512 are held; nothing else changes |
| Queue.WindowIsKept | aggregator/src/queue.ts:44-49 | a new live epoch keeps the epochs at most two away and drops every other |
| Cycle.CommitResult | aggregator/src/clearing-cycle.ts:585-828 | slots, gross flows, leaves and root of a cleared result, or the first error |
| Cycle.PlanClearing | aggregator/src/clearing-cycle.ts:431-587 | from drained reveals to the committed result: replay, repair, routing, pool reads, clearing |
| Cycle.Aggregator.RunCycle | aggregator/src/clearing-cycle.ts:369-880 | the gated cycle's status, its queue effect, and the in-flight flag released on every way out |
| Cycle.CycleKeepsQueue | aggregator/src/clearing-cycle.ts:369-880 | the queue is as it was if and only if the cycle stops or throws before the drain, finds nothing queued, or fails after the drain: not when the replay rejects, nothing clears or the result is submitted |
| Cycle.CycleQueueContents | aggregator/src/clearing-cycle.ts:369-880 | by status: a spared cycle changes nothing, any other removes exactly the cleared epoch's reveals |
| Cycle.MissingRevealLosesTheRest | aggregator/src/clearing-cycle.ts:437-482 | when fewer reveals are queued than orders were committed, the cycle accepts none and drops all it drained |
| Cycle.RevealIsLost | aggregator/src/clearing-cycle.ts:437-482 | of two well-formed committed reveals only one is queued: the cycle drains it, rejects it and does not put it back, for every hash that binds; with both queued, both are accepted |
| Cycle.GatesInTurn | aggregator/src/clearing-cycle.ts:369-431 | an idle cycle throws on a failed read, else meets the gates in turn, and drains exactly past all of them |
| Cycle.ClearsExactly | aggregator/src/clearing-cycle.ts:369-880 | a cycle reports n cleared fills if and only if it drains, the plan settles n fills, and proof and submission succeed |
| Cycle.NoCrossEnds | aggregator/src/clearing-cycle.ts:551-583 | a book that does not cross is advanced by a bare close exactly when one is configured and something was drained |
| Cycle.FallbackIsPoolZero | aggregator/src/clearing-cycle.ts:313-346 | a reveal without a path falls back to the first entry of pool 0 |
| Pipeline.AcceptedIsCommitted | aggregator/src/clearing-cycle.ts:437-482 | what replay or repair accepts is the committed sequence |
| Pipeline.ActivePoolsCoverRouting | aggregator/src/clearing-cycle.ts:525-538 | the pool states read before clearing cover every pool the clearing visits |
| Pipeline.SlotTotalsMatch | aggregator/src/clearing-cycle.ts:585-828 | totals read off the submitted leaves by slot are the emitted totals by pool |
| Pipeline.SubmittedSettlementConserves | aggregator/src/clearing-cycle.ts:431-828 | when a cycle submits, the settled orders are the committed ones and both tokens are conserved in every active slot |
| Pipeline.SubmittedClaimsAreFills | aggregator/src/clearing-cycle.ts:808-828 | a path of the right length against the submitted root proves a submitted fill, and every fill has one |
| Payouts.EmittedIsOwnFill | aggregator/src/clearing.ts:1029-1062 | the fill emitted under an order's nonce is its own fill in the clearing of the pool it names |
| Payouts.OwnFillKeepsPromise | aggregator/src/clearing.ts:462-479 | every fill meets its guarantee: uniform price and limit where the book crosses, the tolerance where the buckets take the surplus, the floor in a one-sided book |
| Entitlement.SubmittedLeafExactly | aggregator/src/clearing-cycle.ts:431-828 | when a cycle submits, a committed order has a leaf if and only if it is direct, has at least 100000 in, its pool is known, and that pool, cleared on the committed orders that enter it, has it in its batch at a price its limit accepts |
| Entitlement.SubmittedLeafPays | aggregator/src/clearing-cycle.ts:431-828 | that leaf is the order's owner's, in the slot of the pool the order enters, and pays the order's own fill with its guarantee |
| Entitlement.OrderKeepsFields | aggregator/src/clearing-cycle.ts:513-523 | the clearing reads of a committed order what was committed |
| Pipeline.ActiveAscends | aggregator/src/clearing.ts:1056-1062 | the active pools stand in ascending order of their ids |
| Pipeline.CommitKeepsPools | aggregator/src/clearing-cycle.ts:585-828 | a commitment keeps the epoch's accumulator, the pools, their flows and remapped fills, and the root over at most 64 leaves |
| Settling.RouterClears | aggregator/src/clearing.ts:977-1062 | the router succeeds when its pools do, and clears if and only if one of them does |
| Settling.ResultCommits | aggregator/src/clearing-cycle.ts:585-828 | a cleared result of at most 64 orders is always committed to |
| Settling.EpochSettles | aggregator/src/clearing-cycle.ts:431-828 | accepted, routed and cleared without an error, an epoch settles exactly when some pool clears, and is reported as not crossing otherwise |
| Claims.LeavesAgree | contracts/orderbook/src/main.nr:1052-1058 | the leaf the contract rebuilds is the aggregator's, with the caller as owner |
| Claims.ClaimBook.ClaimFill | contracts/orderbook/src/main.nr:1031-1090 | a claim is paid exactly when hop, slot, root, path, note and the slot's first use check out, and uses the slot up |
| Claims.VerifyMerkleProof64 | contracts/orderbook/src/main.nr:1170-1184 | the contract's six-step walk is the fold by index bits |
| Claims.PaidClaimIsFill | contracts/orderbook/src/main.nr:1031-1090 | what is paid is the fill in its slot, to its owner, or the empty entry worth nothing |
| Claims.ClaimsNeverExceedFills | contracts/orderbook/src/main.nr:1031-1090 | over any run of claims, what is paid is what stands in the slots used, each once, and at most the fills together |
| Claims.EveryFillIsClaimable | contracts/orderbook/src/main.nr:1031-1090 | every unpaid fill has a claim by its owner that is paid |
| Redemption.FillsNonNeg | aggregator/src/clearing.ts:462-479 | no clearing pays a negative amount |
| Redemption.RedeemedWithinFills | contracts/orderbook/src/main.nr:1031-1090 | claims against a submitted root never exceed the submitted fills |
| Redemption.EntitledOrderIsRedeemed | contracts/orderbook/src/main.nr:1031-1090 | a committed order its pool fills has a slot whose owner's claim is paid its own fill, as long as the slot is unpaid |
| Watcher.EpochWatcher.OnBlock | aggregator/src/main.ts:287-367 | the poll's decision: refresh the window, then clear, roll or neither |
| Watcher.EpochWatcher.Handle | aggregator/src/main.ts:284-376 | every segment between two awaits is one step of the state machine |
| Watcher.EpochWatcher.Drive | aggregator/src/main.ts:284-376 | any finite part of the loop's life is a run of the state machine |
| Watcher.RunIsExclusive | aggregator/src/main.ts:283-375 | at most one of cycle and roll is pending, the watcher's flag is up exactly then, the cycle's flag implies it, and no cycle is skipped as in flight |
| Watcher.PendingBlocksOthers | aggregator/src/main.ts:276-320 | until a pending call's finally runs, no roll is decided or sent and no cycle started |
| Watcher.RollsAreSpaced | aggregator/src/main.ts:321-340 | any two roll decisions are more than 90 s apart per roll between them |
| Watcher.CycleStarts | aggregator/src/main.ts:295-332 | in any reachable state a poll starts a cycle if and only if clearing is configured, nothing is pending, the epoch's last block is known to have come and a reveal for it is queued |
| Watcher.RollIsDecided | aggregator/src/main.ts:333-349 | a roll is decided if and only if rolling is configured, nothing is pending, the epoch has expired without a reveal and more than 90 s have passed since the last |
| Watcher.RollGoesOut | aggregator/src/main.ts:350-374 | after the balance read the roll goes out unless the balance is low; a failed read sends it |
| Watcher.PollClears | aggregator/src/main.ts:284-332 | from any reachable idle state the poll of an expired epoch with a queued reveal starts a cycle |
| Watcher.CycleSegments | aggregator/src/clearing-cycle.ts:431-436 | the drain takes exactly the epoch's reveals, and a cycle that returns brings none back |
| Watcher.CycleEndsEarly | aggregator/src/main.ts:313-332 | a cycle that ends before its drain frees the watcher and leaves the queue alone |
| Watcher.FailedReadSleeps | aggregator/src/main.ts:368-375 | a failed read ends the poll and changes nothing else |
| Watcher.PendingCanEnd | aggregator/src/main.ts:313-367 | from any reachable state at most two completions lower both flags |
| Watcher.RollFindsReveals | aggregator/src/main.ts:321-367 | a roll goes out on an empty epoch if and only if no reveal for it arrived during the balance read |
| Watcher.RollCanMeetReveal | aggregator/src/main.ts:321-367 | a run in which the roll closes an epoch that holds a reveal |
| Watcher.ThrownCycleKeepsReveals | aggregator/src/clearing-cycle.ts:871-879 | a thrown cycle's reveals are queued again, unless their epoch left the window or is full |
| Deposit.DepositIsMaximal | aggregator/src/buckets.ts:35-81 | a deposit buys exactly the liquidity the offered amounts can afford, in every regime |
| Deposit.DepositIsCovered | aggregator/src/buckets.ts:35-81 | a deposit never takes more than offered, and only the token its regime needs |
| Deposit.DepositPays | aggregator/src/buckets.ts:35-81 | what a deposit takes pays for the liquidity it buys, short by less than a unit of each token it needs |
| Deposit.ApplyL64Guard | scripts/deepen-pools.ts:295-324 | the shrink loop equals its recursive specification |
| Deposit.PreflightIsSafe | scripts/deepen-pools.ts:295-324 | a non-zero amount reported below 2^64 does keep the bucket below 2^64, and was only ever reduced |
| Deposit.ReportIsHonest | scripts/deepen-pools.ts:295-324 | the report describes the deposit it names if and only if token A does not shrink away above the bucket |
| Deposit.WhenItShrinksAway | scripts/deepen-pools.ts:295-324 | bounds on the amount alone: up to one unit per round it shrinks away, and above 2^rounds it does not when the target is half the liquidity |
| Deposit.GuardCanMislead | scripts/deepen-pools.ts:295-324 | a generated bucket and an input whose deposit adds 2^64 while the report says nothing |
| Deposit.OneReductionSuffices | scripts/deepen-pools.ts:290-320 | where token A decides, below the bucket or in it, one reduction that floors to something is enough, and it goes to nine tenths of the room left |
| Deposit.FittingDepositStays | scripts/deepen-pools.ts:295-324 | a deposit that keeps the bucket below 2^64 is left as it is |
| Grid.ComputeBucketBounds | scripts/deepen-pools.ts:266-275 | the growth loop gives the id-th lower bound and the next one |
| Grid.GridIsContiguous | scripts/deepen-pools.ts:266-275 | the generated grid is contiguous and rising if and only if the first bucket is not rounded away |
| Grid.DivisorsArePositive | scripts/deepen-pools.ts:266-275 | from a first bound of at least 1e9 every down-step divisor in the grid is positive |

## Left out

- The watcher's status record, log lines and configuration parsing are not modelled.
- Deposit.OneReductionSuffices: says nothing where token B binds, because shrinking token A then frees nothing until it binds instead.
- Monotonicity of token A output in the input, and exact containment of the down step: the rounding breaks both.
- `simulateNet`, `hopPayout` and the single-pool cycle of `daemon.ts`: no longer on the settlement path.
- The composite two-hop pricing pass: shown unreachable instead.
- Pool state commitments, proof and verification-key bytes, the witness file and the circuits.
- Padding of the public inputs to three pools and four deltas per pool.
- The snapshot file, HTTP servers, relayer mode, and every script other than the three helpers.
- The per-share fee fields of the aggregate flows, which are always zero.
- Fixed integer widths: the program computes on arbitrary-precision integers, and the few plain numbers (epoch ids, block numbers, list sizes) stay far below 2^53.
- On-chain contract behaviour, except the order accumulator, the claims of fills, and the claim formula that the fee bounds are about: escrow, notes, tokens and cancellation are not modelled.
