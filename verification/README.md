# AstraPort contracts: a verified model

AstraPort is a set of Soroban smart contracts. This project models eleven of its state machines in
Dafny and proves what they keep: the prediction market's constant-product pool and its ledgers, its
order book, the hash-chained audit log, governance with its timelock and treasury, payments custody,
event delivery, the emergency rate limiter, the price feed, fees, and gamification.

## How it is organised

For each contract there is

* a specification on values (`Cpmm`, `Market`, `OrderBook`, `AuditLog`, `Governance`, `Treasury`,
  `Payments`, `Delivery`, `RateLimit`, `PriceFeed`, `Fee`, `Gamification`): the stored state, one
  function for each entry point, `Step` for one call and `Run` for any sequence of calls. An entry
  point that returns an error or panics leaves the state as it was;
* a module of laws about that specification (`...Laws`): invariants of every run, safety over whole
  runs, conservation, round trips, and the exact conditions under which a law that the contract's
  documentation suggests does hold;
* a class or methods in the contract's own imperative form (`...Contract`, `CpmmPool`): fields for the
  storage entries, the loops of the source, and postconditions that equate the new state and the answer
  with the specification, so that every law carries over.

`Wrappers`, `Host`, `Checked`, `Sums`, `Bytes`, `HashChain` and `Bounded` hold what several contracts
share: results, host types, checked and wrapping arithmetic, sums over map values, big-endian
encodings, hash folds and bounded logs. `GovernanceExamples` holds whole runs of the governance contract,
and `BadgeLaws` what concerns the badges of gamification. The modules named `...Rules` say, for the calls
of each contract, when they succeed, what they write and on whose account, in the stored fields alone and
without the functions of the specification that decide it; and where stored facts come from over whole runs.

Ledger time is a parameter of each call; laws that need it require that it never decreases. A signature
is a caller argument compared with the address that must have signed. `i128` results of checked
operations carry the overflow branch. Unchecked `i128` sums, differences and products, and unchecked
`u64` sums of time, wrap around as they do in a release build (the release profile of `Cargo.toml:33-37`
sets no overflow checks); a law that this can break says exactly when it does. Division of negative
numbers truncates toward zero, and panics when its quotient does not fit. Runs of the audit log, of
governance and of its treasury start from an empty store, with `initialize` as one of the calls. The hash
function of the audit log is a parameter, so its laws hold for every hash.

## Where the code and its documentation disagree

The model follows the code.

* `match_order` fills resting orders in the order they arrived, not by price
  (`OrderBookLaws.BestPriceFirstIff` says exactly when the two agree).
* `add_liquidity` on a pool in use takes `R_0 * amount / C` of collateral, not `amount`; so depositing
  and burning can return more collateral than it took, exactly when `R_0 + 1 < C`
  (`CpmmLaws.CollateralFairIff`).
* `create_liquidity_pool` overwrites an existing pool and whatever is in it (`MarketLaws.RecreationIff`,
  `MarketLaws.RunExactIff`, `MarketLaws.RecreationExample`).
* Market creation takes any fee rate. Beyond 100 percent, and for most rates below zero, a trade can leave a
  negative amount in the pool (`MarketLaws.FeeRateIff`).
* The self-check of a pool wraps its difference, so that it also passes a product that is off by 2^127 or by
  2^128 - 1 (`CpmmLaws.DistanceIff`); no reachable pool is off at all (`MarketLaws.VerifyInvariantHolds`).
* The bytes of a state snapshot do not say where its keys end, so different snapshots can have the same bytes,
  and the chain does not tell them apart (`AuditRules.SnapshotExample`, `AuditRules.SnapshotInjective`).
* `EntryCount` of the audit log is not lowered by pruning (`AuditLaws.EntryCountIff`).
* `initialize` of the audit log resets the counters of events logged before it. The integrity check then
  fails until the next event or prune (`AuditLaws.RunIntact`), and the indexes list lost ids until those
  are pruned (`AuditLaws.IndexRefinesScan`).
* `initialize` of governance resets the recorded total of voting power, but not the deposits
  (`GovernanceLaws.RunPower`), and starts proposal and request ids over, so that a final proposal can be
  opened again (`GovernanceExamples.LateInitializeReopens`) without ever counting the votes on record for its
  id (`GovernanceLaws.RunTallies`), and two requests are paid under one id
  (`TreasuryLaws.LateInitializeRequest`).
* A timelock delay is accepted whatever its size, but a sum that exceeds 64 bits wraps and delays
  nothing (`GovernanceLaws.TimelockSafety`, `GovernanceExamples.WrappedDelayExample`). A voting period
  whose end wraps leaves no time to vote at all (`GovernanceLaws.WindowIff`, `GovernanceLaws.RunInWindow`).
  A rate limit whose window wraps limits nothing (`RateLimitLaws.BoundedIff`, `RateLimitLaws.RefusedIff`).
* Scores are documented as 0 to 100; a return beyond `I128_MAX / 30` wraps its product and can score far
  below zero (`GamificationLaws.InRangeIff`, `GamificationLaws.WrappedScoreExample`).
* The anomaly test is exact up to a distance of `I128_MAX / 10000` from the median and wraps beyond it
  (`PriceFeedLaws.NotAnomalousIff`, `PriceFeedLaws.WrappedDeviationExample`); the mean of two middle
  prices and the weighted sums wrap as well (`PriceFeedLaws.RobustIff`, `PriceFeedLaws.AgreeingIff`).
* Deposited voting power is only a number: withdrawn and deposited by someone else it votes again, and a
  tally can wrap (`GovernanceExamples.WrappedTallyExample`).
* The emergency pause is documented to stop proposals, voting and withdrawals, and the quorum to be a share
  of the total supply. No entry point reads either: without the calls that set them every other answer is
  the same (`GovernanceLaws.RunIgnores`, `GovernanceExamples.QuorumExample`).
* The treasury's spend limit is checked when a request is made, not when it is paid
  (`TreasuryLaws.LimitIsPerRequest`); a payment is still within it if neither the balance nor the share has
  fallen since (`TreasuryLaws.ExecutedWithinShare`).
* Caps on payments are checked on withdrawal, transfer and escrow creation, not on settlement
  (`PaymentsLaws.SettleIff`).
* A payment cap of zero is documented to switch the cap off. What is stored then is an entry without a value.
  Whether the host reads it back as no entry or traps is a parameter here; if it traps, nothing that asks for
  the cap succeeds any more (`PaymentsLaws.ClearedCap`).
* Mapping an asset to another token moves what is owed in it to that token, but no tokens
  (`PaymentsLaws.SetTokenIff`, `PaymentsLaws.RunSolvent`).
* `remove_liquidity` does not ask whether the provider holds what it burns, so LP balances can turn negative
  (`MarketLaws.BalancesIff`, `MarketLaws.BurnExample`).
* A batch window is stored with a subscription but never read; a batch is flushed by size or by hand,
  and a flush inside a dispatch cannot deliver the dispatch's own records, except at the last second that 64
  bits can hold (`DeliveryLaws.DispatchDefersIff`).
* Tiers of a fee are documented as scanned from the highest threshold; the code scans from the last
  entry. That is the same exactly when every threshold listed before a lower one is listed after it again
  (`FeeLaws.TierIsHighestIff`); with thresholds 5 and 3 in this order it is not (`FeeLaws.TierOrderExample`).
* A hundred successful trades and a return of 100 percent are defined to earn 50 each, but are evaluated under
  badge ids that no definition has, so that neither ever pays (`BadgeLaws.RewardlessIff`). A definition that is
  not active pays as before (`BadgeLaws.ActiveIgnored`).
* A leaderboard page holds at most a hundred players whatever limit is asked for, so pages a larger
  limit apart skip players (`GamificationLaws.TilesIff`).

## Model

| member | source | states |
|---|---|---|
| CpmmLaws.BuyRounding | contracts/prediction/src/cpmm.rs:133-229 | a completed buy keeps the pool valid; the traded k_i never rises and falls by less than the new collateral, and no other k_j falls |
| CpmmLaws.SellRounding | contracts/prediction/src/cpmm.rs:231-329 | a completed sale keeps the pool valid; the traded k_i never rises and falls by less than the new reserve, and no other k_j rises |
| CpmmLaws.RoundTripBound | contracts/prediction/src/cpmm.rs:133-321 | buying outcome i and selling exactly the tokens received returns, before the second fee, B with a <= B and (B - a) * R_i <= C' + R_i - 2, and restores the reserves |
| CpmmLaws.RoundTripBoundIsTight | contracts/prediction/src/cpmm.rs:133-321 | a pool on which that bound is attained |
| CpmmLaws.RemoveIsFair | contracts/prediction/src/cpmm.rs:442-497 | burning shares never lowers the collateral or any reserve per remaining share, and exceeds the exact share by less than one unit |
| CpmmLaws.NoOutcomeGain | contracts/prediction/src/cpmm.rs:331-497 | depositing and burning exactly the minted shares never returns more of any outcome than was put in |
| CpmmLaws.NoCollateralGain | contracts/prediction/src/cpmm.rs:331-497 | nor more collateral, when R_0 + 1 >= C |
| CpmmLaws.CollateralFairIff | contracts/prediction/src/cpmm.rs:331-497 | in a pool that can take a deposit as large as its collateral without overflow: over all deposits, no collateral is gained if and only if R_0 + 1 >= C |
| CpmmLaws.CollateralGainExample | contracts/prediction/src/cpmm.rs:379-395 | a pool with R_0 < C where depositing takes 1000 and burning returns 1500 |
| CpmmLaws.DepositsKeepValid | contracts/prediction/src/cpmm.rs:331-441 | adding liquidity and distributing fees keep collateral, reserves and supply non-negative and every k_i exact |
| CpmmPool.LiquidityPool.BuyOutcomeTokens | contracts/prediction/src/cpmm.rs:133-229 | the swap on the pool's own fields: result and new state are those of the specified buy, errors included |
| CpmmPool.LiquidityPool.SellOutcomeTokens | contracts/prediction/src/cpmm.rs:231-329 | the sale on the pool's own fields: collateral out after the fee, slippage bound and new state as specified, errors included |
| CpmmPool.LiquidityPool.AddLiquidity | contracts/prediction/src/cpmm.rs:331-441 | the deposit on the pool's own fields: shares minted and amounts taken as specified, into an empty pool or one in use |
| CpmmPool.LiquidityPool.RemoveLiquidity | contracts/prediction/src/cpmm.rs:442-505 | the withdrawal on the pool's own fields: each reserve and the collateral pay out their rounded-down share |
| CpmmPool.LiquidityPool.MatchReserves | contracts/prediction/src/cpmm.rs:397-417 | the loop that matches a deposit in every reserve: the proportional amounts, added to the reserves |
| CpmmPool.LiquidityPool.ReleaseReserves | contracts/prediction/src/cpmm.rs:465-479 | the loop that pays out every reserve in proportion |
| CpmmPool.LiquidityPool.UpdateAllK | contracts/prediction/src/cpmm.rs:529-540 | every k_i becomes exactly C * R_i, or the call fails |
| CpmmPool.LiquidityPool.VerifyInvariant | contracts/prediction/src/cpmm.rs:507-527 | answers true exactly when each product C * R_i fits and the wrapped distance of the stored k_i from it is at most one |
| CpmmLaws.DistanceIff | contracts/prediction/src/cpmm.rs:519-523 | a stored k passes the self-check if and only if it differs from the product by at most one, by 2^127 or by 2^128 - 1 |
| CpmmPool.LiquidityPool.DistributeLpFees | contracts/prediction/src/settlement.rs:269-295 | fees move into the collateral; the amount returned and the new pool are those specified |
| MarketLaws.StepConserves | contracts/prediction/src/lib.rs:207-566 | one call moves collateral plus fees, and each outcome's supply, by exactly what it reports, less what a creation drops of the pool it overwrites; the recorded LP total stays the sum of the balances, and differs from the pool's own supply by what was dropped |
| MarketLaws.RunConserves | contracts/prediction/src/lib.rs:207-566 | in every run, less what creations dropped: collateral plus fees is the sum of the reported flows, each outcome's reserve plus all balances the sum of the liquidity flows, and the pool's LP supply the recorded total, which is the sum of the balances; every k_i is exact |
| MarketLaws.RunExactIff | contracts/prediction/src/lib.rs:207-566 | at a fee rate of 0 to 100 percent, the end of a run holds everything reported and nothing else if and only if no creation overwrote a pool with anything in it |
| MarketLaws.OnceDropsNothing | contracts/prediction/src/lib.rs:207-277 | a run with one creation at most drops nothing |
| MarketLaws.RunKeepsValid | contracts/prediction/src/lib.rs:207-566 | with a fee rate of 0 to 100 percent every reachable pool meets the assumptions of the swap laws |
| MarketLaws.FeeRateIff | contracts/prediction/src/lib.rs:83-152 | every reachable pool of a market open to trade is free of negative amounts if and only if its fee rate is from 0 to 100 percent, or so far below zero that no trade goes through |
| MarketLaws.VerifyInvariantHolds | contracts/prediction/src/cpmm.rs:507-527 | the on-chain self-check holds on every reachable pool, at any fee rate and however often the pool was created |
| MarketLaws.RecreationIff | contracts/prediction/src/lib.rs:207-277 | a creation conserves collateral, the supply of every outcome and the LP totals if and only if the pool it overwrites holds none of them |
| MarketLaws.RecreationExample | contracts/prediction/src/lib.rs:207-277 | a run of two creations of 1000 each that leaves 1000 of collateral and of each outcome to 2000 LP tokens |
| MarketLaws.BurnIff | contracts/prediction/src/lib.rs:348-384 | a completed withdrawal leaves the provider a non-negative LP balance exactly when it burns no more than that balance |
| MarketLaws.BalancesIff | contracts/prediction/src/lib.rs:207-384 | along a run, at any fee rate, no LP balance is ever negative if and only if no withdrawal burns, and no deposit mints below zero, more than its provider holds |
| MarketLaws.OnlyWithdrawalsTake | contracts/prediction/src/lib.rs:207-384 | at a fee rate of 0 to 100 percent, after any run, no call but a withdrawal takes LP tokens from anyone |
| MarketLaws.BurnExample | contracts/prediction/src/lib.rs:348-384 | a run in which someone without LP tokens burns half of the pool |
| MarketRules.SaleMeans | contracts/prediction/src/lib.rs:496-566 | a completed sale was made in an open market of 0 < tokens <= the seller's balance of that outcome; it lowers exactly that balance by the tokens, pays at least the bound and charges the market's fee |
| MarketRules.SaleRefusedIff | contracts/prediction/src/lib.rs:521-529 | in an open market a sale answers InsufficientBalance if and only if the seller holds less of that outcome |
| MarketRules.PurchaseMeans | contracts/prediction/src/lib.rs:402-493 | a completed buy in an open market raises exactly the buyer's balance of that outcome by the tokens out, at least the bound, and charges the market's fee |
| MarketRules.PurchaseWithinCap | contracts/prediction/src/lib.rs:402-493 | after it the sum of the reserves and the payment were within the market's cap, if it has one |
| MarketRules.StepOutcomes | contracts/prediction/src/lib.rs:207-566 | a balance of outcome tokens changes by its owner's own trades in that outcome only, and none turns negative |
| MarketRules.RunOutcomes | contracts/prediction/src/lib.rs:207-566 | in every run, at any fee rate, no balance of outcome tokens is ever negative |
| MarketRules.StepLp | contracts/prediction/src/lib.rs:207-384 | a balance of LP tokens changes by its owner's own calls only: a creation credits the seed, a deposit what it mints, a withdrawal debits what it burns |
| MarketRules.LiquidityNeeds | contracts/prediction/src/lib.rs:207-384 | what the status, the seed, the pool's supply and the administrator must be for liquidity calls and fee distribution, and what they leave in the pool |
| MarketRules.BuyTerms | contracts/prediction/src/cpmm.rs:133-229 | a completed buy on the pool yields at least min_outcome_tokens and a positive number; fee, volume and price impact are those of the payment, rounded down |
| MarketRules.SellTerms | contracts/prediction/src/cpmm.rs:231-329 | a completed sale on the pool pays at least min_collateral and a positive amount; fee and price impact are those of all that leaves the reserve, rounded down |
| MarketRules.DepositTerms | contracts/prediction/src/cpmm.rs:379-417 | a deposit into a pool in use mints its share of the supply and takes its share of each reserve, rounded down |
| MarketContract.PredictionMarket.CreateLiquidityPool | contracts/prediction/src/lib.rs:207-277 | an active market gets a pool with the seed in collateral and every outcome, credited to the creator; an error changes nothing |
| MarketContract.PredictionMarket.AddLiquidity | contracts/prediction/src/lib.rs:279-346 | the provider's LP balance, the LP total, the pool and the market's collateral total move as specified, or nothing does |
| MarketContract.PredictionMarket.RemoveLiquidity | contracts/prediction/src/lib.rs:348-384 | the shares leave the provider, the total and the pool together, or nothing does |
| MarketContract.PredictionMarket.BuyOutcome | contracts/prediction/src/lib.rs:397-496 | within the trading window and the supply cap, pool, buyer's balance and volume move as specified, or nothing does |
| MarketContract.PredictionMarket.SellOutcome | contracts/prediction/src/lib.rs:498-566 | within the window and the seller's balance, pool, balance and volume move as specified, or nothing does |
| MarketContract.PredictionMarket.DistributeFees | contracts/prediction/src/lib.rs:925-946 | the administrator moves the fees into the collateral; anyone else changes nothing |
| MarketContract.PredictionMarket.TotalReserves | contracts/prediction/src/lib.rs:423-431 | the sum over the reserves, or overflow at the first partial sum that does not fit |
| OrderBookLaws.FillAtBounds | contracts/prediction/src/orderbook.rs:220-294 | an order is filled by at most what it has left, and by something exactly when it is eligible and the taker is not done |
| OrderBookLaws.MatchTotal | contracts/prediction/src/orderbook.rs:199-306 | the fills sum to min(amount, total eligible remaining), and the list loses exactly that |
| OrderBookLaws.FillOrigin | contracts/prediction/src/orderbook.rs:220-294 | every fill takes a positive quantity of an eligible listed order, within the limit, at that order's price |
| OrderBookLaws.FillsAddUp | contracts/prediction/src/orderbook.rs:220-294 | the fills of the first n orders sum to what they fill together |
| OrderBookLaws.RestAddsUp | contracts/prediction/src/orderbook.rs:220-294 | what is left of the first n orders is what they had less what was filled |
| OrderBookLaws.PlaceAgrees | contracts/prediction/src/orderbook.rs:50-94 | placing keeps list and store in agreement |
| OrderBookLaws.CancelAgrees | contracts/prediction/src/orderbook.rs:96-130 | cancelling keeps list and store in agreement |
| OrderBookLaws.MatchAgrees | contracts/prediction/src/orderbook.rs:199-306 | matching keeps list and store in agreement |
| OrderBookLaws.RunAgrees | contracts/prediction/src/orderbook.rs:50-320 | in every reachable state the list holds exactly the live orders of the store, once each, with increasing ids, equal fields and 0 < remaining <= amount |
| OrderBookLaws.BestPriceFirstIff | contracts/prediction/src/orderbook.rs:220-294 | matching in arrival order respects price priority exactly when every reached order is followed only by better ones it exhausts |
| OrderBookLaws.ArrivalOrderExample | contracts/prediction/src/orderbook.rs:50-294 | a run that places two asks, the dearer first: a buyer of one token gets the dearer, and the cheaper is left |
| OrderBookRules.FillMeans | contracts/prediction/src/orderbook.rs:215-294 | every fill is of a listed order of the other side, for the same outcome, still resting, within the limit; it names order, maker and taker, at the order's price, and its fee is the rate of the notional, rounded down |
| OrderBookRules.MatchExhausts | contracts/prediction/src/orderbook.rs:199-306 | a taker that is not served in full exhausts every order it crosses |
| OrderBookRules.PlaceIff | contracts/prediction/src/orderbook.rs:50-94 | placed if and only if amount and price are positive and fewer than 256 orders are listed; then with these terms under the next id |
| OrderBookRules.CancelIff | contracts/prediction/src/orderbook.rs:96-130 | cancelled if and only if resting, by its owner or the administrator; nothing else leaves the list |
| OrderBookContract.Book.PlaceOrder | contracts/prediction/src/orderbook.rs:50-94 | a positive order below the depth limit is stored under the next id and listed last; agreement is kept |
| OrderBookContract.Book.CancelOrder | contracts/prediction/src/orderbook.rs:96-130 | the owner or the administrator cancels a live order in list and store; agreement is kept |
| OrderBookContract.Book.RemoveOrderFromList | contracts/prediction/src/orderbook.rs:309-320 | removes the first order of the id and keeps the rest in order |
| OrderBookContract.Book.Walk | contracts/prediction/src/orderbook.rs:215-300 | the matching loop: the greedy fills, the orders left, the store and what is left to fill |
| OrderBookContract.Book.MatchOrder | contracts/prediction/src/orderbook.rs:199-306 | the fills, their sum and the new book; agreement is kept |
| OrderBookContract.Book.GetBookSnapshot | contracts/prediction/src/orderbook.rs:140-197 | bid and ask counts, the highest bid, the lowest ask, and the spread between them |
| AuditLaws.RunValid | contracts/audit/src/lib.rs:83-475 | every reachable state has gapless entries, a head in step with them once an event is logged, and buckets of exactly the lost and the logged ids |
| AuditLaws.RunTimed | contracts/audit/src/lib.rs:142-247 | timestamps of the log never decrease when ledger time does not |
| AuditLaws.RunIntact | contracts/audit/src/lib.rs:306-361 | in every run of logging, pruning and initializing the integrity check succeeds if and only if an event is logged or the head is the origin; otherwise the head is the last one lost by a late initialize |
| AuditLaws.RunHeadIsFold | contracts/audit/src/checksum.rs:112-123 | in every run the recorded head is the fold of the chain from its origin over the payloads of ids FirstSeq to NextSeq if and only if an event is logged or the head is the origin |
| AuditLaws.LostOnce | contracts/audit/src/lib.rs:83-96 | the first initialize loses exactly the entries logged so far and leaves the head; a second one changes nothing |
| AuditLaws.SameHeadSamePayloads | contracts/audit/src/lib.rs:306-361 | two logs over the same ids with the same head hold the same payloads, or exhibit a collision among the inputs they hashed |
| AuditLaws.PayloadDetermines | contracts/audit/src/checksum.rs:72-110 | equal payloads agree in every fixed-width number and each of the six digests |
| AuditLaws.IndexRefinesScan | contracts/audit/src/lib.rs:220-247 | in every run joining the buckets and dropping pruned ids is exactly the ascending scan, for every event type, actor, portfolio and outcome, if and only if the ids of all entries lost by a late initialize are pruned |
| AuditLaws.BucketShape | contracts/audit/src/lib.rs:541-556 | in every run bucket b is two lists of at most 250 strictly increasing ids from (250b, 250(b+1)], the first empty unless initialize came late |
| AuditLaws.RetentionExact | contracts/audit/src/lib.rs:363-431 | in every run with ordered time pruning removes a prefix; both configured limits hold afterwards, and keeping one more entry would break one |
| AuditLaws.EntryCountIff | contracts/audit/src/lib.rs:211-218 | in every run EntryCount is the number retained exactly until a first prune |
| AuditLaws.MatchingSound | contracts/audit/src/lib.rs:250-277 | in every run every query result matches, is stored, and comes by ascending id |
| AuditLaws.MatchingComplete | contracts/audit/src/lib.rs:250-277 | in every run every retained entry that matches is among the results |
| AuditRules.EntryOrigin | contracts/audit/src/lib.rs:142-247 | in every run each stored entry records, field by field, the call that logged it |
| AuditRules.LogMeans | contracts/audit/src/lib.rs:142-247 | logging stores exactly one entry, under the next id, with the hash of the head so far and its payload, and makes that the head |
| AuditRules.StepAuthority | contracts/audit/src/lib.rs:83-475 | the administrator is set once, only it changes the policy, and entries disappear only when it prunes |
| AuditRules.PruneIff | contracts/audit/src/lib.rs:363-385 | pruning succeeds if and only if the administrator asks and the policy limits number or age |
| AuditRules.QueryIff | contracts/audit/src/log_query.rs:115-137 | in every run a stored entry is among the unlimited results if and only if from, to, type, actor, portfolio and outcome, as far as set, hold of its own fields |
| AuditRules.IndexMeans | contracts/audit/src/lib.rs:220-247 | the four indexes list a stored id under its entry's own event type, actor, portfolio and outcome, and no other |
| AuditRules.PayloadLayout | contracts/audit/src/checksum.rs:72-110 | the payload is these ten parts in this order |
| AuditRules.TextInjective | contracts/audit/src/checksum.rs:31-55 | the bytes of ASCII texts are their characters, so different texts have different bytes |
| AuditRules.PayloadNames | contracts/audit/src/checksum.rs:72-110 | entries with one payload name the same actor, portfolio, outcome and detail, or two of these names collide under the hash |
| AuditRules.SnapshotInjective | contracts/audit/src/checksum.rs:57-68 | snapshots with equal bytes are equal when their keys have the same lengths |
| AuditRules.SnapshotExample | contracts/audit/src/checksum.rs:57-68 | two different snapshots with the same bytes |
| AuditContract.AuditContract.Initialize | contracts/audit/src/lib.rs:83-96 | sets the administrator once and resets the counters |
| AuditContract.AuditContract.SetRetentionPolicy | contracts/audit/src/lib.rs:110-122 | stores the policy, for the administrator only |
| AuditContract.AuditContract.LogEvent | contracts/audit/src/lib.rs:142-247 | the new storage is the specified one: entry, head, counters and the four indexes |
| AuditContract.AuditContract.AppendToIndex | contracts/audit/src/lib.rs:541-556 | the id joins the bucket of its range and no other bucket changes |
| AuditContract.AuditContract.RunQuery | contracts/audit/src/lib.rs:250-284 | the first 50 matches of the full scan when the limit is 0, else the first `limit` |
| AuditContract.AuditContract.VerifyIntegrity | contracts/audit/src/lib.rs:286-296 | true exactly when the head is the expected one |
| AuditContract.AuditContract.Replay | contracts/audit/src/lib.rs:315-345 | the recomputed head, or nothing when an entry is missing |
| AuditContract.AuditContract.FullRecomputeIntegrity | contracts/audit/src/lib.rs:306-361 | true exactly when there is no gap and the recomputed head is the recorded one |
| AuditContract.AuditContract.CountOld | contracts/audit/src/lib.rs:388-405 | the number of leading entries older than the cutoff |
| AuditContract.AuditContract.RemoveBelow | contracts/audit/src/lib.rs:420-431 | exactly the entries below the new first id are removed |
| AuditContract.AuditContract.RecomputeHead | contracts/audit/src/lib.rs:433-455 | the chain recomputed from the origin over what is left |
| AuditContract.AuditContract.PruneOld | contracts/audit/src/lib.rs:363-474 | answer and new storage are those of the specified prune |
| Bytes.BigEndianInjective | contracts/audit/src/checksum.rs:72-110 | equal big-endian encodings of one width come from equal numbers |
| HashChain.SameHead | contracts/audit/src/checksum.rs:112-123 | two folds of one length with one result have equal inputs or a collision |
| GovernanceLaws.RunPower | contracts/governance/src/lib.rs:345-428 | in every run no power is zero or negative, and TotalVotingPower is the sum of all of it if and only if none was on deposit when initialize reset the total; otherwise it falls short by that |
| GovernanceLaws.LateInitializePower | contracts/governance/src/lib.rs:198-235 | a run with a deposit before initialize: the total is zero, then negative |
| GovernanceLaws.RunIds | contracts/governance/src/lib.rs:503-542 | in every run ids are handed out in order, and list and store hold the same ones if and only if as many are handed out as were before initialize |
| GovernanceLaws.SubmitReuses | contracts/governance/src/lib.rs:503-542 | a submission under an id that is stored writes the proposal only and keeps votes, claims and timelock; its tallies then count its records exactly when there are none |
| GovernanceLaws.RunTallies | contracts/governance/src/lib.rs:645-909 | in every run one record per token holder across direct and delegated votes; a proposal's tallies are the wrapped sums of the records made since it was opened, and voter_count their number; they count all its records if and only if none was there when it was opened, and exactly if and only if in addition the sums fit |
| GovernanceLaws.PassedIff | contracts/governance/src/lib.rs:945-1021 | a proposal passes if and only if, without rounding, its stored tallies reach the quorum, are not nil, and exceed the approval share, and the products fit |
| GovernanceLaws.PassedMeans | contracts/governance/src/lib.rs:945-1021 | in every run, when everything cast on a proposal fits and none of it before it was opened, Passed implies votes_for * 10000 > (for + against) * approval_bps and the quorum, in the sums of its records |
| GovernanceLaws.StepLater | contracts/governance/src/lib.rs:595-1145 | one call keeps all votes and claims; unless it opens the id anew it moves a proposal only along its lifecycle, adds votes only while voting is open, and changes no final record |
| GovernanceLaws.RunKeeps | contracts/governance/src/lib.rs:595-1145 | from any point of a run on no recorded vote or claim is changed or removed |
| GovernanceLaws.RunSettles | contracts/governance/src/lib.rs:595-1145 | from any point of a run on, unless the id is handed out again after a late initialize: closed votes stay closed, Executed and Cancelled never change |
| GovernanceExamples.LateInitializeReopens | contracts/governance/src/lib.rs:198-235 | from every state before initialize with a proposal 1, whatever its status, initialize and one submission open it for voting again |
| GovernanceLaws.WindowIff | contracts/governance/src/lib.rs:510-512 | a proposal submitted now can be voted on from now on if and only if now plus the voting period fits a timestamp, and then until that sum |
| GovernanceLaws.RunInWindow | contracts/governance/src/lib.rs:510-700 | in every run with ordered time each vote was cast between the submission and the recorded end; a proposal whose end wrapped has none |
| GovernanceLaws.TimelockSafety | contracts/governance/src/lib.rs:1046-1150 | in every run with ordered time, an execution at t follows a Passed verdict reached after the voting ended and a queueing at some t2 with the delay then stored for the action, emergencyDelay for an emergency action and timelockDelay for any other, which was positive; t >= t2 + delay if and only if the sum fits 64 bits |
| GovernanceExamples.WrappedDelayExample | contracts/governance/src/timelock.rs:37-69 | a whole run under a valid configuration whose delay wraps: queued and executed at one time |
| GovernanceExamples.WrappedTallyExample | contracts/governance/src/lib.rs:345-428 | a whole run in which the same power votes for twice, by two holders, and the tally wraps to -2 |
| GovernanceExamples.QuorumExample | contracts/governance/src/lib.rs:959-985 | a whole run in which one holder of 1000 passes a proposal while the documented quorum is 40000 |
| GovernanceLaws.RunIgnores | contracts/governance/src/lib.rs:1376-1460 | leaving out every call that pauses, unpauses or sets the total supply changes no answer to any other call and nothing else in the state |
| GovernanceLaws.ExecutedOrigin | contracts/governance/src/lib.rs:1473-1534 | a proposal is Executed only through the timelock or by the administrator and the guardian together |
| GovernanceLaws.RunActiveCap | contracts/governance/src/lib.rs:1794-1812 | the number of Voting, Passed and Timelock proposals is within the largest cap that was in force |
| GovernanceLaws.FixedConfigCap | contracts/governance/src/lib.rs:492-501 | from any call on after which the configuration is not set again, the active count never exceeds its max_active_proposals if it did not at that call |
| GovernanceLaws.StepCount | contracts/governance/src/lib.rs:492-501 | one call keeps or lowers the active count, or raises it to at most the cap |
| GovernanceLaws.RewardsAddUp | contracts/governance/src/lib.rs:1544-1616 | the recorded total of rewards is what the successful claims paid, wrapped, so exact if and only if that fits |
| GovernanceLaws.ClaimOnce | contracts/governance/src/lib.rs:1544-1616 | a second claim by a voter on a proposal fails, whatever happened in between |
| GovernanceRules.VoteOrigin | contracts/governance/src/lib.rs:645-909 | behind every vote record in every run stands a call by the holder, or by the delegate it then named, with the holder's whole power at that time |
| GovernanceRules.VoteIff | contracts/governance/src/lib.rs:645-780 | a vote succeeds if and only if voting is open, the holder has power and has not voted; it adds this record and counts it in its direction |
| GovernanceRules.DelegatedVoteIff | contracts/governance/src/lib.rs:789-909 | the same for a delegate, with the holder's power and its active delegation |
| GovernanceRules.QueueIff | contracts/governance/src/timelock.rs:37-70 | queueing succeeds if and only if the proposal is Passed and the delay stored for its action is positive; the entry then expires that delay from now |
| GovernanceRules.ExecuteIff | contracts/governance/src/lib.rs:1102-1150 | execution succeeds if and only if the proposal is queued and its entry neither done nor dropped and expired |
| GovernanceRules.EmergencyIff | contracts/governance/src/lib.rs:1473-1535 | emergency execution succeeds if and only if both officers sign and the proposal is not final |
| GovernanceRules.FinalizeIff | contracts/governance/src/lib.rs:926-1040 | after the voting ended the status becomes Passed when approved by the recorded total and configuration, else Defeated; it fails only before that or when a share does not fit |
| GovernanceRules.SubmitIff | contracts/governance/src/lib.rs:454-590 | a submission succeeds if and only if the proposer has the configured power and fewer proposals than the cap are open, passed or queued; then with these fields |
| GovernanceRules.CancelIff | contracts/governance/src/lib.rs:595-640 | the proposer or the administrator cancels, if and only if the vote is open |
| GovernanceRules.ClaimIff | contracts/governance/src/lib.rs:1544-1615 | a reward is paid if and only if the holder's power voted and it was not claimed; it is the configured one |
| GovernanceRules.InitializeIff | contracts/governance/src/lib.rs:198-235 | the first initialize names the officers, stores these defaults and resets the counters, not the deposits |
| GovernanceRules.ConfigureIff | contracts/governance/src/lib.rs:274-320 | only the administrator configures, within these ranges |
| GovernanceRules.DepositIff | contracts/governance/src/lib.rs:345-384 | a deposit raises the holder's power and the total by a positive amount, if both fit |
| GovernanceRules.WithdrawIff | contracts/governance/src/lib.rs:385-440 | a withdrawal lowers both by a positive amount that the holder has, and nobody else's power |
| GovernanceRules.DelegateIff | contracts/governance/src/lib.rs:1155-1255 | a holder delegates to anyone else, and revokes what it delegated |
| GovernanceRules.PauseIff | contracts/governance/src/lib.rs:1380-1460 | either officer pauses, only the administrator resumes, each only where it changes something |
| GovernanceRules.SupplyIff | contracts/governance/src/lib.rs:321-340 | only the administrator records a total supply |
| GovernanceContract.GovernanceDAO.Initialize | contracts/governance/src/lib.rs:198-251 | once: officers, default configuration, and zero totals, ids and list; deposits, proposals and votes stay |
| GovernanceContract.GovernanceDAO.SetConfig | contracts/governance/src/lib.rs:274-300 | the administrator stores a configuration that passes validation; otherwise nothing changes |
| GovernanceContract.GovernanceDAO.SetTotalSupply | contracts/governance/src/lib.rs:321-327 | the administrator stores the total supply |
| GovernanceContract.GovernanceDAO.DepositVotingPower | contracts/governance/src/lib.rs:345-383 | a positive deposit raises the holder's power and the total by the same amount, or overflows and changes nothing |
| GovernanceContract.GovernanceDAO.WithdrawVotingPower | contracts/governance/src/lib.rs:385-428 | a withdrawal within the holder's power lowers it and the total; an emptied entry is removed |
| GovernanceContract.GovernanceDAO.CountActiveProposals | contracts/governance/src/lib.rs:1794-1812 | the number of listed proposals that are being voted on, passed or in the timelock |
| GovernanceContract.GovernanceDAO.SubmitProposal | contracts/governance/src/lib.rs:454-576 | with enough power and below the cap, a proposal opens for voting under the next id |
| GovernanceContract.GovernanceDAO.CancelProposal | contracts/governance/src/lib.rs:595-633 | the proposer or the administrator cancels a proposal still being voted on; otherwise nothing changes |
| GovernanceContract.GovernanceDAO.RecordVote | contracts/governance/src/lib.rs:664-758 | the checks and the update that both kinds of vote share |
| GovernanceContract.GovernanceDAO.CastVote | contracts/governance/src/lib.rs:645-787 | an open proposal counts the voter's power once, in the chosen direction |
| GovernanceContract.GovernanceDAO.CastDelegatedVote | contracts/governance/src/lib.rs:789-909 | only an active delegate votes with the holder's power, recorded under the holder |
| GovernanceContract.GovernanceDAO.FinalizeProposal | contracts/governance/src/lib.rs:926-1044 | after the voting ended, the status becomes the specified verdict; before, nothing changes |
| GovernanceContract.GovernanceDAO.QueueTimelock | contracts/governance/src/lib.rs:1046-1095 | a passed proposal enters the timelock with the delay of its action; a zero delay is refused |
| GovernanceContract.GovernanceDAO.ExecuteProposal | contracts/governance/src/lib.rs:1102-1145 | a proposal in the timelock is executed once its entry has expired; otherwise nothing changes |
| GovernanceContract.GovernanceDAO.EmergencyExecute | contracts/governance/src/lib.rs:1473-1534 | signed by the administrator and the guardian, any proposal that is not final is executed at once |
| GovernanceContract.GovernanceDAO.DelegatePower | contracts/governance/src/lib.rs:1155-1206 | stores an active delegation to someone else |
| GovernanceContract.GovernanceDAO.RevokeDelegation | contracts/governance/src/lib.rs:1208-1240 | deactivates a stored delegation |
| GovernanceContract.GovernanceDAO.EmergencyPause | contracts/governance/src/lib.rs:1380-1427 | the administrator or the guardian sets the flag once |
| GovernanceContract.GovernanceDAO.EmergencyUnpause | contracts/governance/src/lib.rs:1429-1460 | the administrator alone clears a set flag |
| GovernanceContract.GovernanceDAO.ClaimRewards | contracts/governance/src/lib.rs:1544-1616 | a recorded voter is paid the configured reward once, and the total grows by it |
| TreasuryLaws.RunConserves | contracts/governance/src/treasury.rs:45-282 | in every run each asset's balance is its deposits less what executions paid, and never negative; it is also its deposits less the executed requests in the store if and only if no new request took the place of one of those, as none does without a late initialize |
| TreasuryLaws.RunLater | contracts/governance/src/treasury.rs:176-282 | unless its id is handed out again, a request keeps its terms and its approvals, and is frozen by its execution |
| TreasuryLaws.PaidOnlyWhenSigned | contracts/governance/src/treasury.rs:176-282 | a payment has at least the threshold of pairwise distinct approvers, each authorised when it signed |
| TreasuryLaws.ApprovalOrigin | contracts/governance/src/treasury.rs:176-228 | behind every recorded approval stands an authorised approving call |
| TreasuryLaws.PaidOnce | contracts/governance/src/treasury.rs:230-282 | a second execution of a request fails, whatever happened in between, unless its id was handed out again |
| TreasuryLaws.LateInitializeRequest | contracts/governance/src/treasury.rs:109-282 | a run with two successful executions of request 1, of 1000 made before initialize and of 500 made after it |
| TreasuryLaws.CreateIff | contracts/governance/src/treasury.rs:109-174 | in every run a request is accepted exactly when it is positive, the product fits, and, without rounding, it is within its share of the balance |
| TreasuryLaws.LimitIsPerRequest | contracts/governance/src/treasury.rs:109-174 | whatever the balance, two requests of all that the limit allows are accepted one after the other |
| TreasuryLaws.ExecutedWithinShare | contracts/governance/src/treasury.rs:109-282 | in every run a payment is within the share of the balance at its time if neither the balance nor the share has fallen since its request was made |
| TreasuryRules.RunSigners | contracts/governance/src/treasury.rs:323-366 | in every run the signers are those added and not removed since, each listed once |
| TreasuryRules.ApproveIff | contracts/governance/src/treasury.rs:176-228 | an approval succeeds if and only if a signer or the administrator gives it, once, before the execution |
| TreasuryRules.ExecuteIff | contracts/governance/src/treasury.rs:230-281 | an execution succeeds if and only if approvals reach the threshold and the balance covers the amount, once; it lowers that balance by the amount |
| TreasuryRules.DepositIff | contracts/governance/src/treasury.rs:45-90 | a deposit raises the balance of its asset by a positive amount, if it fits |
| TreasuryRules.AdministerIff | contracts/governance/src/lib.rs:198-320 | the first initialize and the administrator's configuration, and what they set |
| TreasuryContract.TreasuryStore.Initialize | contracts/governance/src/lib.rs:198-251 | once: administrator, default limits, and ids from one; balances, signers and requests stay |
| TreasuryContract.TreasuryStore.Configure | contracts/governance/src/lib.rs:274-300 | the administrator stores spend limit and threshold; a zero threshold is refused |
| TreasuryContract.TreasuryStore.Deposit | contracts/governance/src/treasury.rs:45-88 | a positive amount is added to the asset's balance, and the asset listed once |
| TreasuryContract.TreasuryStore.CreateRequest | contracts/governance/src/treasury.rs:109-174 | a positive amount within the spend limit is stored under the next id, without approvals |
| TreasuryContract.TreasuryStore.ApproveRequest | contracts/governance/src/treasury.rs:176-228 | an authorised signer is added once to the approvals of a request that was not executed |
| TreasuryContract.TreasuryStore.ExecuteRequest | contracts/governance/src/treasury.rs:230-280 | with enough approvals and balance the amount leaves the asset and the request is marked executed |
| TreasuryContract.TreasuryStore.AddSigner | contracts/governance/src/treasury.rs:323-341 | a signer joins the list once |
| TreasuryContract.TreasuryStore.RemoveSigner | contracts/governance/src/treasury.rs:343-364 | the first occurrence of a signer leaves the list |
| PaymentsLaws.StepBalanced | contracts/payments/src/lib.rs:231-531 | one call moves custody and liability of every token together, but for gifts, escrows released to the contract itself, and what a registration makes it owe in another token |
| PaymentsLaws.RunSolvent | contracts/payments/src/lib.rs:231-531 | in every run, custody of each token is the internal balances plus the active escrows mapped to it, plus what was given without being owed, plus what registrations moved to other tokens; balances are never negative |
| PaymentsLaws.RunCovers | contracts/payments/src/lib.rs:231-531 | so the contract always holds at least what it owes, whoever the parties are, unless an asset in which something is owed is mapped to another token |
| PaymentsLaws.SetTokenIff | contracts/payments/src/lib.rs:231-245 | a registration leaves every token's margin of custody over liability as it was if and only if the asset is new, the token unchanged or nothing is owed in the asset |
| PaymentsLaws.WithdrawIff | contracts/payments/src/lib.rs:338-363 | in a solvent state a withdrawal succeeds exactly when amount, cap, registration and balance allow it and no balance overflows: the tokens are always there |
| PaymentsLaws.CapRespected | contracts/payments/src/lib.rs:88-116 | the cap check passes exactly when both entries can be read and the amount is within every cap that is set |
| PaymentsLaws.ClearedCap | contracts/payments/src/lib.rs:256-302 | a cap set to zero limits nothing if the host reads an entry without a value as none; if it traps, every withdrawal, transfer and escrow of the asset fails |
| PaymentsLaws.SettlePays | contracts/payments/src/lib.rs:483-531 | a settlement, called by one of the two parties, pays the recorded amount from custody: a release to the receiver, a refund to the depositor, and records which |
| PaymentsLaws.SettleIff | contracts/payments/src/lib.rs:483-531 | in a solvent state a settlement succeeds if and only if the escrow is active, the caller a party and the receiving token balance does not overflow, whatever the caps |
| PaymentsLaws.SettleIgnoresCaps | contracts/payments/src/lib.rs:483-531 | other caps change neither whether a settlement succeeds nor what it does |
| PaymentsLaws.EscrowPaysOnce | contracts/payments/src/lib.rs:407-531 | an escrow has paid its recorded amount exactly when it is no longer active, and nothing before |
| PaymentsRules.TransferIff | contracts/payments/src/lib.rs:365-395 | a transfer succeeds if and only if the amount is positive, to someone else, within the caps, covered by the sender's balance, and the receiver's sum fits; it lowers exactly the sender's balance and raises exactly the receiver's |
| PaymentsRules.DepositIff | contracts/payments/src/lib.rs:316-336 | a deposit succeeds if and only if amount, registration, token balance and sums allow it; it credits exactly the sender and moves the tokens to the contract |
| PaymentsRules.WithdrawMeans | contracts/payments/src/lib.rs:338-363 | a withdrawal debits exactly its receiver's own balance and pays it the amount in the asset's token |
| PaymentsRules.CreateEscrowIff | contracts/payments/src/lib.rs:407-470 | an escrow is opened if and only if amount, parties, caps and the depositor's balance allow it; it moves the amount from that balance into an active escrow of these terms |
| PaymentsRules.StepMoves | contracts/payments/src/lib.rs:192-531 | every call moves exactly these internal balances, and lowers none but its signer's own |
| PaymentsRules.AdministerIff | contracts/payments/src/lib.rs:202-302 | only the administrator hands on its role, registers tokens and sets caps, none negative, and what each stores |
| PaymentsContract.PaymentsContract.SetToken | contracts/payments/src/lib.rs:231-245 | the administrator maps an asset to a token |
| PaymentsContract.PaymentsContract.SetGlobalCap | contracts/payments/src/lib.rs:256-277 | the administrator sets a non-negative cap; zero stores an entry without a value |
| PaymentsContract.PaymentsContract.SetAssetCap | contracts/payments/src/lib.rs:279-302 | the administrator sets a non-negative cap on one asset; zero stores an entry without a value |
| PaymentsContract.PaymentsContract.Deposit | contracts/payments/src/lib.rs:316-336 | tokens move in and the internal balance grows by the same amount, or neither |
| PaymentsContract.PaymentsContract.Withdraw | contracts/payments/src/lib.rs:338-363 | within cap and balance, the balance falls and the tokens move out, or neither |
| PaymentsContract.PaymentsContract.Transfer | contracts/payments/src/lib.rs:365-394 | within cap and balance, the amount moves between two internal balances; no tokens move |
| PaymentsContract.PaymentsContract.CreateEscrow | contracts/payments/src/lib.rs:407-470 | within cap and balance, the amount moves from the depositor's balance into a new active escrow |
| PaymentsContract.PaymentsContract.SettleEscrow | contracts/payments/src/lib.rs:472-531 | either party releases to the receiver or refunds the depositor, once, the recorded amount |
| DeliveryLaws.RunBooks | contracts/events/src/lib.rs:1232-1462 | in every run the metrics, the subscriptions' counters and the records agree on deliveries, failures, retries, acknowledgments and, up to multiples of 2^64, latency |
| DeliveryLaws.LatencyExactIff | contracts/events/src/lib.rs:1430-1465 | with ordered time the latency sum is exact if and only if it fits |
| DeliveryLaws.StepBooks | contracts/events/src/lib.rs:1113-1482 | every entry point keeps that agreement |
| DeliveryLaws.DeliverBooks | contracts/events/src/lib.rs:1324-1378 | a delivery pass keeps it |
| DeliveryLaws.DispatchExact | contracts/events/src/lib.rs:1232-1306 | a dispatched event gets exactly one record for every active matching subscription of its portfolio and none for others |
| DeliveryLaws.RunLists | contracts/events/src/lib.rs:1113-1158 | a portfolio's subscription ids are listed in ascending order, so once each |
| DeliveryLaws.DispatchDefers | contracts/events/src/lib.rs:1265-1300 | before the last second of 64 bits, all records of a dispatch are still waiting for the next second when it ends |
| DeliveryLaws.DispatchDefersIff | contracts/events/src/lib.rs:1265-1300 | at a given time no dispatch of any run delivers a record of its own if and only if one second later still fits 64 bits |
| DeliveryLaws.RunTimely | contracts/events/src/lib.rs:1430-1465 | no acknowledgment precedes its delivery, so the latency subtraction never underflows |
| DeliveryLaws.BackoffShape | contracts/events/src/subscriptions.rs:258-269 | the delay starts at one second, doubles, and is an hour exactly from the twelfth attempt on |
| DeliveryLaws.NumericDetail | contracts/events/src/subscriptions.rs:104-143 | a number written as a detail satisfies a condition exactly when it is greater, less, equal, not less or not greater, as asked |
| DeliveryRules.DispatchMeans | contracts/events/src/subscriptions.rs:70-143 | in every run a dispatch makes one record for each subscription of the portfolio that is active, asks for no higher severity, for this type if for any, and whose conditions sixteen-byte numbers meet; and none for any other |
| DeliveryRules.DeliverMeans | contracts/events/src/lib.rs:1324-1378 | a pass delivers exactly the subscriber's pending records that are due, and changes no other record |
| DeliveryRules.FailMeans | contracts/events/src/lib.rs:1380-1428 | a failure is noted on the first pending record of the event: one more attempt, the next after the backoff |
| DeliveryRules.AckMeans | contracts/events/src/lib.rs:1430-1465 | an acknowledgment goes to the first delivered record of the event and adds its waiting time |
| DeliveryRules.NoRecord | contracts/events/src/lib.rs:1380-1465 | both fail if and only if there is no such record |
| DeliveryRules.ChangeIff | contracts/events/src/lib.rs:1161-1211 | only the subscriber changes a subscription, and a cancelled one stays as it is |
| DeliveryRules.SubscribeMeans | contracts/events/src/lib.rs:1113-1158 | a new subscription has the terms asked for and joins its portfolio's list at the end |
| DeliveryRules.EnqueueMeans | contracts/events/src/lib.rs:1252-1285 | a notified subscription gets a pending record at the end of its subscriber's list, due a second later |
| DeliveryRules.BatchMeans | contracts/events/src/lib.rs:1285-1297 | in batch mode the event joins the batch; a full one is delivered and emptied |
| DeliveryRules.PassMeans | contracts/events/src/lib.rs:1324-1482 | a flush delivers what is due, empties the batch, and does nothing when it is empty |
| Bytes.I128RoundTrip | contracts/events/src/subscriptions.rs:104-143 | sixteen big-endian bytes and signed 128-bit numbers convert back and forth without loss |
| DeliveryContract.NumericDetailBytes | contracts/events/src/subscriptions.rs:104-112 | the sixteen bytes written decode to the number |
| DeliveryContract.ComputeBackoff | contracts/events/src/subscriptions.rs:258-269 | the doubling loop with its early exit computes min(2^n, 3600) |
| DeliveryContract.FilterMatches | contracts/events/src/subscriptions.rs:70-101 | the filter loops decide severity, type and all conditions |
| DeliveryContract.FindFirst | contracts/events/src/lib.rs:1393-1420 | the first record of an event in a status |
| DeliveryContract.EventContract.CreateSubscription | contracts/events/src/lib.rs:1113-1158 | a new active subscription under the next id, listed last for its portfolio |
| DeliveryContract.EventContract.UpdateSubscriptionPrefs | contracts/events/src/lib.rs:1161-1178 | the owner replaces the preferences of a subscription that is not cancelled |
| DeliveryContract.EventContract.SetSubscriptionStatus | contracts/events/src/lib.rs:1180-1211 | the owner changes the status; a cancelled subscription stays cancelled |
| DeliveryContract.EventContract.DeliverPending | contracts/events/src/lib.rs:1324-1378 | the delivered events, the records, counters and metrics are those of the specified pass |
| DeliveryContract.EventContract.MarkDeliveryFailed | contracts/events/src/lib.rs:1380-1428 | the first pending record of the event counts a failed attempt and is due again after the backoff; metric and subscription count it |
| DeliveryContract.EventContract.AcknowledgeDelivery | contracts/events/src/lib.rs:1430-1465 | the first delivered record of the event is acknowledged and its waiting time added to the latency |
| DeliveryContract.EventContract.FlushBatch | contracts/events/src/lib.rs:1467-1482 | a non-empty batch delivers what is due and is dropped; an empty one changes nothing |
| DeliveryContract.EventContract.NotifySubscription | contracts/events/src/lib.rs:1252-1297 | one subscription's part of a dispatch |
| DeliveryContract.EventContract.DispatchEvent | contracts/events/src/lib.rs:1232-1306 | the next event id; every listed subscription is notified in order, as specified |
| RateLimitLaws.AtMostTwice | contracts/emergency/src/lib.rs:908-948 | any half-open interval as long as the window holds at most twice max_calls allowed calls, when the windows that can start in it end within 64 bits |
| RateLimitLaws.BoundedIff | contracts/emergency/src/lib.rs:908-948 | an interval that long has this bound in every run if and only if every window that can start in it ends within 64 bits; otherwise it has none |
| RateLimitLaws.WrappedBurst | contracts/emergency/src/lib.rs:923-931 | at a time past the first window and too late for another, any number of calls is allowed |
| RateLimitLaws.TwiceIsReached | contracts/emergency/src/lib.rs:908-948 | and that many do occur, for every configuration with a window of at least two seconds |
| RateLimitLaws.PerWindow | contracts/emergency/src/lib.rs:908-948 | in every run each window that ends within 64 bits allows at most max_calls, and a stored one has counted what it allowed |
| RateLimitLaws.RefusedIff | contracts/emergency/src/lib.rs:908-948 | in every run a call is refused exactly when the stored window ends within 64 bits, is still open, and has allowed max_calls |
| RateLimitLaws.PutThenLookup | contracts/emergency/src/lib.rs:859-905 | a limit that is set is the one found, and no other operation's limit changes |
| RateLimitContract.RateLimiter.SetRateLimit | contracts/emergency/src/lib.rs:859-905 | answer, limits and incident log are those specified |
| RateLimitContract.RateLimiter.CheckRateLimit | contracts/emergency/src/lib.rs:908-948 | answer, counter and incident log are those specified; a refusal stores no counter |
| RateLimitContract.RateLimiter.AppendIncident | contracts/emergency/src/lib.rs:278-299 | appends to the bounded log |
| Bounded.KeepsNewest | contracts/emergency/src/lib.rs:278-299 | a bounded log holds exactly its newest entries, in order, after any number of appends |
| PriceFeedLaws.SortedPermutation | contracts/pricefeed/src/validation.rs:88-126 | the insertion loop yields a sorted permutation |
| PriceFeedLaws.MedianRobust | contracts/pricefeed/src/validation.rs:76-137 | if strictly more than half the prices lie in [a, b], so does the median, unless it is taken of two prices whose sum does not fit |
| PriceFeedLaws.RobustIff | contracts/pricefeed/src/validation.rs:129-136 | for a range of non-negative prices that holds without exception if and only if its upper end can be doubled |
| PriceFeedLaws.AggregateWithinIff | contracts/pricefeed/src/aggregation.rs:18-193 | for positive prices in [a, b] whose sums fit, each of the four aggregates stays in [a, b] if and only if its weights do not all vanish |
| PriceFeedLaws.SumWraps | contracts/pricefeed/src/aggregation.rs:119-133 | wrapping the weighted sum at every step comes to wrapping the exact sum once |
| PriceFeedLaws.BoundedSumFits | contracts/pricefeed/src/aggregation.rs:18-193 | the sums fit for non-negative prices up to b when b times the weights does, or twice b for the two methods that do not weigh |
| PriceFeedLaws.AgreeingIff | contracts/pricefeed/src/aggregation.rs:103-193 | when all prices are one positive price b, an average with weight is b if and only if b times the weights fits |
| PriceFeedLaws.LatestIsNewest | contracts/pricefeed/src/aggregation.rs:73-88 | the latest price is that of a newest point, the last one among ties |
| PriceFeedLaws.WorstIsWorst | contracts/pricefeed/src/aggregation.rs:197-222 | the status reported is some point's or Fresh, and no point's is worse |
| PriceFeedLaws.NotAnomalousIff | contracts/pricefeed/src/validation.rs:139-149 | for a positive median the test keeps a price exactly when abs(p - m) * 10000 < (max_deviation + 1) * m, for every max_deviation, if and only if abs(p - m) <= I128_MAX / 10000 |
| PriceFeedLaws.WrappedDeviationExample | contracts/pricefeed/src/validation.rs:139-256 | next to two prices of 100 a newest one beyond I128_MAX / 10000 is kept and resolved to |
| PriceFeedLaws.UsableExact | contracts/pricefeed/src/validation.rs:151-182 | exactly the points that are fresh, kept by the test and not submitted as anomalous reach the aggregation; validation panics only for a negative median |
| PriceFeedLaws.ResolvedNearMedian | contracts/pricefeed/src/validation.rs:217-256 | when the cache does not serve, fresh prices are within I128_MAX / 10000 of their positive median and the sums fit, the resolution returns a price between the extremes of the usable points, with abs(p - m) * 10000 < (max_deviation + 1) * m |
| PriceFeedLaws.OddCountUsable | contracts/pricefeed/src/validation.rs:151-182 | with an odd number of fresh points the median is the price of one; where validation does not panic, it is the price of a usable one if and only if some point with it was not submitted as anomalous, and the deviation is not negative or the median zero |
| PriceFeedLaws.SomeUsableIff | contracts/pricefeed/src/validation.rs:151-182 | for positive prices that near their median, some fresh point is usable if and only if the lower of the two middle prices is near the median |
| PriceFeedLaws.FreshExact | contracts/pricefeed/src/validation.rs:46-74 | a point passes the filter if and only if it is listed, its time and the present are not zero, and now <= timestamp + ttl |
| PriceFeedRules.RestsOnFresh | contracts/pricefeed/src/validation.rs:217-271 | an aggregate from oracle data rests on listed points, none older than the TTL, anomalous or too far from the median of those within it; it reports their number, worst status, method and the present |
| PriceFeedRules.SourceIff | contracts/pricefeed/src/validation.rs:217-271 | the cache is served while now <= cached_at + 2 * ttl, a number of 64 bits; then usable points if there are any, then the fallback, then an error |
| PriceFeedRules.WeightsMean | contracts/pricefeed/src/aggregation.rs:103-183 | a recency weight and the age in seconds make a million, an older point weighs nothing; a trust weight is the provider's or 1000 |
| PriceFeedRules.AverageExact | contracts/pricefeed/src/aggregation.rs:103-183 | an average is the sum of price times weight over the sum of weights, rounded down |
| PriceFeedRules.WorstMeans | contracts/pricefeed/src/aggregation.rs:197-222 | the status is the first of Unknown, Anomalous, Stale and Fallback that a point has, else Fresh |
| PriceFeedContract.KeepRecent | contracts/pricefeed/src/validation.rs:58-74 | the points that are not stale, in order |
| PriceFeedContract.InsertSorted | contracts/pricefeed/src/validation.rs:97-124 | the element inserted before the first greater one |
| PriceFeedContract.CalculateMedian | contracts/pricefeed/src/validation.rs:76-137 | the middle of the sorted prices |
| PriceFeedContract.FlagsAnomalous | contracts/pricefeed/src/validation.rs:139-149 | the wrapped test, or its panic |
| PriceFeedContract.ValidatePrices | contracts/pricefeed/src/validation.rs:151-182 | the fresh points with anomalous ones flagged, or a panic |
| PriceFeedContract.AggregateLatest | contracts/pricefeed/src/aggregation.rs:73-88 | the specified latest price |
| PriceFeedContract.AggregateTwap | contracts/pricefeed/src/aggregation.rs:103-140 | the recency-weighted average, or zero without weight |
| PriceFeedContract.AggregateWeighted | contracts/pricefeed/src/aggregation.rs:154-183 | the trust-weighted average, or zero without weight |
| PriceFeedContract.FindWorstStatus | contracts/pricefeed/src/aggregation.rs:197-222 | the status of highest rank |
| PriceFeedContract.AggregatePrices | contracts/pricefeed/src/aggregation.rs:18-49 | the aggregate of the chosen method |
| PriceFeedContract.ResolvePrice | contracts/pricefeed/src/validation.rs:217-271 | cache, then fresh data, then fallback, then an error |
| FeeLaws.TierIsLast | contracts/fee/src/engine.rs:66-99 | the tier in force is the last one reached |
| FeeLaws.TierIsHighestIff | contracts/fee/src/engine.rs:60-99 | for every amount that tier has the highest threshold reached if and only if each threshold listed before a lower one is listed after it again |
| FeeLaws.TierIsHighest | contracts/fee/src/engine.rs:66-99 | with ascending thresholds it is the highest one |
| FeeLaws.TierOrderExample | contracts/fee/src/engine.rs:66-173 | a structure that is accepted with thresholds 5 and 3, by which an amount of 5 pays the rate of 3 |
| FeeLaws.FeeInRange | contracts/fee/src/engine.rs:29-141 | on a non-negative base the final fee is between zero and the base, and within the cap |
| FeeLaws.ClampIff | contracts/fee/src/engine.rs:100-110 | the clamp keeps a fee between zero and the base exactly when the base is not negative |
| FeeLaws.FeeSignIff | contracts/fee/src/engine.rs:29-141 | a fee is non-negative exactly when the base is, or a waiver or discount applies |
| FeeLaws.SplitConserves | contracts/fee/src/lib.rs:199-227 | the payouts sum to exactly the amount, each is at least the floor of its share, and the first one's extra is less than the number of recipients |
| FeeLaws.SplitNothing | contracts/fee/src/lib.rs:199-212 | nothing is paid for a non-positive amount or zero shares |
| FeeRules.RawMeans | contracts/fee/src/engine.rs:29-99 | a percentage is that share of the base rounded down, a flat fee its amount, a tiered fee the share of the last tier reached, or nothing |
| FeeRules.FeeMeans | contracts/fee/src/engine.rs:48-145 | the fee is nothing when waived, else the raw fee within zero, base and cap, less the discount, rounded down |
| FeeRules.WaiverMeans | contracts/fee/src/lib.rs:180-197 | the first waiver in the list counts that is for the payer or the portfolio and not expired |
| FeeRules.PutMeans | contracts/fee/src/lib.rs:519-570 | a waiver takes the place of the first one for the same payer and portfolio, or joins the end |
| FeeRules.DropMeans | contracts/fee/src/lib.rs:572-607 | removing waivers removes exactly those for the payer and portfolio named |
| FeeRules.CollectMeans | contracts/fee/src/lib.rs:432-469 | a collection needs an active fee; it records payer, fee, portfolio, time and discount, and adds the fee to the totals of that record and no other |
| FeeRules.AdministerIff | contracts/fee/src/lib.rs:257-627 | only the administrator changes fees, waivers and recipients, each only to something sound, and what each stores |
| FeeLaws.RunBalanced | contracts/fee/src/lib.rs:432-469 | in every run, up to multiples of 2^128, TotalCollected is the sum over all collections, of the category totals and of the portfolio totals, each of those the sum of its own collections; the history is the newest 200 |
| FeeLaws.TotalsExactIff | contracts/fee/src/lib.rs:118-139 | as long as no collected fee is negative all those totals are exact if and only if everything collected fits |
| FeeLaws.RunFair | contracts/fee/src/lib.rs:432-469 | every collection on a non-negative base charges between zero and the base |
| FeeLaws.BreakdownExact | contracts/fee/src/reporting.rs:70-90 | one line for each portfolio with a record, with the sum of its fees up to multiples of 2^128 |
| FeeLaws.CategoriesAddUp | contracts/fee/src/reporting.rs:7-43 | the six category sums add up to the total |
| FeeContract.CalculateTieredFee | contracts/fee/src/engine.rs:66-99 | the downward scan finds the tier in force and applies its rate |
| FeeContract.ComputeRawFee | contracts/fee/src/engine.rs:29-47 | the raw fee of the three models |
| FeeContract.FeeManagement.RoundedShares | contracts/fee/src/lib.rs:212-220 | every recipient's share rounded down, and their sum |
| FeeContract.FeeManagement.DistributeRevenue | contracts/fee/src/lib.rs:199-227 | the specified split |
| FeeContract.FeeManagement.FindWaiver | contracts/fee/src/lib.rs:180-197 | the first active waiver of the payer or the portfolio |
| FeeContract.FeeManagement.CollectFee | contracts/fee/src/lib.rs:432-469 | the final fee is recorded and added to the three totals, or an error changes nothing |
| FeeContract.FeeManagement.SetFeeStructure | contracts/fee/src/lib.rs:257-281 | the administrator stores a valid structure; an invalid one is refused |
| FeeContract.FeeManagement.SetFeeWaiver | contracts/fee/src/lib.rs:519-570 | a discount of 0 to 100 percent replaces the first waiver of the same target or is added |
| FeeContract.FeeManagement.RemoveFeeWaiver | contracts/fee/src/lib.rs:572-607 | all waivers for the target leave, and no others |
| FeeContract.BuildPortfolioBreakdown | contracts/fee/src/reporting.rs:70-90 | the specified breakdown |
| FeeContract.BuildFeeSummary | contracts/fee/src/reporting.rs:7-68 | total, events, discounts, waived count, and the categories with a positive sum |
| FeeContract.CategorySumsExact | contracts/fee/src/reporting.rs:7-43 | each category sum is the sum of the fees of its records, wrapped |
| GamificationLaws.BatchIsReplay | contracts/gamification/src/lib.rs:918-997 | a batch of at least one trade leaves exactly what recording its trades one by one leaves |
| GamificationLaws.BatchIsReplayIff | contracts/gamification/src/lib.rs:963-997 | for an empty batch that holds exactly when the player was last active at that time |
| GamificationLaws.RunStreaks | contracts/gamification/src/lib.rs:918-997 | in every run the current streak is the run of successes that ends a player's trades, and best_streak the longest one in them |
| GamificationLaws.RunGraded | contracts/gamification/src/lib.rs:393-469 | in every run a score is the one of the player's counters, with its tier, and between 0 and 100 unless some trade of the player returned more than I128_MAX / 30 |
| GamificationLaws.InRangeIff | contracts/gamification/src/lib.rs:402-413 | a bound on returns keeps every score of every run between 0 and 100 if and only if it is at most I128_MAX / 30 |
| GamificationLaws.WrappedScoreExample | contracts/gamification/src/lib.rs:918-952 | a player registers and records one trade with the next larger return: the score is negative |
| GamificationLaws.RunBestRoi | contracts/gamification/src/lib.rs:918-997 | in every run best_roi is the best return of the player's trades, or zero |
| GamificationLaws.RankedExact | contracts/gamification/src/lib.rs:735-756 | the leaderboard is a permutation in descending order that keeps the order of equal keys |
| GamificationLaws.PagesTile | contracts/gamification/src/lib.rs:758-801 | successive pages, as far apart as a page is long, join up to the ranking with its ranks |
| GamificationLaws.TilesIff | contracts/gamification/src/lib.rs:758-801 | pages show every player exactly once if and only if they are min(limit, 100) apart, or everything fits on the first |
| GamificationLaws.RunRewardsWrap | contracts/gamification/src/lib.rs:1081-1171 | in every run the pool plus all distributed rewards is 1,000,000 plus the funding, up to multiples of 2^128 |
| GamificationLaws.RunRewards | contracts/gamification/src/lib.rs:1512-1543 | and exactly that, with nothing negative, while no funding is negative and the sum fits |
| GamificationLaws.AccountsIff | contracts/gamification/src/lib.rs:1533-1543 | runs with a given non-negative funding account for all of it if and only if it fits together with the million |
| GamificationLaws.CompletedPaysNothing | contracts/gamification/src/lib.rs:1399-1453 | progress in a completed challenge moves no reward and counts no win |
| GamificationLaws.CompletedForever | contracts/gamification/src/lib.rs:1399-1453 | a completed entry stays completed, so a challenge pays a player once |
| GamificationRules.ScoreMeans | contracts/gamification/src/lib.rs:393-455 | the score is 2 a successful trade up to 30, the return, 3 a trade of the best streak up to 15, learning, and 2 a community action up to 10 |
| GamificationRules.RoiMeans | contracts/gamification/src/lib.rs:402-413 | a return scores in proportion up to 30 at 100 percent |
| GamificationRules.LearnMeans | contracts/gamification/src/lib.rs:424-434 | learning scores in proportion up to 15 when every module is completed |
| GamificationRules.FullMarksIff | contracts/gamification/src/lib.rs:446-455 | the score is 100 if and only if each part is at its most |
| GamificationRules.RunTier | contracts/gamification/src/lib.rs:457-468 | in every run the tier follows from the score by the thresholds 25, 50 and 75 |
| GamificationRules.RunCounters | contracts/gamification/src/lib.rs:918-1075 | in every run successes, modules and community actions are those of the player's activities |
| GamificationRules.RunRoster | contracts/gamification/src/lib.rs:863-915 | in every run every registered player is listed, once |
| GamificationRules.RegisterIff | contracts/gamification/src/lib.rs:863-915 | a player registers once, with empty counters |
| GamificationRules.TierPayoutIff | contracts/gamification/src/lib.rs:1512-1531 | a tier pays 10, 25, 50 or 100 from the pool to its player, or fails when the pool has less |
| GamificationRules.AdministerIff | contracts/gamification/src/lib.rs:1304-1545 | only the administrator funds the pool, creates challenges of a positive target, reward and duration, and ends them |
| GamificationRules.JoinIff | contracts/gamification/src/lib.rs:1355-1397 | a challenge is joined once, within its time |
| GamificationRules.ProgressMeans | contracts/gamification/src/lib.rs:1399-1453 | progress counts in an active challenge within its time; reaching the target first completes it, counts a win and pays its player what the pool covers |
| GamificationRules.LeaderboardMeans | contracts/gamification/src/lib.rs:705-812 | nobody is placed before someone with more of the score, successful trades, return or streak that it ranks by; each line shows its player's own numbers |
| BadgeLaws.CheckExact | contracts/gamification/src/lib.rs:485-543 | after a check a user holds what it held and exactly the evaluated badges its statistics earn; a second check changes nothing |
| BadgeLaws.CheckMeans | contracts/gamification/src/lib.rs:485-533 | after a check a user holds each badge if and only if it held it or has reached this number |
| BadgeLaws.IssueMeans | contracts/gamification/src/lib.rs:1096-1114 | issuing adds the badge to the list and moves its reward from the pool to the user, if it is positive and covered |
| BadgeLaws.IssueIff | contracts/gamification/src/lib.rs:1130-1174 | only the administrator issues by hand, to a player who does not hold the badge |
| BadgeLaws.DefaultRewards | contracts/gamification/src/lib.rs:549-697 | what each badge is first defined to pay |
| BadgeLaws.DefineIff | contracts/gamification/src/lib.rs:1550-1588 | only the administrator redefines, and only a defined badge; that sets its reward and no other |
| BadgeLaws.RunBadges | contracts/gamification/src/lib.rs:1081-1174 | in every run no user holds a badge twice |
| BadgeLaws.RunKeepsBadges | contracts/gamification/src/lib.rs:1081-1174 | over any run a list of badges only grows at its end |
| BadgeLaws.IssuedOnce | contracts/gamification/src/lib.rs:1081-1174 | a badge is issued to a user at most once in a run, by a check or by the administrator |
| BadgeLaws.PaysOnlyNew | contracts/gamification/src/lib.rs:1081-1174 | a call about badges that issues none moves no reward |
| BadgeLaws.RewardlessIff | contracts/gamification/src/lib.rs:485-697 | an evaluated badge has no reward in any run if and only if it is one of the two whose id is defined in another spelling |
| BadgeLaws.ActiveIgnored | contracts/gamification/src/lib.rs:1550-1623 | switching a definition on or off changes no reward |
| GamificationContract.SinkInto | contracts/gamification/src/lib.rs:738-756 | the inner loop sinks a row into its place among the ranked ones |
| GamificationContract.SortEntries | contracts/gamification/src/lib.rs:735-756 | the in-place insertion sort computes the ranking |
| GamificationContract.GamificationEngine.RegisterUser | contracts/gamification/src/lib.rs:863-902 | a new player with empty counters, registered once |
| GamificationContract.GamificationEngine.RecordTrade | contracts/gamification/src/lib.rs:918-952 | one trade updates counters, score and tier of a registered player as specified |
| GamificationContract.GamificationEngine.RecordTradesBatch | contracts/gamification/src/lib.rs:963-997 | the loop over a batch updates the counters, and score and tier once, as specified |
| GamificationContract.GamificationEngine.CompleteLearningModule | contracts/gamification/src/lib.rs:1011-1039 | at most the total number of modules is counted; score and tier follow |
| GamificationContract.GamificationEngine.EvaluateBadges | contracts/gamification/src/lib.rs:485-543 | the loop over the checks: the badges earned and not yet held, in order |
| GamificationContract.GamificationEngine.FindBadgeReward | contracts/gamification/src/lib.rs:1616-1623 | the reward of the first definition, zero without one |
| GamificationContract.GamificationEngine.CheckAndIssueBadges | contracts/gamification/src/lib.rs:1081-1118 | every badge found is issued in turn, and paid while the pool covers it |
| GamificationContract.GamificationEngine.IssueBadge | contracts/gamification/src/lib.rs:1130-1174 | the administrator issues one badge not yet held, paid if the pool covers it |
| GamificationContract.GamificationEngine.UpdateBadgeDefinition | contracts/gamification/src/lib.rs:1550-1588 | the administrator rewrites the first definition of a badge, or the call fails |
| GamificationContract.GamificationEngine.JoinChallenge | contracts/gamification/src/lib.rs:1355-1388 | within its time a challenge is joined once |
| GamificationContract.GamificationEngine.UpdateChallengeProgress | contracts/gamification/src/lib.rs:1399-1453 | progress is added; reaching the target for the first time pays what the pool covers and counts a win; answers whether the target is reached |
| GamificationContract.GamificationEngine.DistributeTierReward | contracts/gamification/src/lib.rs:1512-1531 | the reward of the player's tier moves from the pool, or the call fails when the pool is too small |
| GamificationContract.GamificationEngine.FundRewardPool | contracts/gamification/src/lib.rs:1533-1543 | the administrator adds to the pool |
| GamificationContract.GamificationEngine.BuildLeaderboard | contracts/gamification/src/lib.rs:705-826 | the specified page of the ranking, and the number of players |

## Left out

- Host details: storage encoding, event publishing, ledger limits, cross-contract audit calls, administrator rotation.
- Ids, 32-bit counters, and the total weight of an average are unbounded numbers here.
- SHA-256 itself (section 6.2 of FIPS 180-4): the hash is a parameter.
- Audit exports, signatures and logger formatting.
- Prediction: positions, profit and loss, redemption, settlement of positions, resolution and disputes beyond their effect on the market's status; market creation checks.
- Governance: proposal texts, the contract's own audit trail, the list of delegators, summaries.
- Treasury: cancelling a request and cancelling a timelock entry, which no entry point calls; the administrator argument of the signer calls is not compared with the stored one by the code, so it is not modelled.
- Payments: listing of escrows; token contracts are balances with a transfer that fails when the source lacks the amount.
- Events: plain event history and its queries, legacy subscriptions, triggers and analysis requests.
- Emergency: pause, safe mode, circuit breaker, withdrawals, notifiers.
- Price feed: provider management, the fetching of points, history and cache writes; fresh points are a parameter.
- Fees: fee estimates, portfolio assignments, labels, the per-portfolio report.
- Gamification: names, descriptions and records of badges, challenge metrics, user ranks.
- Staking yield, rebalancing, valuation, versioning, trade and asset contracts.
