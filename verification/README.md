# Launches, their treasury and the solver marketplace

A model of three pallets of a Substrate chain and of the arithmetic they share, with proofs of what the pallets promise.

* **Bonding curve and launchpad.** Constant-product pricing in integers, every division rounded towards the pool, with
  a partial fill when a buy reaches the end of the curve (`Curve`, `CurveQuotes`, `CurveHistory`, `CurveTrading`,
  `CurveBrackets`, `CreatorBrackets`); the terms a launch trades on and which trades are free (`LaunchTerms`,
  `FreeTrades`); the launch state machine, its escrows and fee split (`LaunchpadSpec`, `LaunchpadEffects`,
  `LaunchpadRuns`, `LaunchpadTrades`, `LaunchpadGuards`, `LaunchpadPallet`).
* **Launch treasury.** The fees of many launches pooled in one staked vault: shares of the stake, rewards attributed
  by an accumulator, rewards sold and burned in capped slices, retirement through an unbonding queue. The staking
  ledger and the reward broker are those of `pallets/launch-treasury/src/mock.rs`, the rules the pallet is written
  against (`Staking`, `Broker`, `TreasurySpec`, `TreasurySolvency`, `TreasuryBacking`, `TreasuryRetirement`,
  `TreasuryFinalize`, `TreasuryShares`, `TreasuryPayments`, `TreasuryRuns`, `TreasuryLifecycle`, `TreasuryScenes`,
  `TreasuryEffects`, `TreasuryCompound`, `TreasuryExamples`, `TreasuryDust`, `TreasuryVenue`, `StakingPallet`,
  `TreasuryPallet`).
* **Solver marketplace.** Intents, bids, settlement and slashing over a shared escrow (`MarketSpec`, `MarketRuns`,
  `MarketLiveness`, `MarketEffects`, `MarketPallet`).

`Arith`, `Ledger` and `Results` hold what they share. Each pallet has a specification of its calls as functions on
states; lemmas that say of each call, on what can be read before it, exactly when it goes through, and what every
balance and record then is (`LaunchpadEffects`, `LaunchpadGuards`, `MarketEffects`, `TreasuryEffects`,
`TreasuryCompound`); a class that carries the calls out step by step on fields and is proved equal to the specification
(an error leaves the state as it was, as the runtime's storage layer does); and lemmas about runs of arbitrary calls.
Amounts are unbounded naturals; every 128-bit check, saturation and rounding of the source is written out.

What other parts of the runtime answer is a parameter, and any answer is admitted unless the callee itself would refuse
it: the anti-snipe hook, the pool a launch seeds, the swap of a settlement, whether an account can take a payment, the
last trade of a venue, the venue of a slice and its answer.

## Where the code and its documentation differ

* `pallets/launch-treasury/src/lib.rs` asserts that claims never exceed the attributed rewards. A checkpoint is
  floored, so each stake taken after the accumulator moved can gain just under one unit.
  `TreasuryDust.WithinAccountedIff`: the assertion holds over all runs with at most n such stakes exactly when n is at
  most one. `NeverAboveIff` gives the least bound that holds for each n (up to what the vault can hold), and
  `ClaimsOverRuns` proves it for every n.
* A free trade is meant to cost at least the fee it skips. Two floored shares can lose one unit: `FreeBuysPayIff` and
  `FreeSellsPayIff` say on exactly which terms none does, `FreeTradeCanCostOneLess` shows terms within governance's
  bounds on which one does, and `FreeBuyCosts` and `FreeSellCosts` bound what is lost everywhere.
* The treasury bounds a slice's impact by the venue's fee so that a bracket does not pay. The launch's creator pays
  less than that fee, for its share of it can be claimed back: `CreatorBracketPays` is a bracket it gains by.
  `CreatorBracketNeverPays` is the condition on term, fee and shares under which it does not, `LowTermIsOutweighed` a
  simple sufficient form, and `SafeFromCreatorIff` says that it is the exact one for all terms that are not within one
  part in a million million of it.
* The launchpad's written design takes the quote of a complete curve to be the advertised raise. It is at
  least that, exactly that after one buy (`OneBuySelloutIsExact`) and in general when `SelloutIsExactIff` says so, and
  above it by what trades round at most (`SelloutExcessIsRounding`, `SelloutExceedsAdvertised`).
* Rounding up the last price can raise `k` by more than the new quote side when a buy empties the curve:
  `CrossingDriftIff` says exactly when it does not, `CrossingDriftExample` is a buy that does.
* Another launch's retirement can cost a holder when the stake left behind is below the existential deposit and is
  swept into the unbonding: `RetireIsFairIff` says exactly when, `SweepExample` is a run to such a retirement.
* Three places of the treasury saturate at 128 bits: the share total, the reading of a slice, and the sum a finalize
  shares by. `StepKeepsSharesIff` and `StepConservesIff` say exactly which calls break a sum (`SharesCanSaturate`,
  `SliceMisread` and `SaturatedExample` are runs that do), and `RunExactIff` that the runs the invariants are stated
  over (`RunFits`) are exactly those in which none does. For a stake and a finalize the condition is known before the
  call; for a slice it depends on the venue's answer, and `RoomFits` gives a bound that does not. Retirement needs
  none of this: that it is one way and ends (`TreasuryLifecycle`) holds over every run.

## Model

| member | source | states |
|---|---|---|
| CurveQuotes.GrossIsThreshold | pallets/launchpad/src/curve.rs:171-181 | the inverse-fee rounding is exact: the offer it computes is the least whose net, after the rounded-up fee, reaches a given net |
| CurveQuotes.NetToFloorIff | pallets/launchpad/src/curve.rs:143-169 | a net empties the curve exactly when it reaches the rounded-up distance to the virtual token floor |
| CurveQuotes.BuyIsOutcome | pallets/launchpad/src/curve.rs:119-194 | the guarded, checked computation equals an independent description of a buy, on every input: which error, a partial fill, or a crossing fill |
| CurveQuotes.CrossingGuards | pallets/launchpad/src/curve.rs:165-194 | in the crossing branch the zero-net, underflow and over-charge guards never fire and the floor divided by is positive |
| CurveQuotes.SellIsOutcome | pallets/launchpad/src/curve.rs:199-227 | the same for a sell: the checked computation is the rounded-down payout less the rounded-up fee, or the right error |
| CurveHistory.PartialBuyKeepsK | pallets/launchpad/src/curve.rs:141-163 | a normal buy never lowers k, raises it by less than the new quote side, and leaves tokens on the curve |
| CurveHistory.CrossingBuyKeepsK | pallets/launchpad/src/curve.rs:165-194 | a crossing buy never lowers k, raises it by less than the new token side, delivers every remaining token and charges no more than offered |
| CurveHistory.CrossingDriftIff | pallets/launchpad/src/curve.rs:165-169 | the drift of a crossing buy is below the new quote side as well if and only if one token less than the floor, at the rounded-up cost of a token, is within k: known before the call |
| CurveHistory.CrossingDriftExample | pallets/launchpad/src/curve.rs:165-169 | a crossing buy that fails it: k goes from 1_001 to 2_000 with a new quote side of two |
| CurveHistory.CrossingIsThreshold | pallets/launchpad/src/curve.rs:165-194 | any offer from the charge up to the one made gives the very same fill; any smaller offer does not cross |
| CurveHistory.SellKeepsK | pallets/launchpad/src/curve.rs:199-227 | a sell never lowers k and never pays more than the curve holds; k rises by less than the new token side where the phantom reserve does not bind |
| CurveHistory.HistoryKeepsK | pallets/launchpad/src/curve.rs:230-233 | over any history of buys and sells, accepted or refused, k never falls and the allocation is never oversold |
| CurveHistory.NoHistoryExtractsQuote | pallets/launchpad/src/curve.rs:141-220 | whoever trades and however often, a curve back at no more tokens holds no less quote |
| CurveHistory.HistoryStaysPriceable | pallets/launchpad/src/curve.rs:109-116 | no history reaches a state the curve cannot price |
| CurveHistory.SellBackIsCovered | pallets/launchpad/src/curve.rs:206-220 | after any history from creation every sell-back up to everything sold is covered by the real quote, and the inconsistent-state error is unreachable |
| CurveHistory.SellDriftInHistory | pallets/launchpad/src/curve.rs:206-220 | after any history from creation every sell within what was sold raises k by less than the new token side |
| CurveHistory.SelloutRaisesAdvertised | pallets/launchpad/src/curve.rs:235-240 | however the curve was emptied, it then holds at least the advertised raise |
| CurveHistory.SelloutExcessIsRounding | pallets/launchpad/src/curve.rs:235-240 | ... and no more above it than rounding can add: a floor-th part of the final quote side for each normal buy, of the whole token side for each sell, and one unit for the buy that empties the curve |
| CurveHistory.SelloutIsExactIff | pallets/launchpad/src/curve.rs:235-240 | the buy that empties a curve leaves exactly the advertised raise if and only if k was still within the floor of its opening value: known before it |
| CurveHistory.SelloutExceedsAdvertised | pallets/launchpad/src/curve.rs:235-240 | two buys that empty a curve and raise one unit more than advertised |
| CurveHistory.OneBuySelloutIsExact | pallets/launchpad/src/curve.rs:235-240 | one buy that empties a fresh curve raises exactly the advertised amount |
| CurveTrading.BuyIsMonotone | pallets/launchpad/src/curve.rs:119-194 | a larger offer gets at least as many tokens and never undoes a crossing |
| CurveTrading.SplittingABuyNeverHelps | pallets/launchpad/src/curve.rs:119-163 | two normal buys in a row get at most what one buy of their sum gets, and that buy is quotable |
| CurveTrading.SellIsMonotone | pallets/launchpad/src/curve.rs:199-227 | selling more pays at least as much, fee included |
| CurveTrading.SplittingASellNeverHelps | pallets/launchpad/src/curve.rs:199-227 | two sells in a row pay at most what one sell of their sum pays |
| CurveTrading.SliceUnderFee | pallets/launch-treasury/src/lib.rs:935-958 | a slice within the impact cap moves the quote side by strictly less than one fee takes |
| CurveTrading.BracketNeverPays | pallets/launch-treasury/src/lib.rs:935-958 | for every state, attacker and slice within the cap: buy, let the vault buy, sell the same tokens returns strictly less quote than was paid |
| CurveTrading.UncappedBracketPays | pallets/launch-treasury/src/lib.rs:935-940 | without the cap a concrete bracket makes a profit, so the cap is needed |
| CurveTrading.CappedBracketLoses | pallets/launch-treasury/src/lib.rs:935-958 | the same bracket around the largest slice the cap allows is quotable at every step and loses |
| CurveBrackets.BuysTogether | pallets/launchpad/src/curve.rs:141-163 | any number of normal buys: what was paid is the rise of the quote side and the fees, k never falls and no token comes back |
| CurveBrackets.SellsTogether | pallets/launchpad/src/curve.rs:199-227 | any number of sells: what left the curve is what was received and the fees, the tokens came back and k never falls |
| CurveBrackets.BracketInPartsNeverPays | pallets/launch-treasury/src/lib.rs:935-958 | split into any number of buys before the slice and sells after it, the bracket still returns strictly less quote than was paid |
| CurveBrackets.CreatorBracketNeverPays | pallets/launchpad/src/lib.rs:1301-1312 | the creator, who gets its share of every fee back, gains less than two units a trade by any such bracket while the impact is outweighed by what protocol and treasury keep of two fees |
| CurveBrackets.LowTermIsOutweighed | pallets/launch-treasury/src/lib.rs:935-950 | a treasury term of at most twice the fee times the share that is kept is enough for that: a condition on term, fee and shares alone |
| CurveBrackets.CreatorBracketPays | pallets/launch-treasury/src/lib.rs:935-950 | a bracket around a capped slice, with half of each fee claimed back, that ends 865 above what was paid: the bound by the fee alone does not stop the creator |
| CreatorBrackets.CreatorBracketPaysPast | pallets/launch-treasury/src/lib.rs:935-950 | conversely, on any terms a deep curve can have: past the condition by one part in a million million there is a state and a bracket around the largest slice that brings the creator two units a trade |
| CreatorBrackets.SafeFromCreatorIff | pallets/launch-treasury/src/lib.rs:935-950 | where the impact is outweighed by what is kept of two fees no bracket brings the creator two units a trade, past the margin some bracket does: off the margin, an equivalence |
| CreatorBrackets.PastIsNotOutweighed | pallets/launch-treasury/src/lib.rs:935-950 | the two sides of the margin exclude each other |
| LaunchTerms.SharesFit | pallets/launchpad/src/lib.rs:1136-1148 | two floored shares of at most the whole never exceed the fee, so the creator part is never negative |
| LaunchTerms.FreeMeans | pallets/launchpad/src/lib.rs:1327-1351 | a trade is answered as free if and only if its rate on what was traded, times the shares the creator does not get, covers the skipped fee |
| LaunchTerms.BuyFeeIsAtLeastRate | pallets/launchpad/src/curve.rs:119-194 | the fee of any successful buy, crossing or not, is at least its rate on what was charged |
| LaunchTerms.SellFeeIsAtLeastRate | pallets/launchpad/src/curve.rs:199-227 | the fee of any successful sell is at least its rate on the gross |
| LaunchTerms.FreeBuyCosts | pallets/launchpad/src/lib.rs:1327-1351 | every free buy pays protocol and treasury together at least the skipped fee less one base unit, and the whole of it when one share is zero |
| LaunchTerms.FreeSellCosts | pallets/launchpad/src/lib.rs:1327-1351 | the same for every free sell |
| FreeTrades.BuyFeeIs | pallets/launchpad/src/curve.rs:119-194 | the fee of any successful buy, crossing or not, is the offer fee of what was charged |
| FreeTrades.SellFeeIs | pallets/launchpad/src/curve.rs:199-227 | the fee of any successful sell is the offer fee of its gross |
| FreeTrades.FreeBuysPayIff | pallets/launchpad/src/lib.rs:1301-1351 | every free buy in every state of the curve pays protocol and treasury the fee it skips if and only if the parts of the least free trade do: a fact about the terms, known before any call |
| FreeTrades.FreeBuysPayHereIff | pallets/launchpad/src/lib.rs:1301-1351 | the same in any one state, a fresh launch among them, in which the least free trade can be charged |
| FreeTrades.FreeSellsPayIff | pallets/launchpad/src/lib.rs:1301-1351 | the same for every free sell in every state |
| FreeTrades.FreeSellsPayHereIff | pallets/launchpad/src/lib.rs:1301-1351 | the same for free sells in any one state where a sell takes out just the least free amount |
| FreeTrades.FreeTradeCanCostOneLess | pallets/launchpad/src/lib.rs:1327-1343 | terms within the bounds governance may set on which the condition fails, and a free buy on a fresh launch that pays less than it skips |
| LaunchpadEffects.FeePartsEffect | pallets/launchpad/src/lib.rs:1150-1199 | protocol and treasury parts leave the escrow in full and reach exactly their receivers: the treasury part the vault when the sink is open and the vault can take it, and else the protocol |
| LaunchpadEffects.SplitIsDivided | pallets/launchpad/src/lib.rs:1136-1199 | the split that is paid is the plain one, in its order: floored shares of the fee to protocol and treasury, the rest to the creator, a treasury share nobody takes to the protocol |
| LaunchpadEffects.BuyMoneyEffect | pallets/launchpad/src/lib.rs:1239-1273 | a buy moves the charge from the buyer to the escrow, the fee parts on to their receivers and exactly the tokens from the escrow to the buyer; every other balance of both ledgers stays and both totals are conserved |
| LaunchpadEffects.BuyExactly | pallets/launchpad/src/lib.rs:1209-1290 | an accepted buy, before any seed: every balance of both ledgers and every field of the record, the buyer (the treasury included) with exactly the quoted tokens on top |
| LaunchpadEffects.SellMoneyEffect | pallets/launchpad/src/lib.rs:1381-1399 | a sell moves exactly the tokens from the seller to the escrow and, out of it, the proceeds to the seller and the fee parts to their receivers; nothing else moves |
| LaunchpadEffects.SellExactly | pallets/launchpad/src/lib.rs:1353-1408 | an accepted sell: every balance of both ledgers and every field of the record, with proceeds of at least what the seller asked for |
| LaunchpadEffects.SeedExactly | pallets/launchpad/src/lib.rs:1412-1441 | a seed gives the pool exactly the raised quote (with what the pool's own minimum took) and exactly the tokens held back, out of the escrow; no other balance moves; the record graduates with the answered shares |
| LaunchpadEffects.RescueExactly | pallets/launchpad/src/lib.rs:953-1003 | a rescue gives the pool what it took and the protocol the rest of both deposits, out of the escrow; no other balance moves; the record graduates |
| LaunchpadEffects.ClaimExactly | pallets/launchpad/src/lib.rs:817-837 | a claim pays exactly the fees kept for the creator to their recipient, out of the escrow, and zeroes them; nothing else changes |
| LaunchpadEffects.OpenExactly | pallets/launchpad/src/lib.rs:586-700 | a new launch starts with the settings of its creation as its terms, the whole supply in its escrow and all that is for sale on its curve; of the fee the deposits are set aside and all but two minimums go to the protocol |
| LaunchpadGuards.BuyIff | pallets/launchpad/src/lib.rs:1209-1299 | a buy goes through exactly on an open curve, for an offer that the hook lets by and the curve can price, with tokens enough for the buyer, when every payment can be made: all known before the call; its seed never decides |
| LaunchpadGuards.SellIff | pallets/launchpad/src/lib.rs:1353-1408 | a sell goes through exactly on an open curve, for no more tokens than were sold, with proceeds enough for the seller, when every payment can be made |
| LaunchpadGuards.SeedIff | pallets/launchpad/src/lib.rs:1412-1441 | a seed goes through exactly for a complete launch whose pool takes it: the funds are always there |
| LaunchpadGuards.RescueIff | pallets/launchpad/src/lib.rs:909-1003 | a rescue goes through exactly for a complete launch whose time has come, into a pool that exists and took both amounts within the deviation, when the protocol can take the rest |
| LaunchpadGuards.BuyDelivers | pallets/launchpad/src/lib.rs:1209-1299 | whoever buys ends with exactly the quoted tokens on top, crossing or not, seeded or not; a buy that empties the curve graduates it exactly when the pool takes the seed, and the pool then holds all the raise and all the tokens held back |
| LaunchpadGuards.OpenIff | pallets/launchpad/src/lib.rs:586-665 | a launch is created exactly when creation is open, its pool does not exist and could be seeded, and fee and spare can be paid |
| LaunchpadGuards.FirstBuyDelivers | pallets/launchpad/src/lib.rs:722-745 | a creation goes through exactly when its launch does and, if asked for, its first buy; its creator then has exactly what a fresh curve quotes |
| LaunchpadGuards.ClaimIff | pallets/launchpad/src/lib.rs:817-837 | creator fees are claimed exactly by their recipient, when there are any, into an account that can take them |
| LaunchpadGuards.SetRecipientIff | pallets/launchpad/src/lib.rs:839-858 | the recipient is changed exactly by the present one, and nothing else changes |
| LaunchpadGuards.SetParamsIff | pallets/launchpad/src/lib.rs:882-888 | settings are taken exactly within the bounds, and change nothing but what later launches snapshot |
| LaunchpadGuards.RunKeepsTerms | pallets/launchpad/src/lib.rs:882-888 | over every run a launch keeps creator, creation block and terms, whatever governance sets |
| LaunchpadRuns.BuySplitsExactly | pallets/launchpad/src/lib.rs:1209-1299 | a buyer pays exactly the charge and the hook, and the fee splits without remainder between protocol, vault and creator as measured on the balances |
| LaunchpadRuns.StepKeepsInv | pallets/launchpad/src/lib.rs:1209-1441 | every call keeps each launch well: escrow quote covers deposit, real quote and creator fees, escrow tokens cover the unsold and reserved ones, trading exactly while tokens remain |
| LaunchpadRuns.RunKeepsInv | pallets/launchpad/src/lib.rs:1209-1441 | over every run of calls, creations, rescues and payments: escrows stay solvent, phases only move forward, a graduated curve is final, quote is conserved |
| LaunchpadRuns.GenesisInv | pallets/launchpad/src/lib.rs:1209-1441 | a launchpad without launches satisfies the invariant, and so does every run from there |
| LaunchpadRuns.CompleteRaisedAdvertised | pallets/launchpad/src/lib.rs:1260-1279 | a complete curve holds at least the raise its terms advertised, whatever was traded on the way |
| LaunchpadRuns.ClaimIsCovered | pallets/launchpad/src/lib.rs:817-837 | a creator claim is refused only if the recipient account itself cannot take it |
| LaunchpadRuns.DeferredSeedIsTheSame | pallets/launchpad/src/lib.rs:1281-1299 | a nested seed that fails leaves the completed buy exactly as without it, and seeding later in the block ends in the nested state |
| LaunchpadTrades.BuyIsCounted | pallets/launchpad/src/lib.rs:1250-1265 | the counters of a buy grow by exactly what the receivers got, the escrow keeps its slack in quote and tokens, and the last trade is stamped only by a trade |
| LaunchpadTrades.SellSplitsExactly | pallets/launchpad/src/lib.rs:1353-1408 | a seller gets exactly the quoted proceeds, the fee splits without remainder as measured on the balances, and the escrow keeps its slack |
| LaunchpadTrades.ClaimIsExact | pallets/launchpad/src/lib.rs:817-837 | a claim pays exactly what was kept for the creator, out of nothing else |
| LaunchpadTrades.OnlyTradesStampClock | pallets/launchpad/src/lib.rs:1257-1259 | the last trade moves when a signer trades, to that block, and for no other call: not for the treasury buy, a seed, a claim or a rescue |
| LaunchpadPallet.Launchpad.PayFees | pallets/launchpad/src/lib.rs:1150-1199 | step-by-step payment of the fee parts equals the fee-parts function on quote balances |
| LaunchpadPallet.Launchpad.PriceAndFill | pallets/launchpad/src/lib.rs:1209-1279 | the in-place buy, hook to record, is the buy of the state it found |
| LaunchpadPallet.Launchpad.DoBuy | pallets/launchpad/src/lib.rs:1209-1299 | the in-place buy with its nested seed: a refused seed restores only the seed |
| LaunchpadPallet.Launchpad.DoSell | pallets/launchpad/src/lib.rs:1353-1408 | the in-place sell is the sell of the state it found |
| LaunchpadPallet.Launchpad.DoSeed | pallets/launchpad/src/lib.rs:1412-1441 | the in-place seed graduates or changes nothing |
| LaunchpadPallet.Launchpad.Buy | pallets/launchpad/src/lib.rs:756-788 | a refused buy leaves no trace; a successful one reports whether the call was free |
| LaunchpadPallet.Launchpad.BuyFor | pallets/launchpad/src/lib.rs:1545-1560 | the treasury buy takes the same path and does not stamp the last trade |
| LaunchpadPallet.Launchpad.Sell | pallets/launchpad/src/lib.rs:790-807 | a refused sell leaves no trace |
| LaunchpadPallet.Launchpad.Graduate | pallets/launchpad/src/lib.rs:809-815 | a refused seed leaves no trace |
| LaunchpadPallet.Launchpad.ClaimCreatorFees | pallets/launchpad/src/lib.rs:817-837 | a claim pays exactly the unclaimed fees and zeroes them, or leaves no trace |
| MarketSpec.SplitSlashedBond | pallets/solver-marketplace/src/settlement.rs:186-202 | of a slashed bond the slasher gets its share, rounded down, and the treasury all the rest, for every 128-bit bond |
| MarketSpec.SplitSolverProfit | pallets/solver-marketplace/src/settlement.rs:186-210 | of a profit the protocol gets its share, rounded down, and the solver all the rest |
| MarketRuns.ReturnEffect | pallets/solver-marketplace/src/lib.rs:553-581 | closing an intent returns exactly its recorded input to its user and moves nothing else |
| MarketRuns.SettlePaysTheBid | pallets/solver-marketplace/src/lib.rs:686-757 | on the balances: the user gains exactly the committed amount, at least the minimum; the treasury f with f * 10_000 <= (out - bid) * 2_000 < f * 10_000 + 10_000; the solver out - bid - f; the exchange gives the output for the input; no other account moves |
| MarketRuns.SettleLeaksNothing | pallets/solver-marketplace/src/lib.rs:686-780 | settlement leaves the backing of every other intent in every asset, and every bond, as they were |
| MarketRuns.SlashPays | pallets/solver-marketplace/src/lib.rs:792-850 | on the balances: the solver's escrow gives up the whole bond, a tenth of it, rounded down, to the slasher and the rest to the treasury; the user gets exactly the input; no other account moves |
| MarketRuns.SlashLeaksNothing | pallets/solver-marketplace/src/lib.rs:792-889 | slashing leaves the backing of every other intent and every other bond as they were |
| MarketRuns.TakeOverCounts | pallets/solver-marketplace/src/lib.rs:620-651 | after a first bid, a displacement or a self-overbid each solver count equals the commitments naming it |
| MarketRuns.CommitKeepsInv | pallets/solver-marketplace/src/lib.rs:596-661 | a bid keeps every record in agreement |
| MarketRuns.StepKeepsInv | pallets/solver-marketplace/src/lib.rs:989-1051 | every call keeps the bookkeeping invariant |
| MarketRuns.RunKeepsInv | pallets/solver-marketplace/src/lib.rs:989-1051 | over every run, for every asset the shared escrow covers all live inputs; escrow record iff live, commitment iff committed; counts exact; inactive solvers have no bond; reputation is fills less ten a slash |
| MarketRuns.GenesisInv | pallets/solver-marketplace/src/lib.rs:394-398 | an empty marketplace satisfies it |
| MarketRuns.OneActiveSolver | pallets/solver-marketplace/src/lib.rs:407-451 | after any run an account has at most one active solver, whatever it registered before |
| MarketLiveness.ClosedForGood | pallets/solver-marketplace/src/lib.rs:553-928 | over every run the terms of an intent stand and a settled, cancelled or expired intent is never touched again |
| MarketLiveness.RebidRaises | pallets/solver-marketplace/src/lib.rs:596-661 | an accepted bid strictly beats the one it replaces and meets the minimum |
| MarketLiveness.StandingIsHighest | pallets/solver-marketplace/src/lib.rs:596-661 | over every run a standing commitment is the best bid ever accepted for the intent |
| MarketLiveness.SettlesAtHighestBid | pallets/solver-marketplace/src/lib.rs:686-780 | a settled intent paid its user exactly the best bid the run accepted |
| MarketLiveness.LockUpIsBounded | pallets/solver-marketplace/src/lib.rs:610-647 | with fixed windows, however often an intent is rebid, it must settle by min(submission + bid window, deadline - 1) + settlement window |
| MarketLiveness.NoEarlySlash | pallets/solver-marketplace/src/lib.rs:643-651 | with fixed windows an accepted bid gives its intent the whole settlement window: while it lasts nobody can slash over it, however it is rebid |
| MarketLiveness.OpenIntentCloses | pallets/solver-marketplace/src/lib.rs:553-581 | an open intent can be cancelled at any time, and refunded exactly from its deadline on, for exactly its input |
| MarketLiveness.OverdueIntentCloses | pallets/solver-marketplace/src/lib.rs:792-889 | past its settlement block anyone can slash a committed intent, and the user gets exactly the input back |
| MarketLiveness.NoInputIsStuck | pallets/solver-marketplace/src/lib.rs:792-928 | with fixed windows, from any run, past deadline and lock-up bound the closing call of a live intent succeeds and returns the whole input |
| MarketLiveness.IdleSolverLeaves | pallets/solver-marketplace/src/lib.rs:460-488 | after any run an active solver named by no commitment can deregister and takes its whole bond |
| MarketEffects.RegisterIff | pallets/solver-marketplace/src/lib.rs:407-430 | an account can register exactly when it is no active solver and can pay the bond |
| MarketEffects.RegisterEffect | pallets/solver-marketplace/src/lib.rs:420-448 | a registration moves exactly the bond into the escrow of a new solver with a clean record; nothing else changes |
| MarketEffects.DeregisterIff | pallets/solver-marketplace/src/lib.rs:460-474 | after any run (its invariant) an account can deregister exactly when it is an active solver that no commitment names |
| MarketEffects.DeregisterEffect | pallets/solver-marketplace/src/lib.rs:470-488 | a deregistration returns exactly the bond and leaves the solver out and without bond; nothing else changes |
| MarketEffects.SubmitIff | pallets/solver-marketplace/src/lib.rs:497-520 | an intent is taken exactly when it offers something for something else, before its deadline, and is covered |
| MarketEffects.SubmitRecords | pallets/solver-marketplace/src/lib.rs:516-545 | a submission records the user's own terms, minimum and deadline among them, and moves exactly the input to the shared escrow; nothing else changes |
| MarketEffects.CancelIff | pallets/solver-marketplace/src/lib.rs:553-581 | an open intent can be cancelled exactly by its user, who gets exactly the input; nothing else changes |
| MarketEffects.RefundIff | pallets/solver-marketplace/src/lib.rs:896-926 | an open intent can be refunded exactly by its user and from its deadline on |
| MarketEffects.CommitIff | pallets/solver-marketplace/src/lib.rs:596-641 | a bid is accepted exactly from an active solver, on a live intent, within window and deadline, at the minimum or more and above the standing bid |
| MarketEffects.CommitEffect | pallets/solver-marketplace/src/lib.rs:626-661 | an accepted bid puts its solver on the intent at the amount bid, due a window later; every solver count is the commitments naming it; no balance and no other record changes |
| MarketEffects.SettleIff | pallets/solver-marketplace/src/lib.rs:686-718 | a commitment can be settled exactly by the account that holds it, no later than it is due, against an output that meets the bid and that the exchange has |
| MarketEffects.SettleEffect | pallets/solver-marketplace/src/lib.rs:718-780 | a settlement pays bid, fee and profit, closes intent and commitment, and adds one fill and one point to the solver, whose bond stays; no other record changes |
| MarketEffects.SlashIff | pallets/solver-marketplace/src/lib.rs:792-812 | a commitment can be slashed exactly once it is overdue, by anyone |
| MarketEffects.SlashEffect | pallets/solver-marketplace/src/lib.rs:812-889 | a slash leaves the solver out, without bond, with one slash more and ten points less; no other record changes |
| MarketEffects.OnlyGovernanceSets | pallets/solver-marketplace/src/lib.rs:935-980 | windows and bond amount change only by governance, to what it sets and never to zero; the clock counts blocks |
| MarketEffects.NamedKeepsBond | pallets/solver-marketplace/src/lib.rs:460-889 | over every run a solver not slashed since is active, with the whole bond it had and the escrow that holds it, as long as any commitment names it |
| MarketEffects.FirstSlashTakesBond | pallets/solver-marketplace/src/lib.rs:792-850 | the first overdue slash of a solver, whatever happened since it registered, goes through and takes exactly the bond it registered with |
| MarketPallet.Marketplace.RegisterSolver | pallets/solver-marketplace/src/lib.rs:407-451 | in-place registration is the registration of the state it found, or leaves no trace |
| MarketPallet.Marketplace.DeregisterSolver | pallets/solver-marketplace/src/lib.rs:460-488 | the same for leaving |
| MarketPallet.Marketplace.SubmitIntent | pallets/solver-marketplace/src/lib.rs:497-545 | the same for a submission |
| MarketPallet.Marketplace.CancelIntent | pallets/solver-marketplace/src/lib.rs:553-581 | the same for a cancellation |
| MarketPallet.Marketplace.RefundExpiredIntent | pallets/solver-marketplace/src/lib.rs:896-926 | the same for a refund |
| MarketPallet.Marketplace.Displace | pallets/solver-marketplace/src/lib.rs:626-641 | only another solver is displaced; a self-overbid moves no count |
| MarketPallet.Marketplace.CommitFill | pallets/solver-marketplace/src/lib.rs:596-661 | the same for a bid, count and record updated in place |
| MarketPallet.Marketplace.DoSettle | pallets/solver-marketplace/src/lib.rs:686-780 | the in-place settlement, payment by payment, is the settlement of the state it found |
| MarketPallet.Marketplace.SettleIntent | pallets/solver-marketplace/src/lib.rs:686-780 | a refused settlement, even after its swap, leaves no trace |
| MarketPallet.Marketplace.DoSlash | pallets/solver-marketplace/src/lib.rs:792-889 | the in-place slash is the slash of the state it found |
| MarketPallet.Marketplace.SlashSolver | pallets/solver-marketplace/src/lib.rs:792-889 | a refused slash leaves no trace |
| Staking.UnbondKeepsTotal | pallets/launch-treasury/src/mock.rs:472-504 | unbonding moves stake to the queue of chunks and leaves the ledger total unchanged, sweep and merge included |
| Staking.WithdrawTakesMatured | pallets/launch-treasury/src/mock.rs:505-518 | a withdrawal takes exactly the matured chunks off the total, leaves the active stake, and leaves only chunks that wait |
| Staking.NothingReleasedEarly | pallets/launch-treasury/src/mock.rs:486-492 | what is unbonded matures a bonding duration later, to the unit, merged or not, and nothing is released before |
| Staking.SlashTracks | pallets/launch-treasury/src/mock.rs:347-371 | after any slash the floored targets still add up to the active stake, less at most one unit each |
| Staking.SlashCuts | pallets/launch-treasury/src/mock.rs:347-361 | a slash takes its share, rounded down, of the active stake and of every chunk, and moves no chunk's era |
| Staking.UnbondTracks | pallets/launch-treasury/src/mock.rs:493-499 | the same after an unbonding scales the targets |
| Staking.EqualPartsAddUp | pallets/launch-treasury/src/lib.rs:689-698 | the split hands out the whole stake, evenly: every part but the first is the floored quotient, the first has the remainder on top |
| Staking.CooperateIffReputable | pallets/launch-treasury/src/mock.rs:439-464 | over enough stake and cooperable targets only a bad reputation refuses a cooperation, which then equals the stake |
| StakingPallet.StakingLedger.Bond | pallets/launch-treasury/src/mock.rs:411-424 | in-place bond equals the ledger rule |
| StakingPallet.StakingLedger.BondExtra | pallets/launch-treasury/src/mock.rs:425-438 | in-place extra bond equals the ledger rule |
| StakingPallet.StakingLedger.Cooperate | pallets/launch-treasury/src/mock.rs:439-464 | in-place cooperation equals the ledger rule, error by error |
| StakingPallet.StakingLedger.ScaleTargets | pallets/launch-treasury/src/mock.rs:493-499 | the loop over targets scales each by active over cooperated, rounded down |
| StakingPallet.StakingLedger.Unbond | pallets/launch-treasury/src/mock.rs:472-504 | in-place unbonding equals the ledger rule |
| StakingPallet.StakingLedger.Partition | pallets/launch-treasury/src/mock.rs:505-512 | one pass parts the chunks into matured and waiting, in order |
| StakingPallet.StakingLedger.WithdrawUnbonded | pallets/launch-treasury/src/mock.rs:505-518 | in-place withdrawal equals the ledger rule; an empty ledger disappears |
| StakingPallet.StakingLedger.CutChunks | pallets/launch-treasury/src/mock.rs:351-356 | the loop cuts every chunk by the slash |
| StakingPallet.StakingLedger.Slash | pallets/launch-treasury/src/mock.rs:347-371 | in-place slash equals the ledger rule and answers what left |
| Broker.SizeSale | pallets/launch-treasury/src/lib.rs:734-768 | the sizing loop returns a positive amount within the claim and the reducible balance, quoted exactly and within the depth |
| Broker.SizedIsPayable | pallets/launch-treasury/src/lib.rs:734-768 | every sized sale is payable, and is the whole claim where the broker can pay that |
| Broker.SizedSaleGoesThrough | pallets/launch-treasury/src/mock.rs:547-600 | the broker never refuses a sale as sized: not its size, its minimum or the depth |
| Broker.SaleIsFound | pallets/launch-treasury/src/lib.rs:752-766 | where the depth is worth a hundred units of currency and two hundred of the asset, one proportional step always finds a sale |
| TreasurySolvency.FeeSolvent | pallets/launch-treasury/src/lib.rs:1208-1241 | a noted fee joins pending to the unit, but for the deposit the first one withholds, and keeps the vault solvent |
| TreasurySolvency.StakeBondsAll | pallets/launch-treasury/src/lib.rs:627-663 | every successful stake bonds exactly the whole pending |
| TreasurySolvency.SliceIsMeasured | pallets/launch-treasury/src/lib.rs:834-848 | the fee noted underneath a slice is not lost, and the amount read back from the balance is what was spent, less exactly what balance and fee together exceed 128 bits by |
| TreasurySolvency.CompoundSolvent | pallets/launch-treasury/src/lib.rs:770-908 | sale, bounties, slice with its re-entrant fee, and dust sweep move the surplus by what the slice reading misses and by nothing else; the vault stays solvent exactly when the surplus covers that |
| TreasurySolvency.RoomIsMeasurable | pallets/launch-treasury/src/lib.rs:834-848 | whatever the venue answers, nothing is missed when the balance, the broker's depth and the largest slice together fit 128 bits: known before the call |
| TreasurySolvency.SliceIsCovered | pallets/launch-treasury/src/lib.rs:949-966 | a slice never needs reserved or locked VTRS |
| TreasurySolvency.RetireSolvent | pallets/launch-treasury/src/lib.rs:1011-1062 | retirement keeps the vault solvent |
| TreasurySolvency.SlashSolvent | pallets/launch-treasury/src/mock.rs:347-371 | a slash keeps the vault solvent |
| TreasuryPayments.SaleBooks | pallets/launch-treasury/src/lib.rs:782-822 | a sale parts with exactly what it sold; proceeds are set to burn less a bounty of the set share, paid in full or not at all |
| TreasuryPayments.SliceBooks | pallets/launch-treasury/src/lib.rs:837-866 | a slice lowers the amount to burn by exactly what was read as spent and a bounty on it, which is the set share of it whenever that much is left and it lands, and stamps the burn clock |
| TreasuryPayments.SlicesAreSpaced | pallets/launch-treasury/src/lib.rs:822-823 | whatever is called, two slices of a launch are at least the interval apart and its dormancy is never changed |
| TreasuryPayments.DormancyIsSnapshot | pallets/launch-treasury/src/lib.rs:1224-1236 | over every run a launch keeps the dormancy it was funded under |
| TreasuryPayments.RetireQueues | pallets/launch-treasury/src/lib.rs:1011-1055 | only a dormant launch retires; what it queues is exactly the value of its shares, due a bonding duration later, and its unstaked fees are set to burn |
| TreasuryBacking.HarvestBacked | pallets/launch-treasury/src/lib.rs:582-599 | attributing rewards per share pays out at most what arrived |
| TreasuryBacking.HarvestAttributesAll | pallets/launch-treasury/src/lib.rs:582-599 | ... and all of it but less than one scaled unit a share |
| TreasuryBacking.SettleIsFair | pallets/launch-treasury/src/lib.rs:610-616 | settling changes no claim that fits 128 bits, and keeps the checkpoint below what was earned |
| TreasuryBacking.StakeBacked | pallets/launch-treasury/src/lib.rs:618-657 | a stake adds less than one unit of unbacked claims, and none before the accumulator first moves |
| TreasuryBacking.SharesStayExactIff | pallets/launch-treasury/src/lib.rs:650-656 | a mint keeps the records in step with the saturating share total exactly when the total has room or one launch holds it all |
| TreasuryBacking.RetireBacked | pallets/launch-treasury/src/lib.rs:1019-1055 | retirement adds no claim |
| TreasuryBacking.CompoundBacked | pallets/launch-treasury/src/lib.rs:783-908 | a sale lowers claims and attributed rewards together; a slice moves neither |
| TreasuryBacking.ClaimsAreBacked | pallets/launch-treasury/src/lib.rs:1150-1160 | all claims together exceed the attributed rewards by at most the rounded-down sum of just under one unit a late stake, and those rewards are in the vault |
| TreasuryDust.DustIsReached | pallets/launch-treasury/src/lib.rs:1150-1156 | for every number of late stakes a run from an empty treasury, nothing saturating, ends with claims above the attributed rewards by exactly the bound |
| TreasuryDust.NeverAboveIff | pallets/launch-treasury/src/lib.rs:1150-1156 | all fitting runs with at most n late stakes keep claims within k of the attributed rewards if and only if k is at least the bound |
| TreasuryDust.WithinAccountedIff | pallets/launch-treasury/src/lib.rs:1150-1156 | all fitting runs with at most n late stakes satisfy the inequality the source asserts if and only if n is at most one |
| TreasuryDust.ClaimsExceedAccounted | pallets/launch-treasury/src/lib.rs:1150-1156 | a fitting run with exactly two late stakes after which claims exceed the attributed rewards by one |
| TreasuryExamples.SweepExample | pallets/launch-treasury/src/mock.rs:481-485 | a run to a slashed pool of two holders, from which the retirement of one succeeds and takes the other's seven units with it |
| TreasuryExamples.SharesCanSaturate | pallets/launch-treasury/src/lib.rs:650-656 | a run to all but one of the shares there can be, from which a stake succeeds and leaves the records three shares above the total |
| TreasuryExamples.SaturatedExample | pallets/launch-treasury/src/lib.rs:1079-1100 | a run to three matured retirements, from which a finalize succeeds, credits four of three units that came back, and leaves the vault short |
| TreasuryExamples.SliceMisread | pallets/launch-treasury/src/lib.rs:834-848 | a run to a full vault, from which a compound succeeds, reads its slice ten short, and leaves the vault short |
| TreasuryExamples.RetirementStranded | pallets/launch-treasury/src/lib.rs:1064-1077 | a run to a matured, queued retirement whose ledger went with an earlier withdrawal: its finalize is refused |
| TreasuryRetirement.RetiringIffQueued | pallets/launch-treasury/src/lib.rs:1037-1051 | a launch is retiring exactly when one queue entry names it, with its era and a positive amount |
| TreasuryRetirement.RetireQueue | pallets/launch-treasury/src/lib.rs:1011-1055 | retirement queues the launch once or closes it, and empties its shares, debt and pending |
| TreasuryRetirement.CompoundDescends | pallets/launch-treasury/src/lib.rs:783-895 | every successful compound on a launch no longer active strictly lowers (status, accrued, to burn) and keeps it empty, however large the amounts |
| TreasuryFinalize.FinalizeWorksIff | pallets/launch-treasury/src/lib.rs:1064-1084 | a matured retirement can be finalized exactly when a ledger exists, whatever the amounts; the nothing-to-do error is unreachable |
| TreasuryFinalize.FinalizeConserves | pallets/launch-treasury/src/lib.rs:1074-1100 | finalizing credits the launches what was withdrawn and what their shares overpay, in total, and lowers the surplus by exactly the overpayment |
| TreasuryFinalize.FinalizeSolvent | pallets/launch-treasury/src/lib.rs:1064-1104 | finalizing keeps the vault solvent exactly when the surplus covers what is overpaid |
| TreasuryFinalize.FittingIsCreditable | pallets/launch-treasury/src/lib.rs:1081-1092 | nothing is overpaid, whatever comes back, when all matured entries but the last unbonded an amount that fits 128 bits |
| TreasuryFinalize.FinalizeCredits | pallets/launch-treasury/src/lib.rs:1085-1100 | each matured launch is credited its own part and closed; no other record changes |
| TreasuryFinalize.FinalizeCloses | pallets/launch-treasury/src/lib.rs:1085-1100 | whatever the amounts, exactly the matured launches are closed, and of no launch anything but status and burn changes |
| TreasuryFinalize.FinalizeQueue | pallets/launch-treasury/src/lib.rs:1079-1103 | after a finalize the launches still retiring are exactly those still queued |
| TreasuryFinalize.LastGetsTheRest | pallets/launch-treasury/src/lib.rs:1086-1091 | the last entry gets at least its share, and less than one unit more for each entry |
| TreasuryFinalize.ConservesIff | pallets/launch-treasury/src/lib.rs:1081-1092 | the credits add up to every possible withdrawal if and only if all entries but the last unbonded an amount that fits 128 bits |
| TreasuryFinalize.ClosedIsInert | pallets/launch-treasury/src/lib.rs:866-895 | no call finds anything to do on a closed launch, and no fee reopens it |
| TreasuryLifecycle.RetirementIsOneWay | pallets/launch-treasury/src/lib.rs:1029-1055 | over every run, saturating calls included, a launch that began to retire never becomes active again, holds no shares and only comes nearer its end |
| TreasuryLifecycle.ClosedForever | pallets/launch-treasury/src/lib.rs:1198-1238 | a closed record stays as it is over every run |
| TreasuryLifecycle.RetirementEnds | pallets/launch-treasury/src/lib.rs:770-1104 | along any infinite execution only finitely many compound and finalize calls on a retiring launch succeed |
| TreasuryLifecycle.StepKeepsLife | pallets/launch-treasury/src/lib.rs:1011-1104 | every call, saturating or not, keeps the queue exact and the balance within 128 bits |
| TreasuryShares.StakeIsFair | pallets/launch-treasury/src/lib.rs:650-656 | a stake never lowers the staked value of another launch |
| TreasuryShares.StakeGainsNothing | pallets/launch-treasury/src/lib.rs:650-656 | a stake never raises the value of its own launch by more than it put in |
| TreasuryShares.StakeLosesAtMostAShare | pallets/launch-treasury/src/lib.rs:650-656 | ... nor costs it more than the price of one share |
| TreasuryShares.MintIsLargest | pallets/launch-treasury/src/lib.rs:650-654 | the mint is the largest number of shares that dilutes nobody |
| TreasuryShares.RetireIsFairIff | pallets/launch-treasury/src/lib.rs:1022-1054 | a retirement lowers the staked value of another launch exactly when the unbonding sweeps a remainder below the deposit in which the other had anything |
| TreasuryShares.RetireKeepsOwned | pallets/launch-treasury/src/lib.rs:1022-1054 | the last holder to leave takes the whole active stake with it |
| TreasuryShares.StakeKeepsOwned | pallets/launch-treasury/src/lib.rs:650-656 | a stake keeps the pool owned: without shares nothing is staked |
| TreasuryRuns.RetargetIff | pallets/launch-treasury/src/lib.rs:680-703 | a retarget succeeds exactly on enough stake, a cooperable target and a good reputation, and then splits the stake to the unit, evenly, over the cooperable targets and no others |
| TreasuryRuns.StepKeepsInv | pallets/launch-treasury/src/lib.rs:1136-1191 | every call, fee, slash and step of the chain that miscounts no VTRS keeps the vault solvent, the queue exact, and a cooperation not flagged stale within one unit a target of the stake |
| TreasuryRuns.StepKeepsBacked | pallets/launch-treasury/src/lib.rs:1150-1160 | every call and step whose mint has room keeps claims backed, late stakes counted |
| TreasuryRuns.StepConservesIff | pallets/launch-treasury/src/lib.rs:1161-1179 | a call of a funded vault conserves what it holds above records and ledger if and only if it miscounts no VTRS |
| TreasuryRuns.StepKeepsSharesIff | pallets/launch-treasury/src/lib.rs:650-656 | a call keeps the records in step with the share total if and only if its mint has room |
| TreasuryRuns.RunExactIff | pallets/launch-treasury/src/lib.rs:1136-1191 | a run keeps shares and surplus exact at every step if and only if nothing in it saturates: the runs the other results are over are exactly those |
| TreasuryRuns.RoomFits | pallets/launch-treasury/src/lib.rs:650-656 | bounds known before a call, whatever the venue answers, are enough for it not to saturate |
| TreasuryRuns.RunKeepsTreasury | pallets/launch-treasury/src/lib.rs:1136-1191 | all of these over every run in which nothing saturates |
| TreasuryRuns.RunConserves | pallets/launch-treasury/src/lib.rs:1161-1179 | over every run of a funded vault that miscounts no VTRS, what it holds above records and ledger changes by exactly what was sent to it outside them |
| TreasuryRuns.GenesisOk | pallets/launch-treasury/src/lib.rs:1136-1191 | an empty treasury, whatever it was sent, satisfies every invariant |
| TreasuryRuns.ClaimsOverRuns | pallets/launch-treasury/src/lib.rs:1136-1179 | from an empty treasury, after any run in which nothing saturates: claims within the exact bound, rewards, VTRS reserve, share total and stake ownership |
| TreasuryVenue.CurveBuyIsDeliverable | pallets/launchpad/src/lib.rs:1545-1560 | a slice bought on the curve, crossing or not, keeps the terms the treasury relies on and moves the vault by exactly spent less returned fee |
| TreasuryVenue.SliceCannotBeBracketed | pallets/launch-treasury/src/lib.rs:916-965 | no slice the vault sizes on the curve can be bracketed at a profit, in however many buys and sells, creator fees that are claimed back not counted |
| TreasuryVenue.CreatorCannotBracketSlice | pallets/launch-treasury/src/lib.rs:916-965 | the creator, its share of its own fees counted, gains less than two units a trade around such a slice while the term is at most twice the fee times the share that is kept |
| TreasuryVenue.CreatorBracketsSlice | pallets/launch-treasury/src/lib.rs:916-965 | past that line by the margin the creator does gain around a slice the vault sizes |
| TreasuryCompound.CompoundWorksIff | pallets/launch-treasury/src/lib.rs:770-908 | a compound call goes through exactly when its claim can be settled, the vault has room for what is sold, the venue deals honestly with a due slice, and something is sold, or bought, or the protocol takes the last dust; it then does exactly what plain sums over the inputs say, balance, record and clock, and nothing else |
| TreasuryCompound.DueSliceIsTaken | pallets/launch-treasury/src/lib.rs:822-866 | a due slice that an honest venue buys is always taken, whatever the status of the launch: the call goes through, the burn clock is now, and what is to burn falls by at least what is read as spent, a sale beside it apart |
| TreasuryCompound.SaleIs | pallets/launch-treasury/src/lib.rs:780-811 | the sale of a compound: how much, for how much, and the bounty, as plain sums; refused exactly when the proceeds do not fit the vault |
| TreasuryCompound.SliceIs | pallets/launch-treasury/src/lib.rs:822-866 | the slice of a compound: taken exactly when due and bought, refused exactly when the venue fails or is dishonest, and booked as plain sums, bounty included |
| TreasuryEffects.HarvestCallIff | pallets/launch-treasury/src/lib.rs:461-467 | a harvest call goes through exactly when there are shares and something has arrived for them that fits, and attributes all of it |
| TreasuryEffects.SettleIs | pallets/launch-treasury/src/lib.rs:582-625 | harvest and settlement of one claim as plain sums, refused exactly when one does not fit 128 bits |
| TreasuryEffects.FeeIff | pallets/launch-treasury/src/lib.rs:1198-1235 | a fee is taken exactly for a launch that is new or active, when the vault can take it |
| TreasuryEffects.FeeExactly | pallets/launch-treasury/src/lib.rs:1198-1235 | it joins its launch's pending, less the deposit if the vault's first; a first fee opens the record under the dormancy then in force; nothing else changes |
| TreasuryEffects.StakeIff | pallets/launch-treasury/src/lib.rs:627-663 | fees are staked exactly for an active launch with the minimum stake pending, in a vault that is not insolvent, when the deposit is met and the sums fit |
| TreasuryEffects.StakeExactly | pallets/launch-treasury/src/lib.rs:627-676 | a stake bonds all that is pending, mints its shares at the price before it, checkpoints them at what they would have earned, and brings the cooperation in line or marks it stale; nothing else changes |
| TreasuryEffects.RetireIff | pallets/launch-treasury/src/lib.rs:1011-1048 | a launch retires exactly when active, untraded for its dormancy, and its stake, if it has any, can be taken out |
| TreasuryEffects.RetireExactly | pallets/launch-treasury/src/lib.rs:1011-1062 | a retirement settles the claim, takes the launch out of the pool for what its shares are worth, queued, sets its fees to burn, and brings a cooperation that goes on in line; nothing else changes |
| TreasuryEffects.FinalizeIff | pallets/launch-treasury/src/lib.rs:1064-1084 | a retirement is finalized exactly when its chunk has matured and a ledger is there |
| TreasuryEffects.FinalizeLeaves | pallets/launch-treasury/src/lib.rs:1073-1104 | a finalize leaves exactly the entries that wait, takes exactly what matured off the ledger, and touches only records, queue and ledger |
| TreasuryEffects.SetTermsIff | pallets/launch-treasury/src/lib.rs:496-506 | terms are taken exactly within bounds, and change nothing else |
| TreasuryEffects.SetTargetsIff | pallets/launch-treasury/src/lib.rs:512-522 | targets are taken exactly when not too many, and the cooperation follows |
| TreasuryPallet.LaunchTreasury.DoHarvest | pallets/launch-treasury/src/lib.rs:582-599 | in-place harvest is the harvest of the state it found |
| TreasuryPallet.LaunchTreasury.SettleCopy | pallets/launch-treasury/src/lib.rs:610-616 | settling a copy equals the settle function |
| TreasuryPallet.LaunchTreasury.FilterTargets | pallets/launch-treasury/src/lib.rs:684-685 | the filter keeps exactly the cooperable targets, in order |
| TreasuryPallet.LaunchTreasury.Split | pallets/launch-treasury/src/lib.rs:687-698 | the loop builds the equal split |
| TreasuryPallet.LaunchTreasury.DoRetarget | pallets/launch-treasury/src/lib.rs:680-703 | in-place retarget equals its specification, error by error |
| TreasuryPallet.LaunchTreasury.RetargetAfterBondChange | pallets/launch-treasury/src/lib.rs:667-675 | a failed re-cooperation is recorded as stale and not returned |
| TreasuryPallet.LaunchTreasury.BondCopy | pallets/launch-treasury/src/lib.rs:638-661 | bond, mint, checkpoint and re-cooperate in place |
| TreasuryPallet.LaunchTreasury.DoStake | pallets/launch-treasury/src/lib.rs:627-663 | in-place stake is the stake of the state it found |
| TreasuryPallet.LaunchTreasury.NoteFee | pallets/launch-treasury/src/lib.rs:1208-1241 | in-place fee note: creation, first-fee withholding, active only |
| TreasuryPallet.LaunchTreasury.ReceiveFee | pallets/launch-treasury/src/lib.rs:1198-1241 | a fee is taken only for a launch that takes fees and can land |
| TreasuryPallet.LaunchTreasury.Sell | pallets/launch-treasury/src/lib.rs:782-822 | sizing, sale, accounting and bounty in place |
| TreasuryPallet.LaunchTreasury.BookBurn | pallets/launch-treasury/src/lib.rs:837-866 | pending re-read from storage, spent from the balance, bounty from what is left |
| TreasuryPallet.LaunchTreasury.Burn | pallets/launch-treasury/src/lib.rs:822-870 | one slice if due, with the fee noted underneath |
| TreasuryPallet.LaunchTreasury.DoCompound | pallets/launch-treasury/src/lib.rs:770-908 | in-place compound over a local copy is the compound of the state it found |
| TreasuryPallet.LaunchTreasury.ChillAndUnbond | pallets/launch-treasury/src/lib.rs:1039-1045 | chill before unbonding when too little would be left to cooperate with |
| TreasuryPallet.LaunchTreasury.DoRetire | pallets/launch-treasury/src/lib.rs:1011-1062 | in-place retirement is the retirement of the state it found |
| TreasuryPallet.LaunchTreasury.PartQueue | pallets/launch-treasury/src/lib.rs:1079-1083 | one pass parts the queue and sums the matured amounts, saturating |
| TreasuryPallet.LaunchTreasury.CreditAll | pallets/launch-treasury/src/lib.rs:1085-1100 | the crediting loop equals the credits specified entry by entry |
| TreasuryPallet.LaunchTreasury.DoFinalize | pallets/launch-treasury/src/lib.rs:1064-1104 | in-place finalize is the finalize of the state it found |
| TreasuryPallet.LaunchTreasury.Stake | pallets/launch-treasury/src/lib.rs:443-446 | a refused stake leaves no trace, the ledger included |
| TreasuryPallet.LaunchTreasury.HarvestNow | pallets/launch-treasury/src/lib.rs:459-465 | a harvest call attributes what has arrived, or is refused without a trace when nothing has |
| TreasuryPallet.LaunchTreasury.Compound | pallets/launch-treasury/src/lib.rs:472-475 | a refused compound leaves no trace, its sale and slice included |
| TreasuryPallet.LaunchTreasury.Retire | pallets/launch-treasury/src/lib.rs:480-483 | a refused retirement leaves no trace, the ledger included |
| TreasuryPallet.LaunchTreasury.FinalizeRetirement | pallets/launch-treasury/src/lib.rs:489-492 | a refused finalize leaves no trace |
| TreasuryPallet.LaunchTreasury.SetTargets | pallets/launch-treasury/src/lib.rs:512-523 | new targets are kept even when the re-cooperation fails |
| TreasuryPallet.LaunchTreasury.TakeSlash | pallets/launch-treasury/src/mock.rs:347-371 | a slash takes from the ledger and from the vault the same amount |

## Left out

- The exchange's pools: swaps, liquidity, fee escrow and seeding are parameters with the terms their callers rely on.
- Existential-deposit reaping, consumer references and deposit-backed accounts; the deposit is kept in the vault and
  launch-escrow inequalities, in payments of quote and in the unbonding sweep. Marketplace balances have no minimum.
- Account derivation: the accounts of pallets, launches and solvers are distinct, and none of them signs.
- Weights, events, metadata, encoding, origin checks, proxies, storage migrations, asset-id scanning.
- Saturation of block numbers, eras, ids, counts and reputation, which are unbounded here.
- A seed that costs the escrow more than one existential deposit on top of what it brings to the pool is treated as
  refused.
- `create_launch`, `force_seed_into_existing_pool`, `set_params` and the recipient setter are modelled on values only;
  the class carries the trading, seeding and claiming calls.
- The broker's rate and depth are those of the mock: linear, with a fee of one hundredth; a quote that would not fit
  128 bits is no quote.
- A harvest whose increment overflows is refused as in the source; no bound on rewards that rules it out is assumed.
- The minimum cooperator bond is taken positive, as it is in every configuration of the source.
- TreasuryRuns.RunKeepsTreasury: over runs that meet `RunFits`; past them a sum is off by what saturated, as
  `RunExactIff` shows.
- CurveBrackets.CreatorBracketNeverPays: brackets of the vault's own slices by normal buys; a buy that completes the
  curve ends its trading, and no sell can follow it.
- TreasuryFinalize.FinalizeWorksIff: a ledger whose chunks were all slashed to nothing disappears with the first
  withdrawal, and a retirement due after it is refused until something is bonded again (`RetirementStranded`).
- CreatorBrackets.SafeFromCreatorIff: nothing is said of terms closer to the line than its margin, nor of curves whose
  virtual reserve or token floor is above 4 * 10^32.
- MarketEffects.RegisterIff: without the minimum balance a signer has to keep; the same holds of `SubmitIff`.
- LaunchpadGuards.OpenIff: without names, symbols and the terms hash a creator may insist on.
- LaunchpadGuards.BuyIff: for a quote currency whose total fits 128 bits.
- TreasuryVenue.CurveBuyIsDeliverable: for the hook the runtime binds today, which takes nothing.
