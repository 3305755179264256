# Mimir kernels, modelled and proved in Dafny

Mimir is a prediction-market application on Stellar. This project models the parts of it that
handle money, that commit to evidence, and that must survive crashes, retries and reorganisations,
and proves what those parts are for. It stands beside the TypeScript and Rust sources and depends on
nothing else: `dafny verify dfyconfig.toml` covers the whole project.

Where the source computes a value from expressions, the model is a function; where it updates
variables in a loop, a method with a loop that is proved against a function; where it changes
tables, a class whose methods state the whole new state. The lemmas are about those functions.

## Files

- `EvidenceCommitment.dfy` and `Unicode.dfy`: `canonicalEvidenceBytes` and its validators, with a
  decoder written for this project. UTF-8 follows section 3 of RFC 3629 and UTF-16 section 2 of
  RFC 2781. SHA-256 is an arbitrary function.
- `Fees.dfy`: `validateFeePolicy`, `snapshotFeePolicy`, `splitFees`, `settleMarket`,
  `mergeAccruals`, `noWinnerLosesPrincipal`, `splitAttributedFees`, and the pool payout rule of
  `lib/payout.ts`.
- `CopyTrading.dfy`: `evaluateCopy`, `validateCopyPermission`, `computeCopyUsageFromExecutions`, and
  runs in which the gate is fed from its own audit log. `CopyLog.dfy`: the same with the log as it
  is stored and read back.
- `Baskets.dfy`: `sharesForDeposit`, `assetsForRedemption` and `highWaterMarkFee`, and runs of them.
- `PullSettlement.dfy`: the on-chain escrow of one market, `challenge_claim`, `resolve_claim`,
  `claim_challenger_payout`, `cancel_claim` and `transition_deadline` of
  `contracts-soroban/mimir-market`, and runs of them.
- `ContractLedger.dfy`: the token balance of the whole contract under `create_claim`, those five,
  `withdraw` and `claim_fees`, with pushes that park. `WindingUp.dfy`: how everything gets out of it.
  `SettlementMirror.dfy`: the contract's split and dust against those of `Fees.dfy`.
- `ClaimsSql.dfy`, `QueryText.dfy` and `FilterQuery.dfy`: `getClaimsByFilter`,
  `makeListPlaceholders` and `toPg`, as a compiler from a filter record to the text of a query with
  arguments. `ClaimsSql` reads such a text and says what the database answers to it; it was
  written for this project.
- `BasketTransfers.dfy`, `FeeProjection.dfy`, `CouncilBonus.dfy`: the three ledger protocols. A SQL
  statement, or a BEGIN..COMMIT block, is one atomic step.
- `WorkerPool.dfy`: `mapWithConcurrency` under every interleaving, and `batchGetClaims`.
- `ClaimFeed.dfy`: `getAllVSDirect`, following its cursor, and `getRivalryChain`.
- `Leaderboard.dfy`: `positionsFromProjection`, `outcomeFor`, `statsFor`, `comparator` and
  `buildLeaderboard`.
- `Messages.dfy` and `LocaleCompleteness.dfy`: `deepMerge`, `flattenKeys`, `getLeafValue` and
  `checkLocale`.
- `Wrappers.dfy`, `JsNumbers.dfy`, `JsStrings.dfy`, `Arithmetic.dfy`, `Sequences.dfy`,
  `Sorting.dfy`: shared vocabulary. BigInt division truncates (`TruncDiv`); strings are sequences
  of 16-bit code units; `sort` is a stable sort.

## Findings

Where a property that the code or its documentation suggests does not hold as stated, a lemma gives
the exact condition; where it holds more widely, the lemma says so.

- Only the evidence body is tested for unpaired surrogates. A source URL that ends in one is
  committed as U+FFFD, so two different URLs can have the same bytes (`IllFormedUrlsCollide`); the URL
  is recovered exactly when it is well-formed UTF-16 (`SourceUrlRecoveredIff`). The comment at
  `lib/evidence-commitment.ts:294-312` promises an unambiguous layout, which holds of everything else.
- `noWinnerLosesPrincipal` reads payouts through a map that keeps the last payout to an address. It
  holds exactly when the last payout to each winner's address covers that winner's stake
  (`PrincipalIff`), so always when nobody after a winner shares the address
  (`WinnersKeepPrincipal`). Two winners at one address make it fail in one order and not in the
  other (`RepeatedAddressHidesPayout`).
- `validateFeePolicy` asks only that a recipient is given. A validated positive rate is charged
  exactly when the trimmed recipient is not empty and not the zero address
  (`ValidatedRateChargedIff`); a blank one passes and is never charged
  (`BlankRecipientIsNeverCharged`).
- The chain feed takes cursor 0 for no cursor, the index takes it for a bound; and below a limit of
  1 the feed can throw (`PageShape`) where the index applies no limit. They agree in every other
  case (`FeedAgreesWithIndexIff`).
- Per-recipient unclaimed fees add up to the global figure exactly when nobody has claimed more
  than accrued while somebody else is still owed (`UnclaimedAddsUpIff`; `UnclaimedCanDisagree` is a
  case where they do not).
- Dust ignores the fee rates exactly when no payout is negative (`DustIgnoresFeesIff`), which a
  valid snapshot guarantees (`DustExact`); rates above the whole can break it (`OverchargingLeavesDust`).
- After the fallback merge a locale can still miss baseline keys: exactly when one of its own
  values shadows a baseline leaf (`NothingMissingIff`, and `ShadowedKeyStaysMissing` for one case).
- The comment on `getRivalryChain` (`lib/contract.ts:2077-2080`) promises a root and then all its
  descendants; the code walks from a claim up to its root and nowhere else. With claim 2 below 1 and
  1 at the top the walk from 2 is [2, 1] and from 1 it is [1] (`RivalWalks`). The walk is what the
  comment says exactly when the claim has neither parent nor child (`DocumentedIff`); as a set it
  is the whole family of the claim it ends at exactly when no claim off the walk has its parent on
  it (`WalkIsFamilyIff`), on a cycle too, whose claims all descend from each other.
- `docs/ECONOMIC_INVARIANTS.md:147-163` and `contracts-soroban/mimir-market/src/types.rs:401-408` give
  `cancel_claim` an error of its own for an open claim with challengers, challenger stakes or a
  reserve, and another for a refund that the balance does not cover. The code answers
  `ClaimNotOpen` to challengers and stakes, and looks neither at the reserve nor at the balance:
  an open claim with a reserve of 1 and no challengers is cancelled (`CancelDiffers`). Code and
  documents answer alike exactly on claims that are not open, cancelled ones being left alone by
  both, and on open ones that have no such exposure, are covered and hold no negative escrow
  (`CancelAsDocumentedIff`). Every claim that a run can reach is of that kind
  (`CancelAnswersAsDocumented`): an open one has nothing to settle, and can always be cancelled
  (`CancelSucceedsIff`).
- The copy caps hold for any clock, even one that goes backwards, because the usage windows have no
  upper end (`RunStaysWithinCaps`).
- The comment at `lib/copy-trading.ts:318-320` takes the audit rows for what the caps are checked
  against. The stored log keeps one row for each permission and source position, the first, and is
  read by its latest rows. The usage a read gives is exact exactly when every copy found its key
  free and no executed row fell out of the read (`ReadIsExactIff`); then the caps hold over the
  whole run (`StoredRunStaysWithinCaps`), and no row falls out while the log is no longer than what
  is read (`ShortRunIsComplete`). Either alone is not enough: positions recorded as skipped and
  copied later never count (`SkippedPositionsEscapeCaps`), nor do executed rows beyond the limit
  (`LongLogEscapesCaps`).

## Model

| member | source | states |
|---|---|---|
| JsStrings.TrimIs | lib/evidence-commitment.ts:246 | trimming takes white space off both ends, all of it and nothing else |
| Unicode.LoneSurrogateIffIllFormed | lib/evidence-commitment.ts:167-168 | the LONE_SURROGATE expression matches exactly the strings that are not well-formed UTF-16 |
| Unicode.ScalarsOfUtf16 | lib/evidence-commitment.ts:266-271 | reading scalar values inverts writing them as UTF-16, and what is written is well-formed |
| Unicode.ToWellFormedFixpoint | lib/evidence-commitment.ts:266-270 | U+FFFD replacement leaves a string alone exactly when it is well-formed |
| Unicode.ToWellFormedConcat | lib/evidence-commitment.ts:331-337 | replacement distributes over a concatenation that separates no surrogate pair |
| Unicode.DecodeOfEncode | lib/evidence-commitment.ts:271 | a strict UTF-8 decoder inverts the encoder on every sequence of scalar values |
| Unicode.EncodeOfDecode | lib/evidence-commitment.ts:271 | the decoder accepts nothing but encodings, so each text has one byte form |
| Unicode.BufferFromInjective | lib/evidence-commitment.ts:266-271 | two strings have the same UTF-8 bytes iff they agree after replacement; on well-formed strings iff they are equal |
| EvidenceCommitment.Fixed4RoundTrip | lib/evidence-commitment.ts:177-180 | the four-decimal rendering of a score reads back, sign of zero included, and holds no comma or control |
| EvidenceCommitment.TallyRoundTrip | lib/evidence-commitment.ts:189-206 | the tally field of a valid council reads back as its five counts |
| EvidenceCommitment.CouncilRoundTrip | lib/evidence-commitment.ts:208-241 | the serialized council reads back as the record rounded to four decimals, and is never the word for no council |
| EvidenceCommitment.HeaderRoundTrip | lib/evidence-commitment.ts:321-327 | the header reads back as fetcher, replaced URL and length, and its bytes hold no record separator |
| EvidenceCommitment.AcceptedIff | lib/evidence-commitment.ts:243-338 | an input is accepted iff fetcher, trimmed URL, freshness and each part of the council are as each check spells them out, and the evidence is well-formed, not blank and at most 64 KiB of UTF-8; otherwise the first failing check gives the reason |
| EvidenceCommitment.RefusedIff | lib/evidence-commitment.ts:182-338 | an input is refused with a reason iff that check fails and every earlier one passes |
| EvidenceCommitment.CommitmentRoundTrip | lib/evidence-commitment.ts:313-338 | whatever the evidence contains, the committed bytes parse back to fetcher, trimmed and replaced URL, evidence and council record |
| EvidenceCommitment.CommittedParts | lib/evidence-commitment.ts:177-338 | the parsed bytes hold the URL exactly as trimmed, unpaired surrogates replaced, the five counts by name, and each score as its sign and the nearest ten-thousandth, ties away from zero |
| EvidenceCommitment.SameBytesIffSameCommitment | lib/evidence-commitment.ts:294-338 | two accepted inputs have the same bytes iff they have the same fetcher, trimmed and replaced URL, evidence and rounded council |
| EvidenceCommitment.SourceUrlRecoveredIff | lib/evidence-commitment.ts:243-255 | the trimmed URL itself is recovered iff it is well-formed UTF-16 |
| EvidenceCommitment.IllFormedUrlsCollide | lib/evidence-commitment.ts:243-255 | two accepted inputs with different URLs and the same bytes |
| EvidenceCommitment.VerifiedMeansSameCommitment | lib/evidence-commitment.ts:341-367 | against the digest of one accepted input another verifies iff it commits to the same thing, or the two inputs' own different bytes collide under the hash |
| EvidenceCommitment.DigestForms | lib/evidence-commitment.ts:361-367 | a hexadecimal digest is recognised iff the expected text, trimmed, is it in either case, with or without 0x |
| Fees.ValidateFeePolicy | lib/fees.ts:92-131 | which errors are reported, each iff its condition; none iff the policy is valid |
| Fees.ValidPolicyGivesValidSnapshot | lib/fees.ts:133-147 | a snapshot of a valid policy has exactly the policy's rates, within the total cap, and its recipients, trimmed |
| Fees.ValidatedRateChargedIff | lib/fees.ts:92-208 | a validated rate, snapshotted, is charged on some profit iff it is positive and its recipient, trimmed, is neither empty nor the zero address |
| Fees.BlankRecipientIsNeverCharged | lib/fees.ts:92-147 | a policy with a positive rate and a blank recipient is valid, and its rate is never charged |
| Fees.FeesWithinProfit | lib/fees.ts:185-232 | under a valid snapshot fees come out of profit only, payout and fees make up the gross, and a winner keeps the principal |
| Fees.SettleMarket | lib/fees.ts:273-330 | the settlement is the filtered payouts, the fee sums, the accrual lines and the residue, as sums over the participants; `EveryoneIsPaid`, `TotalsAreLegs` and `LinesReachRecipients` say what they are |
| Fees.EveryoneIsPaid | lib/fees.ts:185-300 | a refund returns each stake; otherwise each participant is due the gross less both fees on the profit, at their own address, and is paid it iff it is positive |
| Fees.TotalsAreLegs | lib/fees.ts:185-232 | each fee total is the sum over the participants of its own rate on their profit, rounded down, or 0 without a recipient |
| Fees.DustIdentity | lib/fees.ts:273-330 | for any participants, rates and outcome, dust is stakes less what was due before fees less dropped negative payouts |
| Fees.DustIgnoresFeesIff | lib/fees.ts:262-330 | fees leave no dust iff no payout is negative |
| Fees.OverchargingLeavesDust | lib/fees.ts:262-330 | rates of twice the profit give a market whose dust depends on them |
| Fees.DustExact | lib/fees.ts:262-330 | under a valid snapshot dust is stakes less gross payouts whatever the rates, and 0 on a refund |
| Fees.SharesWithRemainders | lib/payout.ts:63-73 | floored pool shares, times the pool, fall short of the exact ones by less than one pool each |
| Fees.PoolDustBound | lib/fees.ts:273-330 | when n challengers win a pool, dust is between 0 and n - 1 |
| Fees.PoolDustBoundAttained | lib/payout.ts:63-73 | for every n a market, built from n, in which n challengers win and the dust is n - 1 |
| Fees.PrincipalIff | lib/fees.ts:357-377 | for all participants, rates and outcomes, the invariant as computed holds iff the last positive due to each winner's trimmed address covers that winner's stake |
| Fees.WinnersKeepPrincipal | lib/fees.ts:357-377 | the principal invariant holds of every settlement under a valid snapshot in which nobody after a winner shares the winner's trimmed address |
| Fees.RepeatedAddressHidesPayout | lib/fees.ts:365-377 | two winners listed under one address fail the invariant in one order and meet it in the other, under every valid snapshot |
| Fees.MergeAccruals | lib/fees.ts:332-349 | one entry per trimmed recipient with the sum of its lines, strictly sorted, totalling all lines |
| Fees.AccumulateAccruals | lib/fees.ts:339-345 | the loop's map holds each recipient's sum |
| Fees.AccrualsHoldTheFees | lib/fees.ts:301-317 | the accrual lines sum to exactly the fees taken |
| Fees.LinesReachRecipients | lib/fees.ts:301-317 | every platform line names the snapshot's platform recipient, every owner line its agent owner, and the lines of each kind sum to that leg's fees on everybody's profit |
| Fees.MergedLegs | lib/fees.ts:301-349 | for every address, the lines with that trimmed recipient sum to exactly the legs due to it |
| Fees.ValidatedPolicySettlesSafely | lib/fees.ts:92-377 | a policy that passes validation, snapshotted, settles any market with exact dust and all fees accrued, and keeps principal iff the last payouts cover it, so always with distinct addresses |
| Fees.SplittersAgree | lib/fees.ts:423-486 | without a basket creator, for an earner who is neither recipient, the attributed split is the on-chain one |
| Fees.AttributedLegs | lib/fees.ts:423-486 | payout and total fee make up the gross, and the charged legs fall short of the single floor at the summed rate by at most legs - 1 |
| Fees.NobodyPaysThemselves | lib/fees.ts:423-486 | each leg is its own rate on the profit for its own recipient, 0 and listed as waived iff that is the earner; a refund has no legs |
| PullSettlement.Escrow.FindChallenger | contracts-soroban/mimir-market/src/resolve.rs:236-247 | the loop finds the first entry of an address, and none iff there is none |
| PullSettlement.Escrow.ChallengeClaim | contracts-soroban/mimir-market/src/claims.rs:214-340 | a challenge is refused without change in the order of the checks, or adds one entry, its stake and, under fixed odds, its profit to the reserve |
| PullSettlement.ChallengeRefusedIff | contracts-soroban/mimir-market/src/claims.rs:214-290 | while amounts fit, a first challenge is refused with an error iff that check fails and every earlier one passes, and goes through iff none fails; a second one changes nothing |
| PullSettlement.Escrow.CancelClaim | contracts-soroban/mimir-market/src/claims.rs:418-474 | an open claim without challengers is cancelled and refunded, a cancelled one left alone, any other refused without change |
| PullSettlement.Escrow.TransitionDeadline | contracts-soroban/mimir-market/src/claims.rs:368-416 | an unanswered claim is cancelled and refunded iff its deadline has passed; an active one is left alone, any other refused |
| PullSettlement.CancelSucceedsIff | contracts-soroban/mimir-market/src/claims.rs:418-474 | in a sound market a cancellation succeeds iff the claim is open or cancelled, is refused with ClaimNotOpen otherwise, and no open claim is exposed |
| PullSettlement.CancelRefunds | contracts-soroban/mimir-market/src/claims.rs:418-474 | a cancellation changes nothing but the state and pays the creator the whole stake without a fee |
| PullSettlement.ExpireSucceedsIff | contracts-soroban/mimir-market/src/claims.rs:368-416 | an expiry succeeds iff the claim is active, which it leaves alone, or open with its deadline passed, which it refunds; which error it gives otherwise |
| PullSettlement.CancelAsDocumentedIff | contracts-soroban/mimir-market/src/claims.rs:418-474 | for every claim and balance the code answers as documented iff the claim is not open, or is unexposed, covered and holds no negative escrow |
| PullSettlement.CancelDiffers | contracts-soroban/mimir-market/src/claims.rs:418-474 | an open claim with a challenger counted and one with a reserve of 1: what the code and the documents answer, and that no run reaches either |
| PullSettlement.Escrow.ResolveClaim | contracts-soroban/mimir-market/src/resolve.rs:51-211 | a verdict is refused without change, repeated without effect, or pays the creator's part and seeds what challengers are owed |
| PullSettlement.VerdictPays | contracts-soroban/mimir-market/src/resolve.rs:108-172 | what each verdict pays the creator, charges and leaves to challengers: all less two fees on the challengers' stakes, the stake less the reserve, nothing, or the stake |
| PullSettlement.Escrow.ClaimChallengerPayout | contracts-soroban/mimir-market/src/resolve.rs:288-356 | a pull is refused without change, or marks the entry, draws the gross from the escrow and returns what is owed after fees |
| PullSettlement.SpareBounds | contracts-soroban/mimir-market/src/resolve.rs:249-278 | what a verdict seeds exceeds the formula payouts by less than one unit per challenger, and by nothing unless a pool is won |
| PullSettlement.ResolveNeverOverdraws | contracts-soroban/mimir-market/src/resolve.rs:108-172 | in every sound market a verdict commits no more than came in, so its escrow check never fires |
| PullSettlement.ResolveSucceedsIff | contracts-soroban/mimir-market/src/resolve.rs:51-211 | while products fit 128 bits a verdict succeeds iff it is one and the claim is active, or was resolved by exactly it, which changes nothing; which error it gives otherwise |
| PullSettlement.PullDraws | contracts-soroban/mimir-market/src/resolve.rs:288-356 | a pull that succeeds draws the formula payout, for the last claimant what is left over too, and pays at least the stake after fees |
| PullSettlement.PullNeverOverdraws | contracts-soroban/mimir-market/src/resolve.rs:323-340 | in every sound market neither the escrow check nor the conservation check of a pull ever fires |
| PullSettlement.PullFailsOnlyOnOverflow | contracts-soroban/mimir-market/src/resolve.rs:288-356 | a challenger who has not pulled is refused only if a product leaves 128 bits |
| PullSettlement.PullSucceedsIff | contracts-soroban/mimir-market/src/resolve.rs:288-356 | while products fit 128 bits a pull succeeds iff the market is settled, not for the creator, and this challenger has not pulled; which error it gives otherwise |
| PullSettlement.HeldAmountsInRange | contracts-soroban/mimir-market/src/fees.rs:12-65 | stakes that one 64-bit token account can hold keep every product within 128 bits |
| PullSettlement.EveryOrderInRange | contracts-soroban/mimir-market/src/resolve.rs:280-356 | the theorem on every order of pulls, for all stakes whose products fit 128 bits |
| PullSettlement.StepKeepsSound | contracts-soroban/mimir-market/src/claims.rs:214-340 | every challenge, verdict, pull, cancellation and deadline keeps stakes, reserve, seed, payments and remaining escrow accounted for |
| PullSettlement.RunIsSound | contracts-soroban/mimir-market/src/resolve.rs:51-356 | so does every run of them from a new market, refused steps included |
| PullSettlement.DealNeverChanges | contracts-soroban/mimir-market/src/claims.rs:134-174 | in every run creator, stake, odds, room and fee terms of a claim stay as they were |
| PullSettlement.EveryUnitAccounted | contracts-soroban/mimir-market/src/resolve.rs:51-356 | in every run nobody is paid twice, every payment covers the stake of a claimed entry after fees, and what was paid, taken and remains is exactly what came in |
| PullSettlement.EscrowEndsEmpty | contracts-soroban/mimir-market/src/resolve.rs:280-356 | once nobody is left who can pull, the escrow holds exactly 0 and every challenger was paid |
| PullSettlement.EveryOrderEmptiesTheEscrow | contracts-soroban/mimir-market/src/resolve.rs:280-356 | in whatever order the challengers of a pool win, fixed win or refund pull, if one token account could hold the stakes, each is paid once, all but the last the formula payout of their own stake, the last the left-over too, and the escrow ends at 0 |
| PullSettlement.LastTakesTheSpareUnit | contracts-soroban/mimir-market/src/resolve.rs:249-278 | two winners of one pool, pulling in both orders: the unit that truncation leaves over goes to whoever pulls last |
| SettlementMirror.QuoteMirrorsSplit | contracts-soroban/mimir-market/src/fees.rs:35-58 | under the same terms the contract's amount owed and fees are those of the off-chain split |
| SettlementMirror.PaymentsMirrorSplits | contracts-soroban/mimir-market/src/resolve.rs:288-356 | in every run each challenger is paid what the off-chain split says of the gross payout, under the terms the claim was created with |
| SettlementMirror.DustMirrorsSpare | lib/fees.ts:273-330 | the dust of the off-chain settlement of a market is exactly what the contract's last claimant takes beyond the formula |
| ContractLedger.MarketContract.PushOrPark | contracts-soroban/mimir-market/src/escrow.rs:43-67 | an amount is delivered, or kept for its receiver if the transfer fails |
| ContractLedger.MarketContract.ApplyFees | contracts-soroban/mimir-market/src/fees.rs:78-123 | the legs are booked to their recipients and the lifetime total, and what is owed is returned |
| ContractLedger.MarketContract.CreateClaim | contracts-soroban/mimir-market/src/claims.rs:88-174 | the stake comes in exactly or the call is refused; the claim is appended as asked, its platform rate and recipient and its owner rate from the policy in force, its agent owner from the request |
| ContractLedger.MarketContract.ChallengeClaim | contracts-soroban/mimir-market/src/claims.rs:214-322 | the market's own checks, then the stake comes in exactly or nothing changes |
| ContractLedger.MarketContract.ResolveClaim | contracts-soroban/mimir-market/src/resolve.rs:51-211 | the verdict, its fees and the push to the creator all happen or none does; a replay changes nothing |
| ContractLedger.MarketContract.ClaimChallengerPayout | contracts-soroban/mimir-market/src/resolve.rs:288-356 | the pull, its fees and the push to the challenger all happen or none does |
| ContractLedger.MarketContract.CancelClaim | contracts-soroban/mimir-market/src/claims.rs:418-474 | the cancellation and the push of the refund |
| ContractLedger.MarketContract.TransitionDeadline | contracts-soroban/mimir-market/src/claims.rs:368-416 | the expiry and the push of the refund |
| ContractLedger.MarketContract.Withdraw | contracts-soroban/mimir-market/src/resolve.rs:407-418 | the whole parked balance leaves at once, or nothing changes |
| ContractLedger.MarketContract.ClaimFees | contracts-soroban/mimir-market/src/resolve.rs:420-438 | the whole accrued balance leaves at once and is counted as claimed, or nothing changes |
| ContractLedger.FeesBooked | contracts-soroban/mimir-market/src/fees.rs:78-123 | the legs add up to exactly the fee, and can fail only past the range of the lifetime total |
| ContractLedger.FeesReachRecipients | contracts-soroban/mimir-market/src/fees.rs:97-113 | each recipient is credited with its own leg and nobody else with anything |
| ContractLedger.PushSettles | contracts-soroban/mimir-market/src/escrow.rs:43-67 | with the books in order a push never fails and parks exactly what the receiver does not accept |
| ContractLedger.ResolveSettles | contracts-soroban/mimir-market/src/resolve.rs:51-211 | in a solvent contract a verdict that its market allows goes through, its payment is covered, and the contract stays solvent |
| ContractLedger.PullSettles | contracts-soroban/mimir-market/src/resolve.rs:288-356 | the same for a challenger's pull, which changes no other claim and no other parked balance |
| ContractLedger.RefundSettles | contracts-soroban/mimir-market/src/claims.rs:368-474 | the same for a cancellation or expiry: the refund is covered without any token of another claim |
| ContractLedger.CancelAnswersAsDocumented | contracts-soroban/mimir-market/src/claims.rs:418-474 | in every run every claim is cancelled or refused as documented, against the contract's own balance |
| ContractLedger.PolicySetIff | contracts-soroban/mimir-market/src/admin.rs:28-40 | a policy takes effect iff its rates are within the cap and a positive platform rate has a recipient |
| ContractLedger.CreateSucceedsIff | contracts-soroban/mimir-market/src/claims.rs:88-174 | creation succeeds iff the stake is enough and comes in whole; the claim has creator, stake, odds (20000 when below 10000), room (100 when 0 or above) and fee terms as asked, field by field |
| ContractLedger.CreateKeepsSolvent | contracts-soroban/mimir-market/src/claims.rs:88-174 | a created claim is a new market, appended, with what was asked for and the policy in force, and the contract stays solvent |
| ContractLedger.WithdrawSucceedsIff | contracts-soroban/mimir-market/src/resolve.rs:407-418 | in a solvent contract a withdrawal succeeds iff its owner accepts it or there is none, pays all of it and touches nobody else's |
| ContractLedger.ClaimFeesSucceedsIff | contracts-soroban/mimir-market/src/resolve.rs:420-438 | the same for accrued fees, without overflow of the claimed total |
| ContractLedger.ActKeepsSolvent | contracts-soroban/mimir-market/src/resolve.rs:51-438 | every call keeps the contract solvent, a refused one included |
| ContractLedger.RunIsSolvent | contracts-soroban/mimir-market/src/resolve.rs:51-438 | over every run on any number of claims the token balance is what open claims staked, settled ones still hold, is parked and is accrued, besides plain transfers, and is what came in less what went out; and accrued fees less claimed ones are what is left to claim |
| ContractLedger.DealIsFrozen | contracts-soroban/mimir-market/src/claims.rs:88-174 | in every run every claim is still as one call created it, under the policy in force at that call |
| ContractLedger.ProfitPaysItsPolicy | contracts-soroban/mimir-market/src/claims.rs:134-141 | in every run the profit of a verdict or a pull credits the recipient of the policy in force when the claim was created, and its agent owner, each with its own leg at the rates of that time, and nobody else |
| ContractLedger.OnlyProfitAccrues | contracts-soroban/mimir-market/src/fees.rs:78-123 | no call but a verdict, a pull and a fee collection changes what anybody has accrued |
| ContractLedger.ChallengerIsAlwaysPaid | contracts-soroban/mimir-market/src/resolve.rs:280-356 | in every run a challenger with something to pull gets at least the stake, delivered or parked, whatever else happens in the contract |
| ContractLedger.NothingIsStranded | contracts-soroban/mimir-market/src/resolve.rs:11-19 | once all claims are over and everybody has collected, all that was paid in has been paid out and the contract holds nothing but plain transfers |
| WindingUp.ClaimCanEnd | contracts-soroban/mimir-market/src/resolve.rs:51-356 | any claim of it can be brought to its end by a cancellation or a verdict and pulls, leaving the other claims as they were |
| WindingUp.NoFundsGetStuck | contracts-soroban/mimir-market/src/resolve.rs:11-19 | from every reachable contract whose amounts are in range, and whatever the verdicts still to be given, further calls end all claims and pay out all that was paid in |
| CopyTrading.AllowedIff | lib/copy-trading.ts:177-263 | the ordered gate allows a copy iff all requirements hold at once, at the signal's own stake |
| CopyTrading.DeniedIff | lib/copy-trading.ts:177-263 | for each of the 27 reasons, a copy is refused with it iff its requirement fails and every earlier one holds; the gate throws iff the first that fails reads a malformed cap, and allows iff none fails |
| CopyTrading.RejectedIff | lib/copy-trading.ts:150-170 | for each of the 8 reasons, a permission is rejected with it iff that check fails and every earlier one passes, and is valid iff none fails |
| CopyTrading.ValidPermissionGate | lib/copy-trading.ts:151-263 | a permission that passes validation never makes the gate throw, and never copies a copy |
| CopyTrading.FirstPositionFits | lib/copy-trading.ts:151-263 | with nested caps and nothing spent yet neither the daily, the weekly nor the exposure cap refuses, and the position cap does iff all before it pass and the stake does not fit it |
| CopyTrading.ComputeCopyUsageFromExecutions | lib/copy-trading.ts:332-375 | the loop computes executed stake since the UTC day start, since the UTC Monday, and in all, skipping malformed rows, and the reset instants |
| CopyTrading.WeekStartIsMonday | lib/copy-trading.ts:336-339 | the week anchor is the start of the Monday-to-Monday UTC week that holds the instant |
| CopyTrading.AuditRowCounts | lib/copy-trading.ts:293-306 | an executed row in either column shape reads back as its stake, stamped no earlier than it was written |
| CopyTrading.AttemptFitsCaps | lib/copy-trading.ts:177-263 | what an allowed attempt adds fits every cap together with what was really spent |
| CopyTrading.PerformKeepsCover | lib/copy-trading.ts:332-365 | every step keeps the log from understating what was copied since any instant |
| CopyTrading.RunStaysWithinCaps | lib/copy-trading.ts:177-365 | in every run over a log to which each copy is appended and that is read whole, executed stake stays within the daily cap in each UTC day, the weekly cap in each Monday week, the exposure cap in total and the position cap per copy |
| CopyTrading.UsageIsExact | lib/copy-trading.ts:299-365 | when all attempts are stamped in milliseconds the log does not overstate spending either |
| CopyLog.CopyExecutions.InsertCopyExecution | lib/db.ts:1922-1936 | the first row of a permission and source position stays, a later one is ignored, and a reused id throws |
| CopyLog.RunIsAccounted | lib/db.ts:1922-1936 | over every run each copy is either in the log, stamped no earlier than it was made, or was lost because its row was not stored |
| CopyLog.ReadIsExactIff | lib/db.ts:1938-1948 | the usage of a read never exceeds what was copied, and equals it iff no copy was lost and no executed row fell out of the read |
| CopyLog.ShortRunIsComplete | lib/db.ts:1938-1948 | while the log of a permission is no longer than the limit, every read of the run holds all its executed rows |
| CopyLog.LongLogIsIncomplete | lib/db.ts:1938-1948 | a read of a longer log of executed rows never does |
| CopyLog.StoredRunStaysWithinCaps | lib/copy-trading.ts:177-365 | when every copy found its key free and every read was complete, all four caps hold over the whole run |
| CopyLog.ExampleIsValid | lib/copy-trading.ts:151-170 | the permission of the two counterexamples passes validation |
| CopyLog.SkippedPositionsEscapeCaps | lib/db.ts:1922-1936 | whatever the cap, a run with genuine and complete reads that copies past it, each position having been recorded as skipped first |
| CopyLog.LongLogEscapesCaps | lib/db.ts:1938-1948 | whatever the limit, a run with genuine reads and every row stored that copies past the cap |
| Baskets.RefusedIff | lib/baskets.ts:280-290 | a deposit or redemption is refused iff, and with the error that, its check fails |
| Baskets.FirstDeposit | lib/baskets.ts:282 | the first deposit mints exactly its amount, and redeemed whole comes back whole |
| Baskets.MintBounds | lib/baskets.ts:280-285 | a deposit mints its exact part of the shares, short by less than one share |
| Baskets.PayBounds | lib/baskets.ts:287-290 | a redemption pays its exact part of the assets, short by less than one unit, and all of them to the last share |
| Baskets.StepKeepsSound | lib/baskets.ts:280-290 | each deposit or redemption keeps assets at or above shares, shares fully held, flows conserved, and the rate from falling |
| Baskets.RunIsSound | lib/baskets.ts:280-290 | so does every run from an empty vault |
| Baskets.RateNeverFalls | lib/baskets.ts:280-290 | while shares remain, assets per share never fall over any number of steps |
| Baskets.ClaimsNeverExceedAssets | lib/baskets.ts:287-290 | in every reachable vault all redeemable amounts together never exceed the assets, nor all payments what was paid in |
| Baskets.MintThenRedeem | lib/baskets.ts:280-290 | minting then redeeming at once never returns more than was deposited, and loses at most one unit and less than the price of one share |
| Baskets.RoundTripOfHolder | lib/baskets.ts:280-290 | a holder who redeems what a deposit minted leaves everybody's shares as they were, and the vault keeps what is not paid back, never less than nothing |
| Baskets.BystanderKeepsClaim | lib/baskets.ts:280-290 | no step reduces what another holder could redeem |
| Baskets.FeeOnGain | lib/baskets.ts:273-278 | a rate is refused iff it is out of bounds; else the fee is the rate on what lies above the mark, short by less than one unit, and the mark never falls |
| Baskets.MarkIsMaximum | lib/baskets.ts:273-278 | the final mark is the highest value seen |
| Baskets.GainsChargedOnce | lib/baskets.ts:273-278 | over any series fees are at most the rate on the whole rise of the mark, and short of it by less than one unit per new high |
| QueryText.ToPg | lib/db.ts:760-764 | the loop replaces the i-th question mark by $i and nothing else |
| QueryText.ListMarks | lib/db.ts:1017-1019 | a placeholder list has one placeholder per value |
| QueryText.ClauseMarks | lib/db.ts:1067-1116 | each clause has as many placeholders as it takes arguments |
| QueryText.RenderNumbered | lib/db.ts:760-764 | numbering a text numbers its placeholders from the left |
| QueryText.QueryNumbered | lib/db.ts:760-771 | for every combination of clauses the generated text holds no dollar sign, and numbering it writes its k-th placeholder as $k |
| QueryText.StatementReads | lib/db.ts:1062-1129 | the numbered text reads back as the clauses, each numbered from where the ones before it end, the ordering, and the limit as the last placeholder |
| QueryText.StatementBinds | lib/db.ts:1067-1129 | the placeholders that are read back are $1, $2, ... in order, one for each argument, the limit's last |
| FilterQuery.CompileFilters | lib/db.ts:1062-1129 | the conditions, bound to the arguments by placeholder number, hold of a row iff the filter matches it; order and limit are the filter's |
| FilterQuery.KeysOrder | lib/db.ts:1095-1115 | the keys in the text order rows as the filter asks, each later key only between rows that agree so far |
| FilterQuery.GetClaimsByFilter | lib/db.ts:1062-1129 | for every filter and table, what the database reads in the returned text and answers under the returned arguments is exactly filter, then sort, then take |
| FilterQuery.AnswerIgnoresTableOrder | lib/db.ts:1095-1115 | with distinct ids the answer does not depend on the order of the table |
| BasketTransfers.BasketStore.InsertBasket | lib/db.ts:2677-2686 | a new basket gets its owner, an existing id is refused without change |
| BasketTransfers.BasketStore.TransferBasket | lib/db.ts:2802-2847 | the whole new state of both tables; committed iff the sender owns the basket and neither nonce nor id is taken, otherwise nothing changes |
| BasketTransfers.PerformKeepsAccount | lib/db.ts:2802-2847 | every step keeps transfers chained and nonces distinct |
| BasketTransfers.OwnershipIsAChain | lib/db.ts:693-707 | in every reachable state a basket's transfers lead in commit order from its creator to its owner, and no nonce or id repeats |
| BasketTransfers.LogOnlyGrows | lib/db.ts:693-707 | earlier transfers stay a prefix of the log and creators are never rewritten |
| BasketTransfers.ConsumedNonceNeverMoves | lib/db.ts:2826-2838 | after a committed transfer its nonce moves nothing in any later state, even if ownership has come back |
| FeeProjection.FeeTables.InsertFeeAccrual | lib/db.ts:2012-2023 | the row is appended unless its event key is known; the insert fails only on a reused primary key |
| FeeProjection.FeeTables.InsertFeeClaim | lib/db.ts:2026-2036 | the same for claims, leaving accruals alone |
| FeeProjection.FeeTables.UpsertMarketSettlement | lib/db.ts:1983-2009 | the claim's row becomes the new one, or is appended; it fails without change only on another claim's transaction hash |
| FeeProjection.FeeTables.InsertPayment | lib/db.ts:1950-1980 | the row is appended unless its network and identifier are known |
| FeeProjection.UpsertsHoldLast | lib/db.ts:1983-2009 | while no transaction settles two claims, replaying settlements with corrections stores the last row of every claim, one each, and nothing else |
| FeeProjection.ReplayedSuffixChangesNothing | lib/db.ts:1983-2009 | replaying them again from the start or any later point leaves the identical table |
| FeeProjection.ConsistentRowsAreLast | lib/db.ts:1983-2009 | without corrections every settlement is the last of its claim, so all of them are stored |
| FeeProjection.ReplayStoresEachOnce | lib/db.ts:2011-2036 | replaying consistent events stores exactly those events, once each |
| FeeProjection.ReplayIsOrderFree | lib/db.ts:2011-2036 | any order and any repetition of the same events gives the same rows |
| FeeProjection.SummariesIgnoreRowOrder | lib/db.ts:2039-2089 | market revenue and agent earnings, settlements and x402 payments included, do not depend on the order of rows |
| FeeProjection.ProjectionIsIdempotent | lib/db.ts:1950-2089 | reordered or repeated replays of the same accruals, claims and payments, and of settlements that leave every claim the same last one, give the same two summaries |
| FeeProjection.RevenueOfMarkets | lib/db.ts:2039-2068 | over settled markets the summary reports, field by field, their number, all stakes, all platform fees, all owner fees, what was due less those, what is left over, and fees less claims |
| FeeProjection.EarningsAreOwn | lib/db.ts:2070-2089 | a wallet's owner fees, unclaimed amount and x402 amount are the sums over its own rows of each kind |
| FeeProjection.OwnerFeesAddUp | lib/db.ts:2070-2081 | the owner fees reported per wallet sum to all agent-owner accruals |
| FeeProjection.UnclaimedAddsUpIff | lib/db.ts:2053-2086 | per-recipient unclaimed amounts sum to the global one iff nobody is over-claimed while somebody is owed |
| FeeProjection.UnclaimedCanDisagree | lib/db.ts:2053-2086 | one accrual and one claim for which the per-recipient amounts sum to 5 and the global one is 2 |
| CouncilBonus.BonusLedger.ReserveCouncilBonus | lib/council-bonus-ledger.ts:17-44 | true iff the key was new, false iff the same reservation is stored, otherwise an error; an existing row never changes |
| CouncilBonus.BonusLedger.RecordCouncilBonusResult | lib/council-bonus-ledger.ts:46-60 | a reserved row becomes confirmed iff a non-empty hash is given, else review, with the hash as given and its terms kept; anything else fails without change |
| CouncilBonus.StepKeepsSound | agents/oracle/council-vote.ts:498-523 | each query, payment or crash of a worker keeps ownership of keys exclusive and payments matched to rows |
| CouncilBonus.PaidAtMostOnce | lib/council-bonus-ledger.ts:17-60 | with any number of workers crashing between any two queries no key is paid twice, every payment is the reserved one, and every confirmed row was paid |
| CouncilBonus.RowsKeepTheirTerms | lib/council-bonus-ledger.ts:17-60 | recipient, amount and settlement hash never change, and a row leaves `reserved` at most once |
| CouncilBonus.RowsShowTheirOutcome | lib/council-bonus-ledger.ts:46-60 | in every run a confirmed row holds a 64-digit transaction hash, and no other row holds any |
| CouncilBonus.RecordNeverFails | lib/council-bonus-ledger.ts:46-60 | a worker that comes to record always finds its row still reserved |
| CouncilBonus.UninterruptedWorkerPays | agents/oracle/council-vote.ts:500-517 | a worker left alone with a fresh key pays it and confirms the row with the hash |
| WorkerPool.MapWithConcurrency | lib/contract.ts:519-539 | in every interleaving indices are taken once each in order, calls in flight never exceed the workers, it terminates, and the result is the sequential map or a rejection iff some call rejects |
| WorkerPool.RunWorkers | lib/contract.ts:524-537 | the workers' loop fills every slot unless a call rejects |
| WorkerPool.TakeKeepsConsistent | lib/contract.ts:528-533 | taking the next index keeps slots, cursor and waiting workers consistent |
| WorkerPool.ResolveKeepsConsistent | lib/contract.ts:528-533 | so does a call that resolves into its own slot |
| WorkerPool.RejectKeepsConsistent | lib/contract.ts:528-533 | so does a call that rejects and stops its worker |
| WorkerPool.BatchGetClaims | lib/contract.ts:593-608 | slot i answers id i, or all are null when not configured; refused iff there are too many ids |
| ClaimFeed.PageShape | lib/contract.ts:1084-1096 | for every limit: cutting a page throws iff the limit is 0 with items left, or below 0 by at least their number; otherwise the page is a first part of the items and points on from its last iff there are more than the limit |
| ClaimFeed.FollowCursor | lib/contract.ts:1073-1096 | for every limit following the cursor terminates; from 1 up it returns every claim exactly once in descending id order in the least number of pages, and below 1 it throws unless there is nothing to page |
| ClaimFeed.PagesForIsCeiling | lib/contract.ts:1073-1096 | the number of pages is the least that holds all claims, and 1 for none |
| ClaimFeed.FeedAgreesWithIndexIff | lib/contract.ts:1073-1096 | for every limit, the feed and the index query under the same cursor agree iff no claim was ever made, or the limit is at least 1 and the cursor is not zero or no claim is readable, or the limit is 0 and no items follow the cursor |
| ClaimFeed.GetRivalryChain | lib/contract.ts:2081-2102 | on any finite parent map, cycles included, the walk terminates with a maximal duplicate-free parent walk |
| ClaimFeed.MaximalWalkIsUnique | lib/contract.ts:2081-2102 | there is only one such walk |
| ClaimFeed.DocumentedIff | lib/contract.ts:2077-2102 | the walk is the root followed by all its descendants iff the claim has neither parent nor child |
| ClaimFeed.WalkIsFamilyIff | lib/contract.ts:2077-2102 | the walk is the whole family of the claim it ends at iff every claim whose parent is on it is on it, cycles included |
| ClaimFeed.RivalWalks | lib/contract.ts:2077-2102 | two claims, one below the other, for which neither walk is what the comment says |
| Leaderboard.SidesAreOpposed | lib/leaderboard.ts:356-371 | a resolved claim is won by the creator iff its winner side is 1 and by the challengers iff it is 2, and then lost by the other side; refunds and open claims are so for both |
| Leaderboard.RecordsPerAddress | lib/leaderboard.ts:297-340 | how many positions a claim records for each address, each with its claim, times, stake, share and who won it spelled out; a creator on both sides gets a mark instead |
| Leaderboard.SideSharesWithinWhole | lib/leaderboard.ts:287-291 | the recorded shares of the challengers' side total at most 10000 basis points |
| Leaderboard.PositionsFromProjection | lib/leaderboard.ts:234-348 | one entry per address that appears, with all its positions by claim, in strict address order; every position is one that some claim gives that address |
| Leaderboard.WinnersWin | lib/leaderboard.ts:234-371 | with distinct claim ids, every entry holds for each claim one position if it is the creator's, one per stake if a challenger's; winner side 1 is the creator's win and the challengers' loss, 2 the reverse, anything else resolved or cancelled a refund, and the rest pending |
| Leaderboard.Fold | lib/leaderboard.ts:297-340 | the fold's map holds each address's positions and self-dealing count |
| Leaderboard.RecordClaim | lib/leaderboard.ts:297-340 | one claim adds exactly its records to each address |
| Leaderboard.SortStable | lib/leaderboard.ts:342-346 | sorting positions keeps their order within a claim |
| Leaderboard.EntryIgnoresOrder | lib/leaderboard.ts:217-224 | with distinct claim ids an address's entry is the same from any order of claims |
| Leaderboard.RebuildIsIdentical | lib/leaderboard.ts:217-348 | rebuilding from the same claims in any order gives the identical list |
| Leaderboard.ComparatorIsStrict | lib/leaderboard.ts:127-152 | under every metric the comparator is a strict order, total on different addresses |
| Leaderboard.AheadIffBetter | lib/leaderboard.ts:127-152 | under every metric the larger one comes first, then the larger conviction, the more results, the smaller address |
| Leaderboard.BoardListsEveryone | lib/leaderboard.ts:154-169 | everybody is listed exactly once, ranked iff they have enough decisive results, the larger metric first |
| Leaderboard.EntryScores | lib/leaderboard.ts:97-125 | an entry belongs to its actor and scores its positions of the category asked for, in any letter case, in their order, or all of them |
| Leaderboard.BoardIgnoresOrder | lib/leaderboard.ts:127-169 | the same actors in any order give the identical board |
| Leaderboard.RebuiltBoardIsIdentical | lib/leaderboard.ts:217-348 | any order of claims, then any order of entries, gives the identical board |
| Messages.DeepMerge | i18n/request.ts:5-26 | the recursive loop computes the merge, arrays and nulls included |
| Messages.LocaleLeavesSurvive | i18n/request.ts:17-25 | whatever the baseline, a merge keeps every leaf of the locale |
| Messages.BaselineLeafAfterMerge | i18n/request.ts:17-25 | a baseline leaf is lost iff the locale shadows it; otherwise the locale's leaf replaces it or it stays |
| Messages.MergeFillsFromBaseline | i18n/request.ts:5-26 | without shadowing the merged leaf at every path is the locale's where present and the baseline's elsewhere |
| Messages.CompatibleTreesDoNotShadow | i18n/request.ts:5-26 | trees in which no path is a leaf in one and an object in the other do not shadow |
| Messages.MergeWithItself | i18n/request.ts:5-26 | merging a tree with itself is the identity |
| Messages.MergeTwice | i18n/request.ts:5-26 | merging the same locale again changes nothing, whatever the trees |
| LocaleCompleteness.FlattenKeys | lib/locale-completeness.ts:86-117 | one flat key for each leaf of the tree and no other, in code-unit order |
| LocaleCompleteness.GetLeafValue | lib/locale-completeness.ts:125-146 | the walk ends at the value of the split path, or undefined |
| LocaleCompleteness.KeyFindsLeaf | lib/locale-completeness.ts:96-146 | in a tree with plain keys a flat key leads back to the leaf it was made from |
| LocaleCompleteness.CheckLocale | lib/locale-completeness.ts:157-210 | which keys are missing, extra, untranslated and funded, each iff its condition, in strict order |
| LocaleCompleteness.FallbackFillsBaseline | lib/locale-completeness.ts:157-210 | after a merge without shadowing nothing is missing and the extra keys are those of the locale |
| LocaleCompleteness.NothingMissingIff | lib/locale-completeness.ts:157-210 | with plain keys nothing is missing after the merge iff the locale shadows no leaf |
| LocaleCompleteness.ShadowedKeyStaysMissing | lib/locale-completeness.ts:157-210 | a locale whose flat value shadows a baseline leaf still misses a key after the merge |
| LocaleCompleteness.FilledKeysAreUntranslated | lib/locale-completeness.ts:184-198 | after the merge the untranslated keys are those of the locale and the strings it lacked |

## Left out

- Hashing, signing, Soroban, Horizon and RPC calls: SHA-256 and the claim reader are parameters, and time is an argument.
- Postgres itself: isolation, pooling and index choice. `ClaimsSql` reads only the statements that `getClaimsByFilter` can send, and NULLs, collations and column widths are not modelled.
- PullSettlement.Escrow.ChallengeClaim: authorisation, the challenge lock before the deadline, invite keys and the transfer into escrow are not modelled; each only refuses more, so what holds of every run holds with them. Arithmetic that leaves 128 bits is one error, whether the source returns it or traps.
- PullSettlement.Escrow.ResolveClaim: the oracle's authorisation, the deadline, bounds on confidence and summary, verdict versions and events are not modelled; `record` stands for what a verdict carries besides the winner.
- PullSettlement.Escrow.ClaimChallengerPayout: the token transfer and the fee balances are in `ContractLedger`; the challenger's authorisation and events are not modelled.
- ContractLedger.RunIsSolvent: the token moves exact amounts or refuses, and reports what it moved; timelocks of the policy, the pause flag, which gates none of these calls, and archival of storage entries are not modelled.
- Fees.ValidateFeePolicy: rates are real numbers; a rate that is not finite makes `BigInt` throw in the source and is not modelled.
- EvidenceCommitment.TallyRoundTrip: counts from 10^21 on, which JavaScript renders with an exponent, are not modelled.
- CopyTrading.AllowedIff: display amounts are exact multiples of 10^-7, with the source's refusal of 1 to 9 atomic units, whose rendering has an exponent; the rounding of floating-point products and the run-time type tests of untyped inputs are not modelled, and the threshold fields of a permission are finite.
- CopyTrading.RunStaysWithinCaps: each copy is appended to the log and the log is read whole; what the stored log keeps of that is in `CopyLog`. The clock is a non-negative integer, and realised loss comes with each context, as the source takes it from its callers.
- FeeProjection.RevenueOfMarkets: the rows are those of fully settled markets; how the settlement indexer fills them from events while pulls are still to come is not modelled.
- `toLowerCase` folds ASCII letters only; `localeCompare` is any strict total order, as it is on the ASCII addresses it is used on.
- WorkerPool.MapWithConcurrency: the promise rejects as soon as one call does, while the model reports the rejection when all workers are at rest; which error it carries is not modelled.
- Leaderboard.BoardIgnoresOrder: `computeStreak` and `computeConviction` are arbitrary functions of the positions, payouts supplied from outside are absent, and the categories of an entry are a set.
- Messages.DeepMerge: objects are maps, so the order of their keys, and names inherited from `Object.prototype`, are not modelled.
- Claim columns that no filter reads are one payload; row normalisers add nothing to prove.
- Floating-point display amounts: `decodeClaim`'s potential payouts, `buildNavSeries` and `dailyReturnPoints`.
- `conservationHolds`: true by construction, since dust is the residue; what dust is worth is proved instead.
- `checkAll`, `splitByActorType`, `streakBadge`, message texts and permission feedback: single branches over what is modelled.
- `updateProposalReviewStatus`: it checks no earlier state, so nothing about its runs can be kept.
