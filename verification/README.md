# Nyx: batch auction, vault and tree mirrors

Nyx is a dark pool. Users put tokens into a **vault** and hold them as notes, commitments in an
append-only Merkle tree. A **matching engine** collects orders backed by locked notes in slots, and
`run_batch` clears them at one price. For every match the vault's `tee_forced_settle` consumes the two
input notes, appends the output notes and re-locks the change of an order that goes on. TypeScript code
**mirrors** the vault's tree off chain. This project models the three parts together and proves what
they promise, alone and across the program boundary.

## What is proved

* **Settleability.** A run interleaves submissions, cancellations, batches, locks, settlements, releases,
  deposits and withdrawals; notes may be locked before or after matching, and settlement may lag behind.
  Starting from fresh programs the vault never refuses a match whose submitted notes are locked: each
  re-lock is exactly the lock the next match needs (`SettlementRuns.NoMatchIsRefused`). Orders of every
  type take part. The limits are exact: a batch over a covered and pledged book settles if and only if no
  immediate-or-cancel order is filled twice in it (`SettlementBatches.BatchSettlesExactly`); a lock can be
  released without harm if and only if no unsettled match consumes its note, which holds within the
  settlement buffer (`SettlementRuns.ReleaseKeepsReadyExactly`); a withdrawal is harmless if and only if
  its nullifier belongs to no note in use (`Withdrawals.WithdrawalKeepsReadyExactly`).
* **The auction.** The clearing price maximises the matched volume over every 64-bit price and is the
  least price that does. Without fill-or-kill orders, fill floors and saturating sums the greedy
  two-pointer pass reaches that optimum, priority is by price, then time, and what is left is uncrossed,
  so a second batch is idle. For every order type, what becomes of a slot is read off the batch's fills
  (`FillLaws.BatchOutcome`).
* **Terms and time.** After any run, what rests in a slot is the last order accepted into it, with the
  terms and the time of its submission (`MarketLog.RestingAsSubmitted`), so priority is by submission
  however the accounts are listed (`MarketLog.EarlierSubmissionFirst`). A pair trades if and only if it
  crosses, nothing is killed and both fill floors are met (`FillRules.StepTradesExactly`), and every match
  is within what both orders were submitted with (`MarketLog.MatchesWithinSubmissions`).
* **The batch as published.** The breaker trips exactly outside the band around the TWAP and then nothing is
  matched, recorded or changed but expiries; summary and fee notes are the batch's own; a batch over covered
  orders succeeds if and only if it is admitted (`BatchRules`).
* **Locks and spends.** After any run locks, consumed notes, spent nullifiers and balances are what the log
  of accepted instructions says, and acceptance of a settlement or withdrawal is an if-and-only-if on that
  log. A lock is consumed only by a signed match of its own order (`VaultLog.LocksSettleTheirOrder`); no
  withdrawal that names a note succeeds while it is locked, or ever after it is consumed
  (`VaultLog.LockedNoteStays`, `VaultLog.ConsumedNoteIsGone`).
* **Collateral.** A note that covers its order with the floored fee keeps doing so through every fill, no
  batch over such orders aborts on arithmetic, and over an order's life its note equals trade legs, fees
  and final change. Coverage is exactly being able to pay every fill (`Collateral.FundedExactly`).
* **Results.** The ring holds the last 16 matches over any run; a batch overwrites its own matches if and
  only if it makes more than 16, and 24 accounts can make 23 (`RingLaws.SevenMatchesLost`).
* **Solvency** over any interleaving of the vault's instructions, with the exact condition, and an honest
  run that leaves it (`InsolvencyWitness.InsolvencyIsReached`).
* **One tree.** The on-chain incremental tree, the shadow tree's root, its witnesses and the witness
  read off the right path all compute the same dense tree; the log replay rebuilds its leaves from
  instruction bytes; the ring of roots accepts exactly the current root and the last 32.
* **Inclusion proofs** (completeness, a collision extracted from any forgery, and what acceptance means for
  paths of any length), **KMAC framing**
  (injective; both implementations are the same functions) and the **number codecs**.

## How the model is laid out

Every handler is a function from accounts to `Ok(new accounts)` or `Err(error)`, with its errors in the
order the code checks them. The programs are also written out as they run, as classes and loops over
arrays (`Matching`, `MarketProgram`, `VaultTree`, `VaultProgram`, `MerkleMirrors`, `Replay`), and each
method is proved equal to its function, including that a failed instruction changes nothing. The
properties are lemmas about the functions and runs of them.

| file | content |
|---|---|
| `Prelude`, `Bytes`, `Crypto`, `VaultErrors` | machine integers, byte strings, commitments, error codes |
| `Orders`, `Auction`, `Matching`, `Market` | slots, sorting, clearing price, matching pass, instructions |
| `MatchingLaws`, `Collateral`, `MarketLaws`, `BatchLaws`, `FillLaws`, `BatchOutcomes`, `RingLaws` | laws of one step, one pass, one batch, any run |
| `FillRules`, `BatchRules`, `MarketLog` | when a pair trades and on whose terms, what a batch publishes, runs read off their submissions |
| `BatchWitnesses`, `SettlementLimits`, `InsolvencyWitness`, `VaultSamples` | concrete books and runs on which a property fails |
| `MarketProgram`, `VaultProgram` | the accounts as classes with mutable fields |
| `MerkleTree`, `VaultTree`, `MerkleMirrors`, `InclusionTree` | the dense tree and everything computing it |
| `Vault`, `Solvency`, `VaultLog` | the vault's instructions, their solvency, and runs read off their log |
| `Settleability`, `ConsumedNotes`, `SettlementBatches`, `SettlementFrames`, `SettlementRuns`, `Withdrawals` | both programs together |
| `Replay`, `Kmac`, `Codecs`, `FieldBytes` | bytes: the log replay, KMAC framing, number codecs, the number model of 32-byte strings |

## Conventions and hypotheses

* A 32-byte value is the big-endian number it encodes (`Digest`), so "all zero" is 0 and "not a field
  element" is a comparison with the BN254 scalar modulus. Integer widths are subset types; checked,
  saturating and truncating steps of the code are written out.
* Hash functions are parameters (`Hashes`); nothing is assumed of them globally. Lemmas that need it
  assume that the change notes that are minted in the run at hand (`Tee.mints`) differ for different
  matches or roles and are not zero (`ChangeNotesSeparate`), and that different notes have different
  nullifiers (`NullifiersInjective`).
* Accounts are indices into the array of slots. The code does not check that the accounts passed to
  `run_batch` are distinct; theorems that need it say `NoDuplicates`.
* The tree depth, 20 in the programs, is a parameter (at most 63, so that `1 << depth` fits a u64).
* A `MatchResult` does not carry the order ids of its two sides. The TEE adds them when it builds the
  settlement payload; here a `Fill` pairs the match with them.
* Clock, TWAP, signature check and the verdict of the Groth16 verifier are inputs.
* The vault does not check that a consumed note is in the tree, what it is worth, or that a nullifier
  belongs to it, and `withdraw` does not bind its `note_commitment` to the proof. Solvency therefore
  assumes honest payloads and proofs (`Honest`).

## Where the code is followed against its comments or expectations

* An immediate-or-cancel order that crosses nothing stays Pending, although run_batch.rs:18 says it is
  cancelled, and a fill-or-kill order the loop never reaches stays Pending
  (`BatchWitnesses.LoneBidRests`). When each is cancelled is exact: `FillLaws.BatchOutcome`.
* Fill-or-kill is judged against one counterparty: it is killed exactly when, under its cursor, it faces a
  smaller crossing order (`FillLaws.KilledExactlyWhen`).
* The collateral of an immediate-or-cancel order is not rotated (the re-lock needs a limit order), so its
  second fill in a batch is refused (`ConsumedNotes.IocFilledTwiceIsRefused`,
  `SettlementLimits.IocRefusalIsReached`).
* `submit_order` reserves the notional but no fee. An order it accepts can abort the batch it trades in,
  with all the other matches (`BatchWitnesses.AcceptedOrderAbortsBatch`). No-abort claims assume the fee is
  covered (`SlotFunded`); at fee rate zero its own check gives this (`BatchLaws.SubmitFundsAtZeroRate`).
* `withdraw` looks up its lock and consumed records under a commitment its proof does not speak of, so a
  locked note can be withdrawn under another one, and the match that needs it is then refused
  (`Withdrawals.WithdrawnWhileLocked`, `Withdrawals.WithdrawalOfLockedNoteIsReached`).
* The ring of roots starts as zeros, so the zero root is accepted until 32 roots have been pushed.
* A fee note may be flushed with a settlement before the fees it stands for have all been retained;
  the vault is solvent exactly while it was not (`Solvency.SolventExactlyWhen`).
* `negateG1` is documented as `-y mod P`; it is that exactly for 1 <= y <= P
  (`Codecs.NegatesInFieldIff`).
* `verifyInclusionPath` does not check the length of a path: inner nodes and the root verify too
  (`InclusionTree.InnerNodeVerifies`), and nothing else does without a collision
  (`InclusionTree.AcceptedPathMeans`, `InclusionTree.LongPathMeans`).

## Model

| member | source | states |
|---|---|---|
| SettlementRuns.NoMatchIsRefused | programs/vault/src/instructions/tee_forced_settle.rs:176-382 | over any admissible run of submissions, cancellations, batches, locks, settlements, releases, deposits and withdrawals of both programs no match is refused, and the queue of unsettled matches stays settleable |
| SettlementRuns.SettleKeepsReady | programs/vault/src/instructions/tee_forced_settle.rs:201-361 | the oldest unsettled match is accepted once the notes it was submitted with are locked; a rotated note needs no lock_note, its re-lock is the one |
| SettlementRuns.SubmitKeepsReady | programs/matching_engine/src/instructions/submit_order.rs:100-205 | an order joins without its note being locked; the TEE owes the lock until it takes it |
| SettlementRuns.LockKeepsReady | programs/vault/src/instructions/lock_note.rs:32-65 | locking an owed note as its order says, or a note nobody uses, keeps every unsettled match acceptable |
| SettlementRuns.BatchKeepsReadyExactly | programs/matching_engine/src/instructions/run_batch.rs:179-396 | with earlier matches still unsettled, a further batch leaves a queue that settles if and only if it fills no immediate-or-cancel order twice |
| SettlementRuns.ReleaseKeepsReadyExactly | programs/vault/src/instructions/release_lock.rs:21-31 | a release keeps the queue acceptable if and only if no unsettled match consumes its note |
| SettlementRuns.ReleasedNotConsumed | programs/matching_engine/src/instructions/run_batch.rs:240-256 | within SETTLEMENT_BUFFER_SLOTS of their batch, no lock that a match consumes can be released |
| SettlementRuns.FreshWorldReady | programs/vault/src/instructions/initialize.rs:25-47 | freshly initialised programs satisfy the run invariant, whatever fee notes the TEE attaches |
| SettlementBatches.BatchSettles | programs/matching_engine/src/instructions/run_batch.rs:179-396 | a batch over a covered and pledged book with orders of any type, none of them immediate-or-cancel and filled twice: all its matches settle from locks that outlast the buffer, and every live slot ends covered and pledged with a note of its own |
| SettlementBatches.BatchSettlesExactly | programs/matching_engine/src/instructions/run_batch.rs:533-551 | its matches settle if and only if no immediate-or-cancel slot occurs in two of them |
| SettlementBatches.DoubleFillIsRefused | programs/matching_engine/src/instructions/run_batch.rs:535-540 | a batch that fills an immediate-or-cancel order twice makes a log no vault settles |
| Withdrawals.WithdrawnWhileLocked | programs/vault/src/instructions/withdraw.rs:88-152 | a withdrawal under another commitment succeeds while the note is locked; the lock stays and settlements of the note under that nullifier are refused |
| Withdrawals.WithdrawalOfLockedNoteIsReached | programs/vault/src/instructions/withdraw.rs:88-152 | a deposit, a lock and a withdrawal after which that is the case |
| Withdrawals.PledgesSurviveExactly | programs/vault/src/instructions/withdraw.rs:141-152 | a successful withdrawal keeps every live order's note pledged if and only if its nullifier is none of theirs |
| Withdrawals.WithdrawalKeepsReadyExactly | programs/vault/src/instructions/withdraw.rs:88-182 | over both programs: it keeps the run invariant if and only if its nullifier belongs to no note a live order uses or an unsettled match consumes |
| SettlementFrames.SettleAllMirrors | programs/vault/src/instructions/tee_forced_settle.rs:176-382 | a log one vault settles is settled by every vault that differs only in leaves, balances, unrelated locks and unrelated nullifiers, if it has room |
| SettlementFrames.ConsumedLasts | programs/matching_engine/src/instructions/run_batch.rs:240-256 | the lock of a note an unsettled match consumes expires later than the buffer after its batch |
| Settleability.CrossReady | programs/matching_engine/src/instructions/run_batch.rs:533-616 | one trade: the vault accepts the match and the orders that go on hold exactly the change note it re-locked |
| Settleability.RunSettles | programs/matching_engine/src/instructions/run_batch.rs:418-630 | a whole matching pass over orders of any type, none immediate-or-cancel and filled twice, settles match by match and ends ready |
| Settleability.SettlesOk | programs/vault/src/instructions/tee_forced_settle.rs:201-361 | a settleable match is accepted; exact new locks, consumed notes and nullifiers, at most five new leaves |
| Settleability.RelockPledges | programs/vault/src/instructions/tee_forced_settle.rs:340-361 | the re-lock locks the change note for the continuing order at the change amount and the order's expiry |
| Settleability.PledgeKept | programs/vault/src/instructions/tee_forced_settle.rs:82-174 | a settlement leaves everyone else's locked collateral as it was |
| Settleability.FreshKept | programs/matching_engine/src/state/change_note.rs:30-43 | after a settlement no change note of a later match has been locked, consumed or nullified |
| ConsumedNotes.ConsumedOnce | programs/vault/src/instructions/tee_forced_settle.rs:82-174 | in a log that settles no note is named by two matches |
| ConsumedNotes.IocKeepsNote | programs/matching_engine/src/instructions/run_batch.rs:533-551 | all fills of an immediate-or-cancel order in a pass name its first note |
| ConsumedNotes.IocFilledTwiceIsRefused | programs/matching_engine/src/instructions/run_batch.rs:535-540 | an immediate-or-cancel order filled twice makes the pass's log unsettleable in every vault |
| SettlementLimits.IocRefusalIsReached | programs/matching_engine/src/instructions/run_batch.rs:418-630 | a concrete book on which that happens |
| SettlementLimits.SeparationCanBeMet | programs/matching_engine/src/state/change_note.rs:30-43 | the separation hypothesis on minted change notes holds of some hashes, whichever notes are minted |
| Auction.ClearingPriceOptimal | programs/matching_engine/src/instructions/run_batch.rs:145-177 | the price maximises min(demand, supply) over every u64 price, is the least maximiser, and is absent exactly when no price matches anything |
| Auction.CandidateDominates | programs/matching_engine/src/instructions/run_batch.rs:151-158 | every price with volume is matched or beaten by a candidate limit above it and one below it |
| Auction.ComputeClearingPrice | programs/matching_engine/src/instructions/run_batch.rs:145-177 | the scan over sorted, deduplicated limits computes the price function |
| Auction.SatVolumeClamps | programs/matching_engine/src/instructions/run_batch.rs:160-171 | the saturating sum is the true volume capped at u64::MAX |
| Orders.SortSorts | programs/matching_engine/src/instructions/run_batch.rs:281-290 | both books end in price order, then arrival order |
| Orders.SortStable | programs/matching_engine/src/instructions/run_batch.rs:281-290 | orders of equal limit and arrival keep the order of the accounts |
| Orders.SortMembers | programs/matching_engine/src/instructions/run_batch.rs:281-290 | sorting keeps exactly the orders |
| Matching.GenerateMatches | programs/matching_engine/src/instructions/run_batch.rs:418-630 | the loop over the two arrays, the ring and the accumulators is the pass `Run`, with the number of matches it returns |
| Matching.SkipOrKill | programs/matching_engine/src/instructions/run_batch.rs:433-469 | the branches that do not trade: price, fill-or-kill, minimum fill |
| FillRules.StepTradesExactly | programs/matching_engine/src/instructions/run_batch.rs:433-470 | an iteration adds a match if and only if both orders cross the price, neither is a fill-or-kill order larger than the other, and the smaller amount meets both fill floors; only such a pair can abort it |
| FillRules.FloorPassesOver | programs/matching_engine/src/instructions/run_batch.rs:461-469 | a crossing pair below a floor with nothing to kill: the smaller order is passed over, the bid on a tie, and the other stays under its cursor |
| FillRules.RunHonours | programs/matching_engine/src/instructions/run_batch.rs:418-630 | over a whole pass, every match is for at least the fill floor and at most the amount of an order of each book, within its limit, and names that order and its owner |
| FillRules.BatchHonours | programs/matching_engine/src/instructions/run_batch.rs:228-396 | every match of a batch, on both sides and for every order type, comes from selected resting slots that outlast the buffer, at one published price within their limits, for a quantity between fill floor and amount |
| FillRules.EligibleExactly | programs/matching_engine/src/instructions/run_batch.rs:240-256 | a slot takes part if and only if its order rests, expires later than 20 slots from now and is not below the market's minimum size |
| FillRules.RelocksAndFees | programs/matching_engine/src/instructions/run_batch.rs:471-551 | a re-lock is asked for exactly for a limit order with quantity and change left, and the fee is the rate's floored share of the trade leg |
| FillRules.ChangeNotePreimage | programs/matching_engine/src/instructions/run_batch.rs:504-531 | what a change note commits to, when there is none, and when minting it fails |
| Matching.CrossOrders | programs/matching_engine/src/instructions/run_batch.rs:471-626 | the branch that trades records the match, rotates collateral and moves the cursors as one `Step` |
| Matching.ResultRing.Record | programs/matching_engine/src/instructions/run_batch.rs:563-604 | writes ring entry cursor mod 16 and advances cursor, id and fee accumulators |
| Matching.StepShape | programs/matching_engine/src/instructions/run_batch.rs:433-626 | every iteration that does not fail moves a cursor, keeps the books' lengths, and adds a match exactly when it trades |
| MatchingLaws.TradeFacts | programs/matching_engine/src/instructions/run_batch.rs:471-551 | each side's note value is trade leg, fee and change; change note and re-lock fields are the order's |
| MatchingLaws.RunEvolves | programs/matching_engine/src/instructions/run_batch.rs:418-630 | a pass keeps an order's identity and limit, only lowers its amount, and fills a fill-or-kill order wholly or not at all |
| FillLaws.BatchOutcome | programs/matching_engine/src/instructions/run_batch.rs:635-696 | for every order type, read off the batch's fills: Matched if and only if they add up to its amount; Cancelled if and only if it is immediate-or-cancel and filled in part, or fill-or-kill and killed; else unchanged, or a limit order reduced by them |
| FillLaws.KilledExactlyWhen | programs/matching_engine/src/instructions/run_batch.rs:448-459 | a fill-or-kill order is killed if and only if under its cursor it faces a smaller order while both cross the price |
| FillLaws.RunMeasured | programs/matching_engine/src/instructions/run_batch.rs:433-626 | for every order type, what is left plus what was filled is the start; killed orders were filled nothing; an immediate-or-cancel order keeps its note |
| BatchWitnesses.LoneBidRests | programs/matching_engine/src/instructions/run_batch.rs:677-693 | a batch on which an unmatched immediate-or-cancel, fill-or-kill or limit order stays Pending |
| MatchingLaws.NeverExceedsVolume | programs/matching_engine/src/instructions/run_batch.rs:433-627 | with any order types the pass matches at most min(demand, supply) |
| MatchingLaws.GreedyReachesVolume | programs/matching_engine/src/instructions/run_batch.rs:433-627 | without fill-or-kill and fill floors it matches exactly min(demand, supply) |
| MatchingLaws.PriceTimePriority | programs/matching_engine/src/instructions/run_batch.rs:281-290 | without fill-or-kill orders and fill floors: if an order traded, every order ahead of it ends the pass wholly filled |
| MatchingLaws.ResidualUncrossed | programs/matching_engine/src/instructions/run_batch.rs:433-627 | without fill-or-kill orders, fill floors and saturating sums: after a pass at the clearing price every bid left is strictly below every ask left |
| BatchLaws.BatchMatchesOptimum | programs/matching_engine/src/instructions/run_batch.rs:310-330 | without fill-or-kill orders, fill floors and saturating sums: a batch whose breaker does not trip matches at least what any uniform price could have matched |
| BatchLaws.ClearUncrosses | programs/matching_engine/src/instructions/run_batch.rs:310-330 | under the same conditions and without a breaker trip, the highest bid left is below the lowest ask left, with or without a clearing price |
| BatchLaws.SecondBatchIdle | programs/matching_engine/src/instructions/run_batch.rs:179-396 | under the same conditions a second batch over the same slots, with the same size floor, matches nothing |
| BatchOutcomes.BatchPriority | programs/matching_engine/src/instructions/run_batch.rs:281-337 | on the slots, without fill-or-kill orders and fill floors: if an order traded, every eligible order of its side ahead of it ends Matched in full |
| BatchOutcomes.BatchFees | programs/matching_engine/src/instructions/run_batch.rs:292-373 | each fee account holds its side's fees of this batch, and value consumed in a mint is value minted plus those fees |
| Collateral.FundedFill | programs/matching_engine/src/instructions/run_batch.rs:472-497 | a note covering an order with its floored fee pays any fill at a crossing price, and the rest covers the residual |
| Collateral.FundedExactly | programs/matching_engine/src/instructions/run_batch.rs:472-497 | a note covers its order if and only if it can pay every fill of it with the floored fee at every price the order crosses |
| BatchWitnesses.AcceptedOrderAbortsBatch | programs/matching_engine/src/instructions/submit_order.rs:125-135 | an order submit_order accepts makes a batch fail that matched another pair without it |
| Collateral.FundedTrade | programs/matching_engine/src/instructions/run_batch.rs:471-531 | two covered orders that cross never hit an overflow or conservation error |
| Collateral.FundedRun | programs/matching_engine/src/instructions/run_batch.rs:418-630 | a pass over covered orders aborts only if an owner is not a field element, and ends with covered residuals |
| Collateral.RunBacked | programs/matching_engine/src/instructions/run_batch.rs:533-616 | each fill of a limit or fill-or-kill order consumes exactly the change note the previous one left, at its value |
| Collateral.ChainConserves | programs/matching_engine/src/instructions/run_batch.rs:481-497 | along such a chain the first note equals all trade legs, fees and the last change |
| Collateral.RunFees | programs/matching_engine/src/instructions/run_batch.rs:563-604 | the accumulators follow the fees of the fills through a pass |
| BatchLaws.SubmitFundsAtZeroRate | programs/matching_engine/src/instructions/submit_order.rs:125-135 | at fee rate zero the collateral check of submit_order is the coverage condition |
| BatchLaws.FundedBatchNeverOverflows | programs/matching_engine/src/instructions/run_batch.rs:472-497 | a batch over covered slots never fails with NotionalOverflow, FeeOverflow or ConservationViolation |
| BatchLaws.BatchKeepsFunded | programs/matching_engine/src/instructions/run_batch.rs:635-696 | what a batch leaves resting is still covered |
| BatchLaws.FundedForever | programs/matching_engine/src/instructions/run_batch.rs:179-396 | coverage survives any run of submissions, cancellations and batches at one fee rate |
| BatchLaws.OrderLifeConserves | programs/matching_engine/src/instructions/run_batch.rs:481-616 | over any number of batches the submitted note equals trade legs, fees and what the slot holds or the final change, and fills add up to the order's size |
| BatchLaws.BatchRing | programs/matching_engine/src/instructions/run_batch.rs:563-604 | one batch extends the ring invariant; it makes at most bids + asks - 1 matches, so with at most 17 orders none is overwritten within it |
| RingLaws.RingOverRun | programs/matching_engine/src/instructions/run_batch.rs:563-604 | from an empty account, over any run: both counters count the matches, ids are positions in the log, and match m of the last 16 sits at ring index m mod 16 |
| RingLaws.BatchKeepsExactlyWhen | programs/matching_engine/src/instructions/run_batch.rs:563-604 | match k of a batch is still in the ring after it if and only if at most 15 matches of the batch follow it |
| RingLaws.SevenMatchesLost | programs/matching_engine/src/instructions/run_batch.rs:563-604 | a batch of the largest admitted size, 24 accounts, that makes 23 matches and overwrites the first seven |
| MarketLaws.SlotMachineInvariant | programs/matching_engine/src/instructions/run_batch.rs:635-696 | in every reachable state a Pending slot has amount and order id, Pending and Matched slots have filled + amount = total, and a fill-or-kill slot is filled wholly or not at all |
| MarketLaws.SubmitKeepsSlot | programs/matching_engine/src/instructions/submit_order.rs:105-195 | submission into a reusable slot establishes the slot invariant |
| MarketLaws.CancelKeepsSlot | programs/matching_engine/src/instructions/cancel_order.rs:37-82 | cancellation keeps the slot invariant |
| MarketLaws.BatchKeepsSlots | programs/matching_engine/src/instructions/run_batch.rs:228-396 | a batch keeps the slot invariant of every slot |
| MarketLaws.BatchTouches | programs/matching_engine/src/instructions/run_batch.rs:635-696 | a slot with a working copy is the snapshot's source and ends as that copy says |
| MarketLaws.BatchLeaves | programs/matching_engine/src/instructions/run_batch.rs:228-278 | every other slot is expired, if selected and too close to expiry, or untouched |
| MarketProgram.MarketAccounts.constructor | programs/matching_engine/src/instructions/init_market.rs:99-117 | the batch account starts with both counters, the summary, the fee slots and every ring entry empty |
| MarketProgram.MarketAccounts.Submit | programs/matching_engine/src/instructions/submit_order.rs:100-205 | the field-by-field handler: every validation error in order, else exactly one slot rewritten |
| MarketProgram.MarketAccounts.Cancel | programs/matching_engine/src/instructions/cancel_order.rs:37-82 | the field-by-field handler: errors in order, else one slot cancelled and wiped |
| MarketLog.SubmitsExactly | programs/matching_engine/src/instructions/submit_order.rs:100-205 | a submission is accepted if and only if its arguments, signer and slot meet the listed demands; the slot then carries its side, type, limit, amount, fill floor, expiry, note and owner, and the current slot as arrival |
| MarketLog.SubmitRefusals | programs/matching_engine/src/instructions/submit_order.rs:104-165 | each error names the demand that is not met |
| MarketLog.CancelsExactly | programs/matching_engine/src/instructions/cancel_order.rs:37-82 | a cancellation succeeds if and only if the signer owns the resting order; it wipes the intent and keeps the identity |
| MarketLog.CancelRefusals | programs/matching_engine/src/instructions/cancel_order.rs:44-62 | each error names its reason |
| MarketLog.BatchKeepsTerms | programs/matching_engine/src/instructions/run_batch.rs:632-696 | a batch changes only selected resting slots; what still rests has its terms and arrival unchanged and some of it filled |
| MarketLog.OnlyOwnerOrBatch | programs/matching_engine/src/instructions/cancel_order.rs:37-82 | a resting order is changed only by a batch it is selected for or by its owner's cancellation, an idle slot only by its owner's submission |
| MarketLog.RestingAsSubmitted | programs/matching_engine/src/instructions/submit_order.rs:176-198 | after any run, what rests in a slot is the last order accepted into it, with the terms and the arrival of its submission |
| MarketLog.EarlierSubmissionFirst | programs/matching_engine/src/instructions/run_batch.rs:281-290 | after any run, without fill-or-kill orders and fill floors: of two orders of one side, if the one submitted later at the same limit, or at a worse limit, changes in a batch, the other ends matched in full, however the accounts are listed |
| MarketLog.MatchesWithinSubmissions | programs/matching_engine/src/instructions/run_batch.rs:433-498 | after any run, every match is within the side, limit, fill floor, size, expiry and owner that both its orders were submitted with |
| MarketProgram.MarketAccounts.LoadOrders | programs/matching_engine/src/instructions/run_batch.rs:228-278 | pass 1 drains expiring slots in place and lists the rest by side |
| MarketProgram.MarketAccounts.WriteSide | programs/matching_engine/src/instructions/run_batch.rs:635-696 | the write-back loop sets exactly the slots of the working copies |
| MarketProgram.MarketAccounts.ClearBooks | programs/matching_engine/src/instructions/run_batch.rs:292-330 | accumulator reset, price, circuit breaker and matching in one result |
| MarketProgram.MarketAccounts.FlushFeeNotes | programs/matching_engine/src/instructions/run_batch.rs:339-373 | one fee note per mint with fees, unless the breaker tripped or no owner is set |
| MarketProgram.MarketAccounts.RunBatchTransaction | programs/matching_engine/src/instructions/run_batch.rs:179-396 | the whole instruction: new slots and batch account as specified, or an error and no change |
| BatchRules.TripsOutsideBand | programs/matching_engine/src/instructions/run_batch.rs:306-330 | the breaker trips if and only if the books clear at a price more than the configured basis points above or below the TWAP; the published price is the books' own if it did not, else zero |
| BatchRules.TrippedRecordsNothing | programs/matching_engine/src/instructions/run_batch.rs:292-312 | a tripped batch makes no match, publishes price zero, no fees and no fee notes, and leaves ring, cursor and next id alone |
| BatchRules.TrippedOnlyDrains | programs/matching_engine/src/instructions/run_batch.rs:228-280 | and changes a slot only by expiring it |
| BatchRules.DrainsExactly | programs/matching_engine/src/instructions/run_batch.rs:240-270 | in any batch a slot that takes no part is expired, if selected and within 20 slots of its expiry, or left alone |
| BatchRules.SummaryOfBatch | programs/matching_engine/src/instructions/run_batch.rs:332-384 | the inclusion root commits to exactly the selected orders that take part, in account order; slot, TWAP and match count are the batch's |
| BatchRules.FeeNoteOfBatch | programs/matching_engine/src/instructions/run_batch.rs:339-373 | each mint's fee note is for the sum of the batch's own fees in it, to the protocol owner, under this slot and role; none without fees or an owner |
| BatchRules.AdmittedExactly | programs/matching_engine/src/instructions/run_batch.rs:183-238 | over covered slots with usable owners a batch succeeds if and only if market, oracle, authority, TWAP, number and market of the accounts are in order |
| BatchRules.SucceedsOnlyAdmitted | programs/matching_engine/src/instructions/run_batch.rs:183-238 | no batch succeeds otherwise, covered or not |
| BatchRules.BatchRefusals | programs/matching_engine/src/instructions/run_batch.rs:183-330 | each error names its reason: one of those demands, an order that is not covered, or an owner outside the field |
| VaultTree.VaultConfig.AppendLeaf | programs/vault/src/merkle.rs:64-93 | appends succeed exactly with room and a field element, store the dense tree's root, and otherwise change nothing |
| VaultTree.VaultConfig.WalkUp | programs/vault/src/merkle.rs:71-86 | the level loop returns the root of the tree with the new leaf and keeps the right-path invariant |
| VaultTree.RightPathGrows | programs/vault/src/merkle.rs:71-86 | right_path[l] is the last complete block of 2^l leaves for each set bit l of the count, after every append |
| VaultTree.VaultConfig.PushRoot | programs/vault/src/state.rs:127-133 | the old root goes into the ring at the head |
| VaultTree.VaultConfig.ContainsRoot | programs/vault/src/state.rs:119-125 | true exactly for the current root, the roots before the last 32 appends, and zero while the ring is not full |
| VaultTree.RingMembership | programs/vault/src/state.rs:117-133 | the ring holds exactly those roots |
| VaultTree.RootSurvives | programs/vault/src/state.rs:117-133 | a root is accepted through 32 further appends |
| VaultTree.RootEvicted | programs/vault/src/state.rs:117-133 | after more than 32 appends it is not, unless a later root equals it |
| VaultTree.VaultConfig.constructor | programs/vault/src/instructions/initialize.rs:25-47 | the initial account holds the empty tree |
| VaultTree.EmptyTree | programs/vault/src/instructions/initialize.rs:35-40 | the empty root, right path and ring satisfy the invariants |
| VaultTree.ComputeZeroSubtreeRoots | programs/vault/src/merkle.rs:44-53 | entry l is the root of an all-zero subtree of height l |
| VaultTree.SmallTrees | programs/vault/src/merkle.rs:44-93 | the roots of small trees, written out as hashes |
| MerkleMirrors.MerkleShadow.constructor | apps/demo/src/lib/dapp/merkle-shadow.ts:20-42 | a new shadow tree is empty with the empty-subtree roots in place |
| MerkleMirrors.MerkleShadow.Append | apps/demo/src/lib/dapp/merkle-shadow.ts:44-48 | appends one leaf and returns the dense root, the one append_leaf stores |
| MerkleMirrors.MerkleShadow.ComputeRoot | apps/demo/src/lib/dapp/merkle-shadow.ts:50-67 | the level-by-level rebuild is the root of the zero-padded dense tree |
| MerkleMirrors.MerkleShadow.MakeWitness | apps/demo/src/lib/dapp/merkle-shadow.ts:69-110 | fails exactly out of range; otherwise siblings and directions fold the leaf to computeRoot's root |
| MerkleMirrors.WitnessFromPriorRightPath | apps/demo/src/lib/dapp/merkle-witness.ts:73-101 | from the right path before an append, the path folds the new leaf to the root append_leaf stores |
| MerkleMirrors.PriorWitnessCorrect | apps/demo/src/lib/dapp/merkle-witness.ts:83-100 | the stored right path and empty subtrees are the true siblings of the new leaf |
| InclusionTree.ComputeInclusionRoot | packages/sdk/src/batch/inclusion-proof.ts:30-46 | the root of the tree padded with the last leaf; zero for no leaves |
| InclusionTree.SmallRoots | programs/matching_engine/src/instructions/run_batch.rs:117-143 | the roots of zero to four leaves, written out as hashes |
| MarketProgram.MarketAccounts.RunBatchHandler | programs/matching_engine/src/instructions/run_batch.rs:375-396 | the batch summary carries that same root of the collected inclusion commitments, the price, the count and the breaker flag |
| InclusionTree.ComputeInclusionPath | packages/sdk/src/batch/inclusion-proof.ts:51-80 | fails exactly out of range; otherwise the true siblings and directions, one per level |
| InclusionTree.VerifyInclusionPath | packages/sdk/src/batch/inclusion-proof.ts:83-96 | accepts exactly when the path folds the leaf to the root |
| InclusionTree.GeneratedPathVerifies | packages/sdk/src/batch/inclusion-proof.ts:51-96 | every generated path verifies |
| InclusionTree.ForgedPathCollides | packages/sdk/src/batch/inclusion-proof.ts:83-96 | another leaf verifying at an index with a path of the tree's height exhibits a hash collision |
| InclusionTree.InnerNodeVerifies | packages/sdk/src/batch/inclusion-proof.ts:83-96 | the node d levels above a leaf verifies with the rest of the leaf's path, and the root with no path |
| InclusionTree.AcceptedPathMeans | packages/sdk/src/batch/inclusion-proof.ts:83-96 | a value accepted with a path of length k up to the height is the node k levels below the root at the index modulo 2^k, or a collision is exhibited |
| InclusionTree.LongPathMeans | packages/sdk/src/batch/inclusion-proof.ts:83-96 | with a longer path it is hashed up to a leaf of the tree first, or a collision is exhibited |
| Vault.AppendsFacts | programs/vault/src/instructions/tee_forced_settle.rs:299-335 | the appends succeed exactly with room, field elements and an owner for a fee note, and then add the leaves in order |
| VaultProgram.VaultAccounts.Settle | programs/vault/src/instructions/tee_forced_settle.rs:176-382 | the handler as a transaction: the specified new accounts, or an error and no change |
| VaultProgram.VaultAccounts.CreateRelock | programs/vault/src/instructions/tee_forced_settle.rs:390-443 | refuses an existing lock, otherwise writes the new one |
| VaultProgram.VaultAccounts.Deposit | programs/vault/src/instructions/deposit.rs:47-94 | balance up and one leaf, or an error and no change |
| VaultProgram.VaultAccounts.LockNote | programs/vault/src/instructions/lock_note.rs:32-65 | one new lock, or an error and no change |
| VaultProgram.VaultAccounts.ReleaseLock | programs/vault/src/instructions/release_lock.rs:21-31 | removes a lock from its expiry slot on, not before |
| VaultProgram.VaultAccounts.Withdraw | programs/vault/src/instructions/withdraw.rs:88-182 | guards in order, then nullifier spent and balance down |
| VaultLog.SettlesExactly | programs/vault/src/instructions/tee_forced_settle.rs:176-361 | a settlement is accepted if and only if the TEE sent and signed it, both notes are locked for exactly the orders it names at what it pays out, notes and nullifiers are fresh and distinct, change notes and re-locks are consistent, and the outputs fit the tree |
| VaultLog.SettleRefusals | programs/vault/src/instructions/tee_forced_settle.rs:176-361 | each error names the demand that is not met |
| VaultLog.WithdrawsExactly | programs/vault/src/instructions/withdraw.rs:88-172 | a withdrawal is accepted if and only if its nullifier is unspent, its note neither consumed nor locked, the root recent, the proof valid and the amount positive and held; it spends the nullifier and pays the amount |
| VaultLog.DepositsExactly | programs/vault/src/instructions/deposit.rs:47-94 | when a deposit is accepted, and the leaf and balance it adds |
| VaultLog.LocksExactly | programs/vault/src/instructions/lock_note.rs:32-65 | when a lock is taken and when it is released, and what changes |
| VaultLog.OtherRefusals | programs/vault/src/instructions/withdraw.rs:96-135 | each error of a withdrawal, deposit, lock or release names its reason |
| VaultLog.LogSuffices | programs/vault/src/instructions/tee_forced_settle.rs:176-382 | rejected instructions leave no trace: the accepted ones alone lead to the same vault |
| VaultLog.VaultFollowsLog | programs/vault/src/instructions/tee_forced_settle.rs:266-361 | after any run, locks, consumed notes, spent nullifiers and balances are what the accepted instructions say |
| VaultLog.LockStays | programs/vault/src/instructions/lock_note.rs:49-56 | a lock stays exactly as it was taken until it is released or its note consumed |
| VaultLog.LockHasOrigin | programs/vault/src/instructions/lock_note.rs:39-56 | every lock that is held was taken by the TEE in a lock_note or a re-lock and not freed since |
| VaultLog.LocksSettleTheirOrder | programs/vault/src/instructions/tee_forced_settle.rs:201-236 | over any run, a lock is consumed only by a signed match of the order it was taken or re-locked for, that pays out exactly the locked amount |
| VaultLog.ReleasedOnceExpired | programs/vault/src/instructions/release_lock.rs:21-31 | over any run, a lock is released only from the expiry slot it was taken with |
| VaultLog.SettlesByLog | programs/vault/src/instructions/tee_forced_settle.rs:176-361 | after any run, acceptance of a settlement in terms of the log: the locks left, and what was consumed and spent before |
| VaultLog.WithdrawsByLog | programs/vault/src/instructions/withdraw.rs:88-172 | after any run, acceptance of a withdrawal in terms of the log: no earlier use of nullifier or note, no lock left, deposits exceeding withdrawals by the amount |
| VaultLog.LockedNoteStays | programs/vault/src/instructions/withdraw.rs:108-120 | from the moment a note is locked or re-locked until its lock is released or settled, no withdrawal naming it succeeds |
| VaultLog.ConsumedNoteIsGone | programs/vault/src/instructions/withdraw.rs:98-106 | once a note is consumed, no withdrawal naming it and no other match succeeds |
| VaultLog.SpentOnce | programs/vault/src/instructions/withdraw.rs:74-152 | over any run a nullifier is spent by at most one settlement or withdrawal |
| Solvency.NotesAndFeesCovered | programs/vault/src/instructions/tee_forced_settle.rs:213-236 | over any honest run, unspent notes plus fees retained never exceed the vault's balance, per mint |
| Solvency.Solvent | programs/vault/src/instructions/withdraw.rs:122-172 | while fee notes stay within retained fees, every unspent note is covered and no honest withdrawal lacks funds |
| Solvency.SolventExactlyWhen | programs/vault/src/instructions/tee_forced_settle.rs:320-335 | with nullifiers of their own for all notes, the vault is solvent if and only if fee notes stay within retained fees |
| InsolvencyWitness.InsolvencyIsReached | programs/vault/src/instructions/tee_forced_settle.rs:320-335 | two deposits, two locks and a first settlement that carries the fee note of its whole batch: unspent notes exceed the balance |
| Solvency.SettleEffect | programs/vault/src/instructions/tee_forced_settle.rs:201-335 | what an accepted settlement proves of its payload and does to leaves, nullifiers and balances |
| Replay.PayloadSlices | packages/sdk/src/settlement/settle-builder.ts:101-128 | where the five output commitments lie in the 448 bytes |
| Replay.ReplayMatchesInstruction | apps/demo/src/lib/dapp/vault-leaf-history.ts:17-30 | from the bytes of a log entry the replay recovers exactly the leaves the instruction appended |
| Replay.ReplayIsChain | apps/demo/src/lib/dapp/vault-leaf-history.ts:132-211 | after every prefix of the log the replayed leaves are the vault's |
| Replay.ChainStepAppends | programs/vault/src/instructions/tee_forced_settle.rs:299-335 | a successful instruction appends exactly its leaves, and a successful deposit had field elements as inputs |
| Replay.LeafHistory.PushSettleLeaves | apps/demo/src/lib/dapp/vault-leaf-history.ts:17-30 | throws on a short payload, else pushes two trade notes and the non-zero change and fee notes |
| Replay.LeafHistory.Process | apps/demo/src/lib/dapp/vault-leaf-history.ts:118-130 | dispatch on the instruction tag, including ignored short deposits |
| Replay.LeafHistory.Collect | apps/demo/src/lib/dapp/vault-leaf-history.ts:244-274 | stopping at the target count yields the leaves of the moment the vault had that many |
| Kmac.FramingInjective | crates/darkpool-crypto/src/keys.rs:181-204 | at one output length, different (key, custom, data) absorb different byte strings |
| Kmac.SeedFraming | crates/darkpool-crypto/src/keys.rs:181-204 | the absorbed string for a 64-byte seed, byte by byte |
| Kmac.LeftEncodeSelfDelimiting | crates/darkpool-crypto/src/keys.rs:206-218 | left_encode is a prefix code |
| Kmac.EncodeStringSelfDelimiting | crates/darkpool-crypto/src/keys.rs:234-239 | concatenations of encoded strings parse uniquely |
| Kmac.BytePadShortest | crates/darkpool-crypto/src/keys.rs:241-248 | bytepad's length is the least multiple of w that holds the input |
| Kmac.LeftEncodeRust | crates/darkpool-crypto/src/keys.rs:206-218 | the Rust encoder is left_encode of NIST SP 800-185 section 2.3.1 on every u64 |
| Kmac.LeftEncodeSdk | packages/sdk/src/keys/key-generators.ts:141-150 | so is the TypeScript encoder |
| Kmac.RightEncodeRust | crates/darkpool-crypto/src/keys.rs:220-232 | the Rust encoder is right_encode on every u64 |
| Kmac.RightEncodeSdk | packages/sdk/src/keys/key-generators.ts:152-161 | so is the TypeScript encoder |
| Kmac.BytePadLoop | packages/sdk/src/keys/key-generators.ts:172-184 | the padding loop is bytepad |
| Codecs.DivideBy256 | packages/sdk/src/zk/groth16-format.ts:68-75 | one long division: value = quotient * 256 + remainder, with every quotient digit in 0..9 |
| Codecs.DecToBe32 | packages/sdk/src/zk/groth16-format.ts:62-81 | refuses exactly what is not all digits; otherwise the big-endian encoding of the value modulo 2^256 |
| Codecs.SubBe | packages/sdk/src/zk/groth16-format.ts:119-134 | refuses operands that are not 32 bytes; byte-wise subtraction with borrow is subtraction modulo 2^256 |
| Codecs.NegateG1Bytes | packages/sdk/src/zk/groth16-format.ts:110-117 | refuses exactly what is not 64 bytes; keeps x and subtracts y from the modulus byte by byte |
| Codecs.NegateInvolution | packages/sdk/src/zk/groth16-format.ts:110-117 | negating twice gives back every 64-byte string |
| Codecs.NegatesInFieldIff | packages/sdk/src/zk/groth16-format.ts:109-117 | it is the field negation if and only if y is between 1 and the modulus |
| Codecs.AtomsRoundTrip | apps/demo/src/lib/dapp/decimals.ts:16-50 | toAtoms(fromAtoms(a, d), d) = a for every integer a and every d |
| Codecs.OneMoreDecimal | apps/demo/src/lib/dapp/decimals.ts:16-33 | a string a mint accepts means ten times as many atoms for a mint with one more decimal |
| Codecs.ParsesExactly | apps/demo/src/lib/dapp/decimals.ts:19-25 | a string parses if and only if it is an optional minus, digits, and optionally a dot and digits, and into those digits |
| Codecs.SpaceIgnored | apps/demo/src/lib/dapp/decimals.ts:18-19 | white space around an amount does not change what it means |
| FieldBytes.DerivedBytes | programs/matching_engine/src/state/change_note.rs:30-43 | a derived nonce or blinding factor is the hash with byte 0 and the top nibble of byte 1 cleared |
| FieldBytes.MintHalves | crates/darkpool-crypto/src/field.rs:62-73 | a pubkey is hashed as its last and its first 16 bytes |

## Left out

- Poseidon, SHA-256, SHAKE, HKDF, Ed25519, Groth16 and the verifying keys: parameters or booleans.
- Account machinery (PDA derivation, rent, owners, zero-copy layout, instruction sysvar scan): a record exists for a key or it does not. The slot and bump fields of consumed-note and nullifier records are dropped.
- `canonicalPayloadHash`, `decodeBatchResults`, `decodeTradeSettled` and events: flat fixed-offset layouts.
- Delegation, commit and permission instructions, wallet registry, configuration setters and the legacy order book: none of them touches slots, notes, locks, the tree or balances. Fee rate and owner are inputs of each batch; a run of the vault keeps its protocol owner. The oracle account is reduced to the TWAP it yields.
- `reset_merkle_tree`: it discards the history on purpose; runs here do not contain it.
- Session code, HTTP, workers, key loading and UI: input and output. Paging, inner instructions and key resolution of the log are reduced to one list of instructions, oldest first.
- Sorting is the standard library's stable sort in the code; here it is a function with its order, stability and membership proved, not an in-place algorithm.
- The bodies of failed instructions are undone by an explicit restore where the runtime discards them.
- Trimming in `toAtoms` knows space, tab, carriage return and line feed only; other Unicode white space is not modelled, nor are number-typed inputs.
- SettlementRuns.NoMatchIsRefused: for covered orders at one fee rate, tree room for the matches and a match counter that does not saturate; the other conditions on a run are exact (`BatchKeepsReadyExactly`, `ReleaseKeepsReadyExactly`, `Withdrawals.WithdrawalKeepsReadyExactly`). Matches settle in the order they were made.
- Solvency.Solvent: assumes honest payloads, proofs and deposits, which the vault does not check itself.
- BatchLaws.SecondBatchIdle: for books without fill-or-kill orders and fill floors, as long as no volume sum saturates and the breaker does not trip.
- BatchLaws.BatchRing: assumes fewer than 2^64 matches in all.
- InclusionTree.ForgedPathCollides: for paths of the tree's height, because the verifier does not check the length.
