# ProofSpend verification project

Dafny models of the money-moving core of ProofSpend, with proofs of the properties that the code is there for.
`dafny verify dfyconfig.toml` checks everything. The project has four parts.

**Durable authorization and Circle handoff.** `Records`, `DurableStore` and `DurableStoreProperties` describe the persisted state
and what each locked operation does to it; `AuthorizationStore` is the class whose methods update it. `LockProtocol` and `LockSafety`
describe the two-file lock as single file operations of threads whose processes may crash, and show that every locked
read-modify-write takes effect as one atomic store operation, or as none if it fails, provided that no write of the reclaim guard fails
while a live thread relies on a checked guard; `LockFailure` is a run in which such a failure lets two threads in.
`CircleProvider` covers listing, matching and polling of Circle transactions. `Handoff` composes all of this into a state machine:
processes that execute or recover a handoff, each await being one step that may also fail before or after its effect, crash at any
point, and interleave in any order. `HandoffSafety` proves what holds whatever Circle answers; `HandoffExactlyOnce` proves what holds
when Circle honours idempotency keys and lists completely. `HandoffFailure` shows what a FAILED history does not mean: a submitter that
loses the race for an approval records FAILED while the winner creates the transfer, and the history stays FAILED for good. FAILED
without an operation id means that Circle holds nothing exactly when the approval is not consumed.

**Treasury.** `Allocation` is the largest-remainder split. `Treasury` gives each callback of `LaunchVaultTreasury` as a function on the
books; `TreasuryInvariants` and `TreasuryRecords` hold what every operation keeps, and `TreasuryOperations` puts it together; `LaunchVault`
is the class that updates the books in place and keeps them valid; `TreasuryRuns` interleaves calls, queued callbacks and the pauses at
the hash await, with the idempotency entries of `Idempotency`. `TrancheOrder` shows that incoming tranches move forward only as long as
the calls that record their arrivals do not overlap, exactly which pending arrivals can move one backward, and a run in which one does.
The code comment on re-reading the tranche inside the callback covers the two final states only; the model follows the code.

**Milestone and evidence engines.** `Milestones` is the policy evaluator, `MilestoneEngine` its loops, `MilestoneProperties` its
independence of AI suggestions. `Evidence` builds observations and calls the evaluator; `EvidenceProperties` proves when its references
check, `EvidenceNonInterference` and `EvidenceOrder` what does not influence an evaluation, and `ProofRecovery` who can close a
missing-receipt gap. `Sha256` is the hand-written hash, proved against FIPS 180-4.

**Small loops.** `Decimal` prints, parses and displays amounts; `AccessLimiter` limits invocations.

Conventions: amounts are natural numbers of atomic units; times are integers in milliseconds; fresh UUIDs, the clock, provider answers
and input-output failures are inputs of the steps; JSON equality is structural equality; the intent hashes of treasury and integrity are
a fixed but arbitrary function; `toLowerCase` is the one on ASCII; identifiers are compared by code unit.

## Model

| member | source | states |
|---|---|---|
| DurableStoreProperties.StepKeepsInv | apps/web/lib/verification-agent/durable-authorization-store.ts:345-586 | every locked operation, accepted or refused, keeps legal histories, grounded claims and grounded reconciliations, and only grows the state |
| DurableStoreProperties.RunGrows | apps/web/lib/verification-agent/durable-authorization-store.ts:212-247 | over any run of operations histories are append-only, CONFIRMED is absorbing, and an authorization changes only by one consumption of an ACTIVE binding |
| DurableStoreProperties.StepAppendsOne | apps/web/lib/verification-agent/durable-authorization-store.ts:212-247 | one operation appends at most one result, and a PREPARED behind other results only while no result names a provider operation and the binding is not consumed |
| DurableStoreProperties.ReconciliationAgreesForever | apps/web/lib/verification-agent/durable-authorization-store.ts:554-586 | a stored reconciliation stays, is the only one of its key, and in every later state agrees with that key's last, CONFIRMED result |
| DurableStoreProperties.FailureIsFinal | apps/web/lib/verification-agent/durable-authorization-store.ts:212-247 | over any run, a history that ends with FAILED never changes again once its approval is consumed or revoked |
| DurableStoreProperties.TakeoverOnlyAfterLease | apps/web/lib/verification-agent/durable-authorization-store.ts:440-483 | over any run, a stored claim can be taken over only 30 s after the operation that took it, which stored that very claim, and only if nothing was recorded under the key and nothing touched the claim in between |
| DurableStoreProperties.DisplacedTokenStaysOut | apps/web/lib/verification-agent/durable-authorization-store.ts:440-532 | with fresh tokens, a token that is no longer stored is never stored again |
| DurableStoreProperties.DisplacedTokenCannotComplete | apps/web/lib/verification-agent/durable-authorization-store.ts:485-532 | a displaced token can never complete: the store refuses it and keeps its state |
| DurableStoreProperties.OneCompletionPerEnd | apps/web/lib/verification-agent/durable-authorization-store.ts:485-532 | two completions of one key append at different history lengths, so each FAILED end receives at most one claimed result |
| DurableStoreProperties.ClaimDescribesEnd | apps/web/lib/verification-agent/durable-authorization-store.ts:440-532 | a claim whose recorded length is the history length has the last entry as its failed result |
| AuthorizationStore.FileTransferAuthorizationStore.Persist | apps/web/lib/verification-agent/durable-authorization-store.ts:345-361 | the class method's new state and answer are those of the store specification, and validity is kept |
| AuthorizationStore.FileTransferAuthorizationStore.Consume | apps/web/lib/verification-agent/durable-authorization-store.ts:386-418 | consumes exactly when the specification does and returns the snapshot from before it |
| AuthorizationStore.FileTransferAuthorizationStore.RecordResult | apps/web/lib/verification-agent/durable-authorization-store.ts:420-438 | appends, ignores a repetition or refuses as specified; a refusal changes nothing |
| AuthorizationStore.FileTransferAuthorizationStore.ClaimPreSubmissionRetry | apps/web/lib/verification-agent/durable-authorization-store.ts:440-483 | hands out the fresh token exactly when a claim may be taken or taken over |
| AuthorizationStore.FileTransferAuthorizationStore.CompletePreSubmissionRetryClaim | apps/web/lib/verification-agent/durable-authorization-store.ts:485-532 | appends the claimed result and drops the claim, or refuses and changes nothing |
| AuthorizationStore.FileTransferAuthorizationStore.RecordReconciliation | apps/web/lib/verification-agent/durable-authorization-store.ts:554-586 | stores a reconciliation that the last result evidences, repeats harmlessly, refuses another one |
| LockSafety.MutualExclusion | apps/web/lib/verification-agent/durable-authorization-store.ts:1048-1131 | over every interleaving of file operations and crashes at most one live thread is inside the locked operation |
| LockSafety.OnlyDeadOwnersAreReclaimed | apps/web/lib/verification-agent/durable-authorization-store.ts:940-986 | `reclaimStaleLock` unlinks the very file it inspected, and its creator's process is dead |
| LockSafety.LiveOwnerKeepsLock | apps/web/lib/verification-agent/durable-authorization-store.ts:647-694 | a live owner never fails with AUTHORIZATION_STORE_LOCK_LOST and finds its own lock when it releases it |
| LockSafety.RenameIsAtomic | apps/web/lib/verification-agent/durable-authorization-store.ts:647-680 | a rename applies its operation to what the file holds at that moment, and no other step changes the file |
| LockSafety.LockedOperationsAreAtomic | apps/web/lib/verification-agent/durable-authorization-store.ts:647-680 | the file always holds what the committed operations leave when run one after another on the empty store |
| LockSafety.OperationIsAtomic | apps/web/lib/verification-agent/durable-authorization-store.ts:647-680 | from its read to its end a locked operation of a live thread has the state file to itself; it leaves the specified result if it committed and the file as it was if it failed, and an operation none of whose file operations failed always leaves the specified result, written or not |
| LockSafety.CallCommitsOnce | apps/web/lib/verification-agent/durable-authorization-store.ts:1048-1131 | no call ever renames a new state into place twice |
| LockSafety.GuardsHeldIff | apps/web/lib/verification-agent/durable-authorization-store.ts:810-830 | over a whole run, every live thread with a checked guard always finds it in place exactly when no guard write fails while such a thread exists |
| LockSafety.StepKeepsInvIff | apps/web/lib/verification-agent/durable-authorization-store.ts:810-830 | one step keeps the invariant behind exclusion exactly when it is not such a failure |
| LockFailure.WriteFailureBreaksTheLock | apps/web/lib/verification-agent/durable-authorization-store.ts:810-830 | a reachable run with two live threads inside their operations, when the metadata write of an already displaced guard fails |
| CircleProvider.ListAllRecoveryTransactions | packages/circle-adapter/src/circle-wallet-provider.ts:79-124 | stops within 100 calls and returns what following the cursors collects, or throws |
| CircleProvider.ListingIsComplete | packages/circle-adapter/src/circle-wallet-provider.ts:79-124 | against a cursor server with distinct UUIDs the result is the whole list when it has at most 4999 entries and a throw otherwise |
| CircleProvider.GrowthIsInvisible | packages/circle-adapter/src/circle-wallet-provider.ts:79-124 | transactions that are added in front of the list while its pages are read do not disturb them: the pages are those of the list at the first call |
| CircleProvider.RecoverFindsTheOne | packages/circle-adapter/src/circle-wallet-provider.ts:126-147 | when at most one listed transaction carries the key and it is the exact transfer, recovery finds it or finds nothing, and is not ambiguous |
| CircleProvider.RecoveredIsListed | packages/circle-adapter/src/circle-wallet-provider.ts:126-147 | a recovered id always belongs to a listed transaction that is the exact approved transfer |
| CircleProvider.PollTransfer | packages/circle-adapter/src/circle-wallet-provider.ts:587-692 | the polling loop returns the outcome of the answers in order, stopping at the first verdict |
| CircleProvider.ConfirmedIsVerified | packages/circle-adapter/src/circle-wallet-provider.ts:149-215 | CONFIRMED is reported only for this operation with complete evidence of the exact transfer; no result names another operation |
| Records.RestoredIntentIsSubmitted | apps/web/lib/verification-agent/live-handoff.ts:532-571 | any intent that passed the record checks of an authorization is the one that recovery rebuilds from it, up to the letter case of addresses |
| Records.MatchIgnoresConsumption | packages/circle-adapter/src/intent.ts:30-130 | the intent checks cannot change their verdict because a binding was consumed |
| HandoffSafety.ConsumptionAuthorizes | packages/circle-adapter/src/circle-wallet-provider.ts:371-585 | consuming with a snapshot that passes revalidation leaves the intent consumed by its own transaction record and matching the stored records |
| HandoffSafety.CreatedOnlyAfterConsumption | packages/circle-adapter/src/circle-wallet-provider.ts:371-585 | in every run a transfer is requested only under a binding consumed for it before, once, with its key, amount, token and destination |
| HandoffSafety.SameKeySameRequest | packages/circle-adapter/src/circle-wallet-provider.ts:371-585 | two requests with one key, from any processes at any times, are for the same approval, amount, token and destination up to case |
| HandoffSafety.UnusedApprovalWasNeverSubmitted | apps/web/lib/verification-agent/live-handoff.ts:341-530 | while a binding is not consumed nothing was ever requested under its key |
| HandoffSafety.RetryClaimPrecedesSubmission | apps/web/lib/verification-agent/live-handoff.ts:341-530 | a retry claim can be taken only when nothing was ever requested under the key |
| HandoffSafety.OneFirstRequestPerApproval | packages/circle-adapter/src/circle-wallet-provider.ts:371-585 | in every run, whatever Circle answers, one approval leads to at most one request that is not a recovery, across all processes, crashes and restarts |
| HandoffSafety.RecoveryFollowsListing | packages/circle-adapter/src/circle-wallet-provider.ts:436-488 | every recovering request follows a listing read by the same process in which no operation of its intent was found |
| HandoffExactlyOnce.AtMostOneOperation | packages/circle-adapter/src/circle-wallet-provider.ts:371-585 | with an honest provider one approval has at most one operation, however many requests are made under it; an operation under its key was requested under it after its consumption, and the other way round |
| HandoffExactlyOnce.RecordedIdIsTheOperation | apps/web/lib/verification-agent/live-handoff.ts:341-530 | every operation id in a key's history is the id of the one operation under that key |
| HandoffExactlyOnce.OperationMatchesIntent | packages/circle-adapter/src/circle-wallet-provider.ts:126-147 | in an honest run, an operation under the key of an authorized intent is exactly the transfer that intent names |
| HandoffExactlyOnce.ListingFindsTheOperation | packages/circle-adapter/src/circle-wallet-provider.ts:79-147 | in an honest run, paging through a server that lists the operations to the destination, while others are added between the pages, finds the id of the operation of an authorized intent when it exists, nothing otherwise, and never ends in ambiguity |
| HandoffExactlyOnce.RecoveryReturnsTheOperation | apps/web/lib/verification-agent/live-handoff.ts:602-629 | the recovery step of a consumed submission returns the existing operation's id and creates nothing |
| HandoffFailure.LostRaceRecordsFailure | packages/circle-adapter/src/circle-wallet-provider.ts:497-552 | for every approved intent, an honest run of two requests ends with the history PREPARED, FAILED (AUTHORIZATION_UNAVAILABLE) without an operation id while Circle holds the operation |
| HandoffFailure.FailureIsFinalInRun | apps/web/lib/verification-agent/live-handoff.ts:341-530 | in every run, whatever Circle answers, such a FAILED history of a used approval is never changed by anything that follows |
| HandoffFailure.FailedMeansNothingIff | apps/web/lib/verification-agent/live-handoff.ts:401-412 | a FAILED history without an operation id means, in all honest runs, that Circle holds no operation exactly when the status of the approval is not CONSUMED |
| Decimal.DecimalRoundTrip | packages/circle-adapter/src/circle-wallet-provider.ts:227-248 | `decimalToAtomic` reads back what `atomicToDecimal` prints, for every amount |
| Decimal.PrintedAmountsAgree | packages/circle-adapter/src/circle-wallet-provider.ts:126-147 | printed amounts are equal exactly when the amounts are |
| Decimal.FormatMoney | apps/web/lib/format-money.ts:13-22 | the trimming loop displays the grouped whole part, the trimmed fraction and the asset |
| Decimal.FormattedReadsBack | apps/web/lib/format-money.ts:13-22 | the displayed amount without commas and asset reads back as the same atomic amount |
| Allocation.ResolveAllocations | packages/domain/src/treasury.ts:248-309 | the loops over totals and remaining units return the specified shares or error |
| Allocation.LeftoverBound | packages/domain/src/treasury.ts:290-301 | the units left after flooring are fewer than the shares with a fraction, or both are none |
| Allocation.LargestRemaindersRoundUp | packages/domain/src/treasury.ts:276-301 | each reserve gets its fixed amounts and its shares rounded down or up; those rounded up have the largest remainders and all have a fraction |
| Allocation.ResolvedTotal | packages/domain/src/treasury.ts:248-309 | the total is fixed + floor((budget - fixed) * P / 10000), never over budget, and the budget when P is 10000 |
| Allocation.ResolvedReserves | packages/domain/src/treasury.ts:303-308 | the shares are in ascending order of distinct known reserves |
| TreasuryInvariants.SnapshotNeverThrows | packages/domain/src/treasury.ts:490-591 | on agreeing books `getSnapshot` does not throw and its balances add up to the confirmed capital |
| TreasuryInvariants.ReconcileRefusals | packages/domain/src/treasury.ts:1132-1198 | reconciliation succeeds exactly for a CONFIRMED settlement tranche with a key: its own consistency check never refuses |
| TreasuryInvariants.RecordEscrowConserves | packages/domain/src/treasury.ts:593-637 | recording escrow keeps escrowed equal to the sum of what is still held of each commitment |
| TreasuryInvariants.ReleaseEscrowConserves | packages/domain/src/treasury.ts:639-688 | releasing escrow keeps that sum, targets an existing commitment and never exceeds it |
| TreasuryInvariants.CommitmentGuardSuffices | packages/domain/src/treasury.ts:639-664 | the guard against releasing more than is escrowed is implied by the per-commitment guard |
| TreasuryInvariants.ApplicationKeepsBalances | packages/domain/src/treasury.ts:873-985 | applying a proposal keeps reserves, ledger and balances in agreement |
| TreasuryRecords.CreatedProposal | packages/domain/src/treasury.ts:690-800 | a created proposal is PROPOSED, new, bound to no tranche or to an unbound reconciled one, and within that tranche's amount |
| TreasuryRecords.NeverAltered | packages/domain/src/treasury.ts:161-206 | an approved proposal still matches its approved intent hash, because the payload ignores status and approval fields |
| TreasuryRecords.ApprovalNeverMissing | packages/domain/src/treasury.ts:884-911 | the only thing that can stop an APPROVED proposal before its hash is the approval's time window |
| TreasuryRecords.ReconcileSettles | packages/domain/src/treasury.ts:1148-1197 | a reconciliation keeps settlement entries and reconciled tranches in one-to-one correspondence |
| TreasuryRuns.ReachableBooksAgree | packages/domain/src/treasury.ts:490-591 | in every reachable treasury totalCapital = confirmed = CAPITAL + SETTLEMENT - REFUND, escrowed = COMMITMENT - REVERSAL, allocated = ALLOCATION, allocated + escrowed <= confirmed, every REVERSAL targets a COMMITMENT and none is over-reversed, and `getSnapshot` succeeds |
| TreasuryRuns.ReservesHoldAppliedShares | packages/domain/src/treasury.ts:873-985 | in every reachable treasury each reserve holds the sum of its shares over the APPLIED proposals |
| TreasuryRuns.ApplicationNeverAltered | packages/domain/src/treasury.ts:928-932 | no application in any run ends with PROPOSAL_ALTERED or APPROVAL_MISMATCH |
| TreasuryRuns.TranchesCreditedOnce | packages/domain/src/treasury.ts:1086-1197 | confirmed = initial capital + the RECONCILED amounts, with one SETTLEMENT entry each, distinct transaction hashes up to case, and at most one proposal per tranche within its amount |
| TreasuryRuns.RunAdvances | packages/domain/src/treasury.ts:802-985 | along a run proposals keep their terms and only move PROPOSED, APPROVED, APPLIED; final tranches, the ledger's past and settled idempotency entries never change |
| TreasuryRuns.KeyActsOnce | packages/domain/src/repositories.ts:37-60 | however often a key is used within its scope, its callback changes the books at most once |
| TreasuryRuns.SettledKeyAnswersForever | packages/domain/src/repositories.ts:37-60 | after a key has settled every later use answers the same, conflicts on another fingerprint, and changes nothing |
| TrancheOrder.SerialArrivalsMoveForward | packages/domain/src/treasury.ts:1056-1130 | as long as the calls that record arrivals of a tranche do not overlap, every event of a run moves the tranche forward or leaves it, and keeps its amount, known hash, job and confirmed evidence, whatever else is pending |
| TrancheOrder.SomeOrderMovesBackwardIff | packages/domain/src/treasury.ts:1056-1130 | in a reachable treasury, some order of the pending arrivals of a tranche that is not final moves it backward exactly when one of them claims a state that may not follow the current one or the one another of them claims |
| TrancheOrder.OverlappingArrivalsMoveBackward | packages/domain/src/treasury.ts:1086-1130 | a reachable treasury in which one callback takes a CONFIRMED tranche back to SUBMITTED |
| Idempotency.InMemoryIdempotencyRepository.Execute | packages/domain/src/repositories.ts:39-53 | a first use marks the key in flight; any other use conflicts, waits, returns or rejects as stored, and changes nothing |
| Idempotency.InMemoryIdempotencyRepository.Finish | packages/domain/src/repositories.ts:51-58 | the outcome of the action is what every later use with the same fingerprint gets |
| LaunchVault.LaunchVaultTreasury.BalancesOf | packages/domain/src/treasury.ts:474-495 | the loop over reserves returns the specified balances or UNDERFLOW |
| LaunchVault.LaunchVaultTreasury.LedgerTotals | packages/domain/src/treasury.ts:506-517 | one pass over the ledger computes the three totals it stands for |
| LaunchVault.LaunchVaultTreasury.ReversedAmount | packages/domain/src/treasury.ts:661-662 | the loop adds up the reversals of one commitment |
| LaunchVault.LaunchVaultTreasury.Distribute | packages/domain/src/treasury.ts:941-966 | the loop over shares returns the reserves and ledger entries of an application, or the error |
| LaunchVault.LaunchVaultTreasury.GetSnapshot | packages/domain/src/treasury.ts:572-591 | on a valid treasury it never throws, and its balances add up to the confirmed capital |
| LaunchVault.LaunchVaultTreasury.RecordEscrowedCapital | packages/domain/src/treasury.ts:601-635 | keeps the treasury valid; refused exactly for a used event, an empty key or capital that is not unallocated; an error changes nothing |
| LaunchVault.LaunchVaultTreasury.ReleaseEscrowedCapital | packages/domain/src/treasury.ts:648-687 | keeps the treasury valid; refused exactly for a used event, an empty key, an unknown commitment or more than is still held of it; an error changes nothing |
| LaunchVault.LaunchVaultTreasury.CreateAllocationProposal | packages/domain/src/treasury.ts:690-800 | keeps the treasury valid and its capital as it is; the new proposal is PROPOSED and fits into the unallocated capital and its source tranche |
| LaunchVault.LaunchVaultTreasury.RecordApproval | packages/domain/src/treasury.ts:843-870 | keeps the treasury valid and its capital as it is; records the approval exactly when the proposal is still the hashed one and the approval is for that hash, and the stored proposal then hashes to its approved intent |
| LaunchVault.LaunchVaultTreasury.RecordApplication | packages/domain/src/treasury.ts:916-985 | keeps the treasury valid; never ends with PROPOSAL_ALTERED or APPROVAL_MISMATCH; applies only the unchanged approved proposal and gives each reserve exactly its shares |
| LaunchVault.LaunchVaultTreasury.RecordIncomingTranche | packages/domain/src/treasury.ts:1086-1130 | keeps the treasury valid; credits nothing, changes no other and no final tranche, and records no transaction hash that another tranche has up to case |
| LaunchVault.LaunchVaultTreasury.ReconcileConfirmedTranche | packages/domain/src/treasury.ts:1148-1197 | keeps the treasury valid; credits the amount exactly when the tranche is a CONFIRMED settlement and the key is not empty |
| MilestoneEngine.CreateProvenanceIndex | packages/domain/src/milestone-engine.ts:208-262 | the loops index exactly the slice by id and hash and, per requirement and kind, exactly the accepted and suggested evidence, or throw at the first late or repeated item |
| MilestoneEngine.ResolveValidatedEvidenceReferences | packages/domain/src/milestone-engine.ts:305-337 | the loop accepts references exactly when they resolve one to one onto the accepted evidence |
| MilestoneProperties.AiNonInterference | packages/domain/src/milestone-engine.ts:577-625 | inputs that differ only in AI suggestions have the same PASS requirements, the same ELIGIBLE verdict and the same humanApprovalRequired; more suggestions only move FAIL to REVIEW |
| MilestoneProperties.SameApproval | packages/domain/src/milestone-engine.ts:454-562 | AI suggestions change neither the approval's canonical subject nor its classification |
| Evidence.ValidateEvidenceBoundary | packages/domain/src/evidence-engine.ts:91-114 | the loops accept exactly timely evidence of the project without repeated ids or hashes and matches inside the slice |
| Evidence.BuildRequirementObservations | packages/domain/src/evidence-engine.ts:147-180 | the loop builds the specified observation for each requirement |
| EvidenceProperties.ReferencesAreAccepted | packages/domain/src/evidence-engine.ts:131-172 | the built references are exactly the evidence that the provenance index accepts |
| EvidenceProperties.FailsOnlyOnWrongKind | packages/domain/src/evidence-engine.ts:199-216 | with plain evidence ids an evaluation inside the boundary fails exactly on foreign requirements or on accepted evidence of the wrong kind |
| EvidenceNonInterference.EvidenceAiNonInterference | packages/domain/src/evidence-engine.ts:128-216 | the same independence of AI suggestions for the evidence engine, whose observations mention them |
| EvidenceOrder.OrderIndependent | packages/domain/src/evidence-engine.ts:199-216 | permuting requirements, requirement ids, evidence or matches leaves the evaluation identical |
| EvidenceOrder.GapsOrderIndependentIff | packages/domain/src/evidence-engine.ts:182-216 | the whole result with its proof gaps is independent of the order exactly when at most one required requirement asks for receipts or none of those has fewer accepted receipts than it asks for without a pending suggestion |
| ProofRecovery.RecoveryIsAuthorized | packages/domain/src/evidence-engine.ts:227-309 | a recovery that returns was accepted by the configured founder or evaluator, who is the audited actor |
| ProofRecovery.RecoveryChangesOnlyTheGap | packages/domain/src/evidence-engine.ts:290-309 | outcome, reason and references of every other requirement but a due date are as before |
| ProofRecovery.ReplayAddsNothing | packages/domain/src/evidence-engine.ts:262-309 | a replay on its own log with later unrelated events returns the same and leaves the log unchanged |
| Sha256.Sha256OfBytes | packages/domain/src/milestone-engine.ts:140-187 | the JavaScript computation returns the FIPS 180-4 digest, or throws exactly from 2^31 - 72 bytes on |
| Sha256.PadMessage | packages/domain/src/milestone-engine.ts:141-149 | the buffer holds the padding of section 5.1.1, or its size overflows a signed 32-bit integer |
| Sha256.NextWord | packages/domain/src/milestone-engine.ts:154-158 | one schedule word in signed 32-bit and exact arithmetic is the schedule of section 6.2.2 |
| Sha256.RunRound | packages/domain/src/milestone-engine.ts:160-175 | one round in JavaScript arithmetic is one round of section 6.2.2 |
| Sha256.SumsAreExact | packages/domain/src/milestone-engine.ts:154-175 | no sum of a schedule word or a round exceeds 2^53 in magnitude, so the arithmetic in doubles is exact |
| Sha256.PaddingIsShortest | packages/domain/src/milestone-engine.ts:141-149 | the padded length is the least multiple of 64 that fits the message and nine bytes |
| Sha256.PaddingInverts | packages/domain/src/milestone-engine.ts:141-149 | the message is recovered from its padding |
| Sha256.PaddingInjective | packages/domain/src/milestone-engine.ts:141-149 | messages with the same padding are equal |
| AccessLimiter.AgentAccess.AuthorizeInvocation | apps/web/lib/verification-agent/access.ts:53-99 | sweeps, checks and records as specified; without live mode nothing changes |
| AccessLimiter.AtMostFivePerMinute | apps/web/lib/verification-agent/access.ts:53-99 | with a non-decreasing clock at most five calls of an actor are accepted in any half-open sixty seconds |
| AccessLimiter.FiveCanBeAccepted | apps/web/lib/verification-agent/access.ts:53-99 | the bound is attained: a run in which five calls of one actor are accepted within a half-open minute |
| AccessLimiter.SameKeyFifteenMinutesApart | apps/web/lib/verification-agent/access.ts:53-99 | two accepted calls with the same key are at least fifteen minutes apart |

## Left out

- React pages and components, API routes, environment parsing, the OpenAI provider, scripts and end-to-end tests: input, output and display.
- The Circle SDK, fetch, timers, JSON and zod: provider answers and delays are inputs; parsed shapes are datatypes, except where a refused shape changes an outcome.
- Real file-system details of the lock: fsync, inode reuse, /proc parsing, the non-Linux fallback and heartbeats; any file may look older than the stale limit at any time, and a pair of `stat` and `readFile` on one path is one step.
- The race between checking that a stale guard is unchanged and unlinking it: these two are one step, and the test whether an owner runs is exact.
- LockSafety.MutualExclusion: assumes that no write of a guard fails while a live thread relies on a checked guard, because the code then unlinks whatever guard is there; `LockSafety.GuardsHeldIff` shows that the guard protocol works exactly then, and `LockFailure.WriteFailureBreaksTheLock` a run in which exclusion is lost otherwise.
- LockSafety.OnlyDeadOwnersAreReclaimed: under the same assumption.
- LockSafety.LiveOwnerKeepsLock: under the same assumption.
- LockSafety.RenameIsAtomic: under the same assumption.
- LockSafety.LockedOperationsAreAtomic: under the same assumption.
- LockSafety.OperationIsAtomic: under the same assumption.
- Input-output errors while the lock itself is inspected, linked, unlinked or released: a thread that throws there leaves files behind as if it had stalled.
- Legacy v1 store migration, lock metadata without a process identity, handoff history, activity trace and failure message texts; whether a terminal result is answered from a stored handoff is an input of the step.
- packages/domain/src/integrity.ts, state.ts and models.ts: the integrity verdict on the immutable fields of an authorization is one boolean of it.
- apps/web/lib/verification-agent/store.ts, handoff.ts and orchestrator.ts: a process-local copy of what the durable store guarantees.
- HandoffExactlyOnce.AtMostOneOperation: other clients of the wallet may use references of their own, but never an idempotency key that this service stores, and a listing of more than 4999 transactions throws instead of being complete.
- `localeCompare` is taken as the order of code units; only the order of ties and of listed reserves depends on it.
- Allocation instructions and money amounts are well-formed; their zod refusals are not modelled.
- The derivation of treasury authorities from the initializing actor, and the audit events beyond their ids; audit ids are not unique in the code and nothing relies on that.
- Project and vault ids of stored tranches, which are always the treasury's own.
- An absent and a false observation flag are one value in the canonical approval subject, and reviewer notes are left out.
- The evaluator packet, static mock extraction and draft preparation of the two engines: single-branch checks and projections.
- TrancheOrder.SomeOrderMovesBackwardIff: is about the pending arrivals of the tranche itself; callbacks of other tranches in between could free a transaction hash.
- Texts other than decimal digits that `BigInt` accepts in `decimalToAtomic`: no printed amount contains them.
- UTF-8 encoding before hashing: the hash is modelled on bytes.
- Token comparison in access.ts: authentication is an input of the limiter.
- Seeds, fixtures, mocks, disclosure and release scenarios: fixed data and projections.
