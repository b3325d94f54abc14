# MinaGuard, modelled and verified in Dafny

MinaGuard is a hierarchical multisig on Mina. A contract keeps only commitments (an owner hash chain and
three Merkle roots); off-chain code rebuilds the maps behind those commitments from emitted events, and an
indexer keeps tables of the same history across chain reorganizations. This project models the four parts
and proves what they promise, over every run and every delivery of events. `dafny verify dfyconfig.toml`
checks all of it.

## How the model is built

- **Contract.** `MinaGuard.dfy` is the contract as a class whose methods read prover-supplied paths and
  gapped owner arrays and write state fields. Each method is proved to succeed exactly when a condition on
  owner lists and maps holds (`Can...` in `Guards.dfy`) and to write exactly the state given there
  (`After...`). `Ledger.dfy` composes these over all accounts: a world of guards, balances, signatures,
  slot and block, and a total `Step` over attempted actions. All run theorems quantify over every sequence
  of attempts from an empty ledger with arbitrary balances.
- **Refinement.** `Multisig` says what the owners are promised, in terms of votes cast, executions made and
  what a proposal says, without trees, leaves or prover arguments. `Refinement` proves the contract to be
  that multisig in every reachable ledger, in both directions: what it accepts and what it does.
  `ApprovedEffects` and `EventReports` draw conclusions on configurations, allocations, closed children and
  emitted events.
- **Run theorems.** `GuardInvariant`, `GuardCalls` and `LedgerInvariant` hold the inductive invariant and
  the proof that every call keeps it; `Quorum`, `Executions`, `Money` and `ProposalRecord` draw the
  conclusions.
- **Event sourcing.** `Storage` and `EventRebuild` are the store classes and rebuild loops, specified by
  folds whose laws are in `Sequences`. `EventSourcing`, `EventRoots` and `OwnerReplay` prove that every
  call's events describe its writes; `EventCompleteness` concludes. `RebuildEdges` is about missing and
  unreadable fields and missing rows. `CallGroups` says which events of one call stay together.
  `StoreCheckpoint` is the cache, `LoadSequence` and `SetupBasis` what honest loads leave in it.
- **Indexer.** `EventOrder` (apply order), `ArchiveOrder` (from the archive's answer to chain order),
  `FetchedWindows` (the order of a fetched range), `IndexTables`
  (tables), `Reorg`, `ReorgDetection` (rollback, replay), `ReceiverRows`, `GuardReceivers` (receiver
  rows), `HonestEvents` (what the contract guarantees the indexer), `IndexMeaning`, `ConfigColumns`,
  `IndexedRows`, `RowDetails` (what the tables say about the contract), `IndexedVerdicts`, `Statuses`
  (what is derived from them), `Scanning` (cursor, first scans, coverage,
  fetch chunks).
- **Failing runs.** `ExampleGuard` builds concrete runs of one guard; `EpochExample` and `FailingRuns` use
  it where a property holds only under a condition.
- **Kernels.** `SubmissionCheck` (in-flight limiter) and `Memo` (base58 and memo layout).

Assumptions, all explicit in the definitions:

- Hashes are symbolic. A proposal hash is the proposal, a vote-nullifier key is the pair it hashes, an
  owner commitment is the list it commits to (`Primitives.ChainDeterminesOwners`), and a Merkle root is the map
  of its non-empty leaves; a witness is the rest of such a map plus a key.
- A signature is valid when its signer has made it: membership in a growing set.
- State read from another account is that account's state at the step, as the attached preconditions
  require. Every account with app state runs this contract.
- `nonce`, `parentNonce`, `configNonce` and thresholds are naturals. Approval leaves are field elements
  below the order of the Pallas base field; that a count never reaches the executed marker is proved.
- Times, network answers, SHA-256 and the base58 order of keys are parameters.

Where code and comments disagree the model follows the code: an owner change without a `configNonce` sorts
first, not last, because `Number(null)` is zero (`contracts/src/event-rebuild.ts:103-106`), and a
destroy may send less than the full balance because the amount is supplied by the prover
(`contracts/src/MinaGuard.ts:1584-1591`).

Properties that fail in some runs are stated with their exact condition and a failing input: the latest
snapshot row (`ConfigColumns`, `EpochExample.RowCanBeWrong`), coverage after refused windows
(`Scanning.RefusalRecovered`, `Scanning.RefusalLosesBlocks`), receiver rows of repeated receivers
(`GuardReceivers`, `FailingRuns.EqualReceiversLost`), the increment from a block cut in half
(`LoadSequence.IncrementExactly`, `FailingRuns.CutBlockMissesVote`) and detection when stale events lie
above the new tip (`ReorgDetection.DetectionRewinds`, `ReorgDetection.StaleTipExample`). The increment
from a basis taken before setup fails unless the owner changes make up for the ignored setup rows
(`SetupBasis.BasisBeforeSetup`).

## Model

| member | source | states |
|---|---|---|
| Primitives.ChainDeterminesOwners | contracts/src/hash-domains.ts:4-6 | owner chains and owner lists are in bijection: a commitment fixes the owners and their order |
| Primitives.WitnessOpens | contracts/src/MinaGuard.ts:358-369 | a path that reproduces the stored root can only claim the stored leaf, and writing along it changes that leaf alone |
| ListCommitment.ComputeOwnerChain | contracts/src/list-commitment.ts:9-15 | the fold over a list is the commitment of exactly that list |
| ListCommitment.ComputeSetupOwnersChain | contracts/src/list-commitment.ts:33-41 | the fold over the fixed-size array commits to its active prefix |
| ListCommitment.CoherentSetupOwners | contracts/src/list-commitment.ts:73-94 | accepts exactly arrays with the active slots non-empty, the rest empty and no shared x-coordinate |
| ListCommitment.AssertOwnerMembership | contracts/src/list-commitment.ts:103-117 | accepts exactly a gapped witness that folds to the commitment and lists the key |
| ListCommitment.AddOwnerToCommitment | contracts/src/list-commitment.ts:140-178 | on any gapped witness: the commitment of the list with the insertion, and valid exactly when the fold matches, no x-coordinate repeats and the position exists |
| ListCommitment.AddInsertsOnce | contracts/src/list-commitment.ts:140-178 | on distinct keyholders an accepted addition lands once, at the named place, and keeps them distinct |
| ListCommitment.RemoveOwnerFromCommitment | contracts/src/list-commitment.ts:193-228 | on any gapped witness: the commitment of the list without the key, and valid exactly when the fold matches, the key is listed and someone remains |
| ListCommitment.RemoveTakesOne | contracts/src/list-commitment.ts:193-228 | on distinct keyholders a removal takes out exactly the named key |
| MinaGuardContract.MinaGuard.constructor | contracts/src/MinaGuard.ts:326-333 | a deployed guard is blank and has emitted its deployment |
| MinaGuardContract.MinaGuard.SetupRoot | contracts/src/MinaGuard.ts:709-792 | succeeds exactly on an uninitialized, unreserved guard with valid governance and coherent owners; writes that configuration |
| MinaGuardContract.MinaGuard.ReserveForParent | contracts/src/MinaGuard.ts:809-868 | succeeds exactly under an initialized root parent; pins the parent and the configuration hash and publishes the configuration |
| MinaGuardContract.MinaGuard.ParentApprovalState | contracts/src/MinaGuard.ts:628-671 | accepts exactly a path opening the parent's current approval map at an unexpired, current-epoch proposal with threshold votes |
| MinaGuardContract.MinaGuard.ExecuteSetupChild | contracts/src/MinaGuard.ts:881-944 | succeeds exactly when the approved creation, the reservation and the arguments name one configuration; initializes with it |
| MinaGuardContract.MinaGuard.CheckProposeRules | contracts/src/MinaGuard.ts:974-1090 | the loops over receiver slots decide exactly the shape rules of propose |
| MinaGuardContract.MinaGuard.Propose | contracts/src/MinaGuard.ts:956-1141 | succeeds exactly for a current owner's signed, well-shaped, fresh, unregistered proposal; registers it with one vote and emits its slots |
| MinaGuardContract.MinaGuard.ApproveProposal | contracts/src/MinaGuard.ts:1149-1206 | succeeds exactly for a current owner's first vote on a registered, unexecuted proposal; adds one to its leaf |
| MinaGuardContract.MinaGuard.ExecuteTransfer | contracts/src/MinaGuard.ts:1212-1245 | succeeds exactly on an approved next-nonce TRANSFER; marks it and sends its receivers |
| MinaGuardContract.MinaGuard.ExecuteAllocateToChildren | contracts/src/MinaGuard.ts:1252-1302 | as a transfer, and only when every non-empty recipient is an initialized child of this guard |
| MinaGuardContract.MinaGuard.ChangeOwners | contracts/src/MinaGuard.ts:1334-1364 | running both list edits and selecting one yields the approved list, valid exactly for that edit |
| MinaGuardContract.MinaGuard.ExecuteOwnerChange | contracts/src/MinaGuard.ts:1312-1384 | succeeds exactly when the approved change is possible and keeps the threshold reachable; installs the list and starts an epoch |
| MinaGuardContract.MinaGuard.ExecuteThresholdChange | contracts/src/MinaGuard.ts:1390-1447 | succeeds exactly for an approved threshold between one and the owner count; installs it and starts an epoch |
| MinaGuardContract.MinaGuard.ExecuteDelegate | contracts/src/MinaGuard.ts:1453-1497 | succeeds exactly on an approved SET_DELEGATE; delegates to the target, or to itself for an empty slot |
| MinaGuardContract.MinaGuard.ExecuteReclaimToParent | contracts/src/MinaGuard.ts:1508-1551 | succeeds exactly on a parent-approved, unexecuted, next-nonce reclaim of that amount; pays it to the parent |
| MinaGuardContract.MinaGuard.ExecuteDestroy | contracts/src/MinaGuard.ts:1560-1617 | succeeds exactly on a parent-approved destroy; pays the parent, disables the multisig and starts an epoch |
| MinaGuardContract.MinaGuard.ExecuteEnableChildMultiSig | contracts/src/MinaGuard.ts:1626-1680 | succeeds exactly on a parent-approved flag; sets it, and starts an epoch only when disabling |
| GuardInvariant.CountValue | contracts/src/MinaGuard.ts:1169-1197 | the leaf a vote writes is one more than the voters including it, at most one more than MAX_OWNERS, so it never reaches the executed marker |
| LedgerInvariant.RunKeeps | contracts/src/MinaGuard.ts:719-1680 | every run keeps the ledger invariant and only evolves each guard forward |
| Refinement.AcceptsExactly | contracts/src/MinaGuard.ts:719-1680 | in every reachable ledger a call is accepted exactly when the multisig of its owners permits it: votes by owners of an open account, executions by enough distinct voters, allocations to initialized children, arguments equal to the proposal's data |
| Refinement.ActsExactly | contracts/src/MinaGuard.ts:719-1680 | an accepted call does to its account what the proposal says, whatever else the prover supplied |
| Refinement.StepRefines | contracts/src/MinaGuard.ts:719-1680 | every step of every run is a step of the multisig, and a refused attempt is none |
| Refinement.ShapeIsRules | contracts/src/MinaGuard.ts:974-1090 | the rules of propose, applied slot by slot, are the table of what each proposal type may say |
| ApprovedEffects.ThresholdIsApproved | contracts/src/MinaGuard.ts:1418-1421 | in every run the threshold a change installs is the number its proposal carries |
| ApprovedEffects.FlagIsApproved | contracts/src/MinaGuard.ts:1626-1680 | in every run the flag installed on a child is the number the proposal carries |
| ApprovedEffects.OwnersAreApproved | contracts/src/MinaGuard.ts:1312-1384 | in every run the owner commitment an addition installs is the proposal's data, and a removal leaves out exactly the named owner |
| ApprovedEffects.DelegateIsApproved | contracts/src/MinaGuard.ts:1453-1497 | in every run the delegate installed is the one named, or the guard itself |
| ApprovedEffects.ConfigurationIsApproved | contracts/src/MinaGuard.ts:709-1680 | a reachable guard's owners, threshold, epoch, flag, delegate and executions are what its setup and its executed proposals say, taken in order |
| ApprovedEffects.AllocationsReachChildren | contracts/src/MinaGuard.ts:1276-1293 | whoever an allocation names or pays, other than the guard itself, is an initialized child of the guard |
| ApprovedEffects.ClosedChildRefuses | contracts/src/MinaGuard.ts:404-409 | a child whose flag is not 1 accepts no vote and no execution of its own |
| ApprovedEffects.ClosedChildStandsStill | contracts/src/MinaGuard.ts:404-409 | along any run until its flag is 1 again, a closed child's approvals, nullifiers, nonce, owners, threshold, delegate and parent stay as they are |
| EventReports.EventsTellTheTruth | contracts/src/MinaGuard.ts:115-245 | every accepted call emits all its events, and each reports the state after the call, what was paid and what changed |
| EventReports.RankFollowsLifecycle | backend/src/indexer.ts:1672-1688 | within a block events rank in lifecycle order: deployment, setup, proposal, votes, slots, executions, what they changed, reservations |
| EventReports.AppliedAsEmitted | backend/src/indexer.ts:1672-1688 | within one accepted call the indexer's rank never turns two events around, except a proposal's slots and its first vote |
| Quorum.ExecutionHasQuorum | contracts/src/MinaGuard.ts:551-567 | in every run, whenever any execution is possible, at least threshold current owners of the approving guard, distinct in x, have each voted for and signed exactly that proposal |
| Quorum.VoteCastAtMostOnce | contracts/src/MinaGuard.ts:1091-1115 | in every run each vote is cast successfully at most once, and its nullifier leaf is how often |
| Quorum.LeafCountsVoters | contracts/src/MinaGuard.ts:551-601 | in every reachable state a leaf is zero exactly when nobody voted, else one plus the voters, else executed; executed exactly when it is in the execution history |
| Quorum.LeavesOnlyRise | contracts/src/MinaGuard.ts:597-601 | along every continuation leaves never decrease and an executed leaf stays executed |
| Quorum.RegisteredByPropose | contracts/src/MinaGuard.ts:974-1115 | every nonzero leaf was registered by an earlier successful propose of that hash, which passed all its rules |
| Executions.HistoryIsComplete | contracts/src/MinaGuard.ts:1236-1245 | the execution events of a guard are exactly the successful executions of the run, in order |
| Executions.ExecutionsInOrder | contracts/src/MinaGuard.ts:537-549 | the k-th LOCAL execution on a guard and the k-th lifecycle execution on a child have nonce k, and a child is created at most once |
| Executions.NoDoubleExecution | contracts/src/MinaGuard.ts:597-626 | no proposal is executed twice, on one guard or on two |
| Executions.NonceExecutedOnce | contracts/src/MinaGuard.ts:537-549 | two different proposals with one nonce in one domain are never both executed |
| Executions.RegisteredEpoch | contracts/src/MinaGuard.ts:433-452 | a registered proposal belongs to its guard's current epoch or an earlier one |
| Executions.OldEpochIsDead | contracts/src/MinaGuard.ts:383-387 | a proposal of a left epoch is never voted on or executed again, in any continuation |
| Executions.PendingDiesWithEpoch | contracts/src/MinaGuard.ts:1595-1661 | whatever was pending at an owner or threshold change, a disable or a destroy stays dead, even after re-enabling |
| Executions.HierarchyCapped | contracts/src/MinaGuard.ts:817-835 | a parent is an initialized root in every reachable ledger, REMOTE proposals live on roots only, and an initialized guard has distinct keyholders, an exact count and 1 <= threshold <= count <= 20 |
| Executions.ParentIsForever | contracts/src/MinaGuard.ts:782-791 | an initialized or reserved guard never changes parent, and an initialized one stays so |
| Executions.ChildAllocatesNothing | contracts/src/MinaGuard.ts:1276-1293 | a child's allocation can execute only with all slots empty |
| Executions.ChildConfigurationBound | contracts/src/MinaGuard.ts:881-944 | an initialized child was reserved once, created once and set up once, with one configuration: the published, the hashed and the approved one |
| Executions.ReservationUntouched | contracts/src/MinaGuard.ts:840-868 | between reservation and setup nothing changes the reserved configuration |
| Money.RunConserves | contracts/src/MinaGuard.ts:699-707 | every run conserves the sum of balances |
| Money.ExecutionPaysWhatWasApproved | contracts/src/MinaGuard.ts:1533-1595 | transfers and allocations pay every account exactly the approved amounts addressed to it, a reclaim pays its approved data to the parent, a destroy pays the parent at most the balance, nothing else pays |
| Money.OnlyExecutionsSpend | contracts/src/MinaGuard.ts:699-707 | a guard's balance falls only through its own execution backed by a quorum, by exactly that outflow |
| Money.DisabledChildPaysParent | contracts/src/MinaGuard.ts:404-409 | while a child's multisig is disabled every payment of it goes to its parent |
| ProposalRecord.InvalidatedIsDead | backend/src/proposal-record.ts:77-107 | a proposal reported invalidated from counters that lag the chain is never voted on or executed again |
| ProposalRecord.EarlierStateLags | backend/src/proposal-record.ts:77-107 | counters read in any earlier state of the run lag the chain |
| IndexedVerdicts.IndexLags | backend/src/indexer.ts:906-945 | whatever part of a guard's events was indexed, in whatever order, no counter of the latest snapshot row is ahead of the guard, although the row need not be any state the guard was in |
| IndexedVerdicts.IndexedVerdictIsFinal | backend/src/proposal-record.ts:77-107 | an invalidation reported from any partial index of both guards is final in every continuation |
| ProposalRecord.FinalStatusIsDead | backend/src/proposal-record.ts:116-127 | a proposal reported expired or invalidated is refused by the contract in every continuation |
| Statuses.ReasonExactly | backend/src/proposal-record.ts:77-107 | with the accounts' own counters, the reason is the left epoch exactly when the epoch was left, the overtaken nonce exactly when only the nonce was overtaken, and none otherwise |
| Statuses.ReasonFromRows | backend/src/proposal-record.ts:77-107 | with any rows, each reason is reported exactly when the columns it reads are present and say so; a missing value decides nothing |
| Statuses.StatusExactly | backend/src/proposal-record.ts:116-127 | each of the four statuses is reported exactly under its condition |
| Statuses.ExecutedExactly | backend/src/proposal-record.ts:116-127 | with the executions table of a complete index, a LOCAL proposal is reported executed exactly when its leaf is the executed marker |
| Statuses.PendingExactly | backend/src/proposal-record.ts:116-127 | a registered proposal, LOCAL or REMOTE, is reported pending exactly when it is not executed, of its guard's epoch, on time and ahead of the executions it competes with |
| Statuses.PendingTakesVotes | backend/src/proposal-record.ts:116-127 | a LOCAL proposal is pending exactly when the contract accepts the next owner's vote on it |
| Storage.SortedAddAccepted | contracts/src/storage.ts:46-68 | on a sorted list, inserting behind the sorted predecessor is accepted by the circuit and yields the sorted insertion, sorted again |
| Storage.OwnerStore.AddSorted | contracts/src/storage.ts:46-55 | the list becomes the sorted insertion |
| Storage.OwnerStore.SortedPredecessor | contracts/src/storage.ts:61-68 | the last key that sorts before the target |
| Storage.OwnerStore.InsertAfter | contracts/src/storage.ts:71-81 | refuses exactly a missing key, and on distinct keyholders edits the list as the circuit does |
| Storage.OwnerStore.Remove | contracts/src/storage.ts:83-87 | the list loses exactly that key |
| Storage.OwnerStore.InsertPositionFor | contracts/src/storage.ts:111-124 | a position that reproduces the commitment, or -1 exactly when none does |
| Storage.OwnerStore.CommitmentWithSortedAdd | contracts/src/storage.ts:130-135 | the commitment of the sorted insertion, leaving the store as it was |
| Storage.OwnerStore.GetWitness | contracts/src/storage.ts:137-145 | a witness of circuit size whose fold is the stored list |
| Storage.ApprovalStore.SetCount | contracts/src/storage.ts:183-188 | writes one leaf and keeps every non-empty leaf's key tracked |
| Storage.ApprovalStore.RaiseTo | contracts/src/event-rebuild.ts:128-130 | a leaf becomes the larger of its value and the new one |
| Storage.ApprovalStore.Serialize | contracts/src/storage.ts:202-206 | the serialized entries rewrite to the stored map |
| Storage.WrittenRestores | contracts/src/storage.ts:12-35 | rewriting the tracked leaves in any order restores the map |
| Storage.ApprovalStore.Deserialize | contracts/src/storage.ts:208-215 | the map is recomputed from the entries alone |
| Storage.VoteNullifierStore.Nullify | contracts/src/storage.ts:237-242 | nullifying is idempotent and keeps keys and leaves in step |
| Storage.VoteNullifierStore.Serialize | contracts/src/storage.ts:252-254 | lists every nullified key once |
| Storage.VoteNullifierStore.Deserialize | contracts/src/storage.ts:256-269 | accepts exactly key lists without repetition, and nullifies exactly those keys |
| EventRebuild.ReplayChange | contracts/src/event-rebuild.ts:109-123 | an added owner lands where the emitted commitment says, in sorted order if nowhere fits; a removed one is gone |
| EventRebuild.RebuildOwners | contracts/src/event-rebuild.ts:76-125 | the list is the setup slots, or the given list, with the deduplicated changes replayed in nonce order |
| EventRebuild.ApplyMapEvent | contracts/src/event-rebuild.ts:132-147 | raises exactly the leaf and nullifies exactly the vote the row reports, whatever fields are missing |
| EventRebuild.EmittedRoots | contracts/src/event-rebuild.ts:150-165 | exactly the approval and nullifier roots a block's rows carry |
| EventRebuild.RebuildStores | contracts/src/event-rebuild.ts:170-208 | the maps are the fold of all rows whatever their grouping, and the reported divergence is the first block whose emitted roots all differ from the map after it |
| EventRebuild.RebuildChildExecutionMap | contracts/src/event-rebuild.ts:211-220 | exactly the lifecycle executions are marked executed |
| RebuildEdges.UnreadableNonces | contracts/src/event-rebuild.ts:103-106 | a change without a nonce is replayed as the zeroth, one with an unreadable nonce behind all readable ones |
| RebuildEdges.LegacySetup | contracts/src/event-rebuild.ts:84-97 | without slot numbers the owners are the delivered setup keys, each as often as delivered, in base58 order |
| RebuildEdges.MissingFieldsWriteNothing | contracts/src/event-rebuild.ts:132-148 | a row that lacks a field a map needs writes nothing to that map |
| RebuildEdges.LackingDiverges | contracts/src/event-rebuild.ts:183-206 | a delivery that lacks a write diverges at every later block that carries a root |
| RebuildEdges.DivergenceIsReported | contracts/src/event-rebuild.ts:183-206 | the reported divergence is never later than a block that diverges |
| EventRebuild.AssertStoresMatchChain | contracts/src/event-rebuild.ts:237-252 | accepts exactly stores equal to every known on-chain value |
| Sequences.RaiseAllSame | contracts/src/event-rebuild.ts:128-147 | the leaf-raising fold depends only on which rows arrive, not on order or repetition |
| Sequences.OrderRestored | contracts/src/event-rebuild.ts:97-107 | deduplicating and sorting any delivery restores the true order |
| EventRoots.NoDivergence | contracts/src/event-rebuild.ts:189-205 | no block of a complete delivery diverges: each emitted root folds everything before it and every write is sealed by a root in its block |
| OwnerReplay.ReplayedAsExecuted | contracts/src/MinaGuard.ts:1366-1383 | replaying an emitted owner change does to the list what the contract did |
| EventCompleteness.RebuildIsComplete | contracts/src/event-rebuild.ts:76-220 | in every reachable ledger any delivery of a guard's events rebuilds its owner list in order, its approval, nullifier and child-execution maps, and reports no divergence |
| EventCompleteness.IncrementalIsComplete | contracts/src/event-rebuild.ts:167-173 | the contents of an initialized guard advanced by any delivery of its later events are its contents in the later state |
| StoreCheckpoint.CheckpointStores | contracts/src/store-checkpoint.ts:30-42 | the snapshot restores to the same contents, and is accepted when the list fits the circuit |
| StoreCheckpoint.RestoreStoreCheckpoint | contracts/src/store-checkpoint.ts:45-62 | accepts exactly a well-formed snapshot of this vault consistent with its own roots, recomputed from leaves |
| StoreCheckpoint.CloneStores | contracts/src/store-checkpoint.ts:83-93 | a fresh copy with equal contents |
| StoreCheckpoint.IncrementalStoreCache.Load | contracts/src/store-checkpoint.ts:122-161 | one attempt or two, one exactly when the increment succeeds or there is nothing to start from; returns and records exactly the outcome determined by basis and answers, as a copy independent of the cached entry, which the next load of the key starts from; drops the entry on failure |
| StoreCheckpoint.IncrementalStoreCache.Attempt | contracts/src/store-checkpoint.ts:131-158 | an attempt yields exactly its replay when that matches the chain just read, caches it with the last covered block, and drops the entry otherwise |
| StoreCheckpoint.NewestEntries | contracts/src/store-checkpoint.ts:147-149 | storing makes an entry the newest, keeps one entry per key and at most four |
| StoreCheckpoint.ThroughCovers | contracts/src/store-checkpoint.ts:142-146 | the recorded block is at or above every row and the basis |
| StoreCheckpoint.OutcomeIsOnChain | contracts/src/store-checkpoint.ts:137-141 | whatever basis and answers, a returned result equals a chain state read in that load |
| StoreCheckpoint.IncrementFirst | contracts/src/store-checkpoint.ts:130-158 | a successful increment is the result, whatever a full attempt would have answered |
| StoreCheckpoint.FullOtherwise | contracts/src/store-checkpoint.ts:130-158 | without a basis of a known block the load depends on the full answers alone |
| LoadSequence.EveryLoadDelivers | contracts/src/store-checkpoint.ts:122-161 | whatever basis, right or corrupt, and whatever incremental answer, a load given all events and the chain state returns the guard's contents, and returns and records nothing exactly when the guard is not set up |
| LoadSequence.IncrementExactly | contracts/src/store-checkpoint.ts:131-146 | from what an earlier load recorded, the increment over all rows above the recorded block succeeds exactly when no vote and no execution of the guard was emitted later in that block, and then records the guard through its new last block |
| LoadSequence.NextLoad | contracts/src/store-checkpoint.ts:122-161 | a later load with honest answers always ends with the guard's contents and last block, even when the recorded block was cut |
| LoadSequence.LoadsFollowTheGuard | contracts/src/store-checkpoint.ts:122-161 | however many honest loads there were while the guard moved on, each starting from nothing or from the cached or persisted record of any earlier one, each records exactly the guard it saw, through its last block, and nothing before setup |
| LoadSequence.WholeBlockLeavesNothing | contracts/src/store-checkpoint.ts:132-144 | a load made after the recorded block ended leaves no event behind in it |
| SetupBasis.BasisBeforeSetup | contracts/src/event-rebuild.ts:83-125 | from the contents of a guard before setup the increment succeeds exactly when some owner change left no setup owner behind and reported an owner list in base58 order |
| SetupBasis.BareLacks | contracts/src/event-rebuild.ts:97-125 | replaying a guard's owner changes on no owners gives all its owners but the setup owners never removed, in base58 order unless it gives the guard's own list |
| CallGroups.ReachableGrouped | contracts/src/MinaGuard.ts:1117-1140 | in every reachable ledger a guard's events consist of whole groups: a proposal with its slots and its proposer's approval, an owner change behind its execution, each in one block |
| EventOrder.ReverseEventsWithinEachTx | backend/src/indexer.ts:1630-1644 | computes the grouped reversal |
| EventOrder.ReverseRestores | backend/src/indexer.ts:1630-1644 | the result is a permutation in which each transaction's events are reversed |
| ArchiveOrder.ChainOrderRestored | backend/src/indexer.ts:1630-1644 | restoring an answer that lists transactions in chain order, each newest first, gives the events as they were emitted |
| EventOrder.ApplyOrderRestored | backend/src/indexer.ts:1706-1716 | from newest-first groups the applied list is a permutation sorted by height and lifecycle rank, with each transaction's events of one type in emission order |
| ReceiverRows.RowsFollowSlotOrder | backend/src/indexer.ts:1132-1166 | whatever else the proposing transaction called, a proposal's receiver rows are its non-empty receivers in slot order exactly when no two of them are equal |
| GuardReceivers.ReceiversOfGuard | backend/src/indexer.ts:1132-1166 | the same for any proposal of a reachable guard, with what its chain and transaction hold derived from the contract |
| FailingRuns.EqualReceiversLost | backend/src/indexer.ts:685-702 | a reachable guard whose transfer pays one receiver the same amount twice: after all its events the rows are not the proposal's receivers |
| FailingRuns.CutBlockMissesVote | contracts/src/store-checkpoint.ts:132-146 | a reachable guard loaded in the block in which another owner then voted: the increment fails on honest answers |
| FetchedWindows.FetchedSlice | backend/src/indexer.ts:1672-1716 | restoring and ordering the events fetched for a range of blocks gives that range's slice of the whole chain's apply order |
| IndexMeaning.TablesTrackGuard | backend/src/indexer.ts:1040-1300 | after all events of a reachable guard, the proposal, approval and execution tables hold exactly the registered proposals, the votes cast and the executed proposals |
| IndexedRows.MembersTrackGuard | backend/src/indexer.ts:985-1010 | after all events of a reachable guard in chain order, a key is an owner exactly when its latest membership row says added; the row carries the kind, slot and block of the last event about the key, also with several owner changes in one block |
| IndexedRows.MemberRight | backend/src/indexer.ts:1358-1385 | in any order of delivery the latest row is right exactly when the last applied event about the key is of the kind of the last emitted one |
| IndexedRows.DelegateTracksGuard | backend/src/indexer.ts:1434-1455 | the delegate column of the latest snapshot row is the guard's delegate, and empty until it has one |
| RowDetails.RowsCarryEvents | backend/src/indexer.ts:1040-1330 | every proposal, approval, execution and membership row carries the proposer, count, kind, slot, block, transaction and memo of its event, and targets mirror the first receiver |
| RowDetails.ReproposalRefreshesMemo | backend/src/indexer.ts:1040-1100 | a proposal emitted once more by another transaction refreshes its memo and nothing else |
| ConfigColumns.RowShowsDecisive | backend/src/indexer.ts:906-945 | in whatever order transactions are delivered, each column of the latest snapshot row shows what its decisive event carries: in the last block with carriers, of the highest rank there, the last |
| ConfigColumns.EpochRight | backend/src/indexer.ts:906-945 | the epoch column is the guard's exactly when no epoch was started behind its decisive event |
| ConfigColumns.NonceRight | backend/src/indexer.ts:906-945 | the nonce column is the guard's exactly when no LOCAL execution was emitted behind its decisive event |
| ConfigColumns.ColumnsRight | backend/src/indexer.ts:906-945 | with transactions delivered in chain order, threshold, owners, owner count, nonce and multisig flag are always the guard's |
| ConfigColumns.LatestRowTracksGuard | backend/src/indexer.ts:906-945 | with transactions delivered in chain order, the latest snapshot row has the guard's threshold, owners, owner count, nonce, epoch and multisig flag exactly when no epoch was started behind the decisive epoch event |
| EpochExample.RowCanBeWrong | backend/src/indexer.ts:1672-1716 | a reachable guard whose latest row is wrong: a threshold change, then an owner change approved anew in the same block, leave the older epoch in the row |
| HonestEvents.DeliveredIsHonest | contracts/src/MinaGuard.ts:1117-1140 | any delivery of a reachable guard's events has one proposal per hash, one approval per voter, one execution per hash, and slots in their proposal's block |
| Reorg.RereadChangesNothing | backend/src/indexer.ts:685-702 | events already recorded change nothing, at whatever batch position |
| Reorg.WindowExtends | backend/src/indexer.ts:685-769 | tables holding a chain through a block, given any overlapping window, hold it through the window's end |
| Reorg.RollbackRewinds | backend/src/indexer.ts:1858-1885 | rolling back tables holding an honest chain leaves exactly the chain through the fork |
| ReorgDetection.Index.SyncEvents | backend/src/indexer.ts:685-702 | the tables become those after the fetched events, restored and ordered, each applied once in that order |
| ReorgDetection.Index.RollbackAboveFork | backend/src/indexer.ts:1858-1885 | in every table a row stays exactly when its block is at or below the fork and its proposal stays, in the order it had; the cursor is the fork |
| ReorgDetection.Index.DetectAndRollbackReorg | backend/src/indexer.ts:1760-1835 | reports nothing exactly when every conflicting header lies below an agreed one; else rolls back to the highest agreed height, or below the lowest conflict |
| ReorgDetection.SecondDetectionIsQuiet | backend/src/indexer.ts:1760-1835 | a second detection on the same headers reports nothing |
| ReorgDetection.ForkReported | backend/src/indexer.ts:1760-1835 | a fork is reported exactly when an indexed event lies on a compared block that the chains do not share |
| ReorgDetection.DetectionRewinds | backend/src/indexer.ts:1760-1885 | after detection the tables hold exactly what both chains share if and only if some indexed event lies on a compared block not shared, or none lies above the compared blocks |
| ReorgDetection.StaleTipExample | backend/src/indexer.ts:1760-1835 | a two-event chain above a shorter tip: nothing is reported and the upper event stays in the tables |
| ReorgDetection.ReorgReconstructs | backend/src/indexer.ts:1760-1885 | detection, rollback and applying a freshly fetched range turn the tables of one chain into the tables of the other as indexed from empty |
| Scanning.FetchRange | backend/src/mina-client.ts:678-708 | refuses exactly invalid ranges; otherwise contiguous chunks of at most 5,000 blocks |
| Scanning.ChunksPartition | backend/src/mina-client.ts:690-708 | the chunks partition the range: each block is in exactly one chunk |
| Scanning.Scanner.ScanStep | backend/src/indexer.ts:565-587 | one step continues, finishes with everything from start to tip read, or leaves the scan as it was |
| Scanning.Scanner.FirstScan | backend/src/indexer.ts:555-587 | contiguous bounded steps within the budget; a finished scan has read every block from its start to the tip |
| Scanning.Scanner.RescanUnready | backend/src/indexer.ts:534-589 | at most five requests over all vaults, nothing read is forgotten, every finished scan covers its range |
| Scanning.Scanner.RolledBack | backend/src/indexer.ts:275-286 | scans, cursor and coverage go back with the fork, and every coverage stays exact |
| Scanning.Scanner.ScannedExactly | backend/src/indexer.ts:253-404 | in every state of the scanner a scanned contract has read every block through a height exactly up to the height recorded for it |
| Scanning.Scanner.Tick | backend/src/indexer.ts:253-404 | the cursor moves back only by a rollback and forward only to the tip when every sync returned; coverage and cursor of every scanned contract follow the tick as it saw it, failed or not; who read the window is then complete through the tip exactly when complete up to the window |
| Scanning.WindowOverlaps | backend/src/indexer.ts:291-294 | the replay window reaches the indexed height exactly when the cursor is at or above the configured start |
| Scanning.WindowCompletes | backend/src/indexer.ts:291-304 | after an answered window a contract is complete through the tip exactly when its earlier coverage reached the block before the window |
| Scanning.CompleteExactly | backend/src/indexer.ts:253-404 | over any run of ticks, answered or refused, successful, failed or rolling back, a scanned contract has read every block through a height exactly up to the height recorded as complete |
| Scanning.RefusalRecovered | backend/src/indexer.ts:291-304 | after any run of ticks without a rollback that ends with an answered window, a contract is complete through the tip exactly when, before every answered window, the cursor was at most 290 blocks above the highest tip answered before |
| Scanning.RefusalLosesBlocks | backend/src/indexer.ts:291-304 | a run that loses blocks: a refusal of a thousand blocks leaves 710 unread |
| SubmissionCheck.SubmissionCheckLimiter.Run | backend/src/submission-check.ts:100-122 | shares exactly a running identical report, starts exactly within both limits, keeps every counter exact |
| SubmissionCheck.SubmissionCheckLimiter.Settle | backend/src/submission-check.ts:113-119 | a settlement removes exactly its check and keeps every counter exact |
| SubmissionCheck.StartKeeps | backend/src/submission-check.ts:108-112 | starting within the limits keeps total, per-proposal counters and their sum equal to the running checks |
| SubmissionCheck.SettleKeeps | backend/src/submission-check.ts:113-119 | settling keeps them equal and drops a counter that reaches zero |
| SubmissionCheck.IdleIsZero | backend/src/submission-check.ts:95-119 | once all checks have settled the total is zero and no counter is stored |
| Memo.MultiplyAdd | contracts/src/memo.ts:19-24 | one pass multiplies by 58 and adds, with the carry at most 57 between bytes |
| Memo.Base58Decode | contracts/src/memo.ts:12-34 | fails exactly on foreign characters, else returns a zero byte per leading '1' and the shortest bytes of the number, zero taking one byte |
| Memo.DecodingIsExact | contracts/src/memo.ts:12-34 | the bytes denote the string's number; their count is leading '1's plus the shortest length exactly when the string has another character |
| Memo.AlphabetIsBase58 | contracts/src/memo.ts:10 | exactly digits and letters without 0, I, O and l have a digit, larger for later characters |
| Memo.Base58IsInjective | contracts/src/memo.ts:12-34 | different strings over the alphabet decode to different bytes |
| Memo.DecodeInvertsEncode | contracts/src/memo.ts:12-34 | decoding the base58 form of bytes with a non-zero first byte gives the bytes back |
| Memo.DecodeTxMemo | contracts/src/memo.ts:38-64 | accepts exactly the 39-byte memo layout and returns its content bytes |
| Memo.MemoLayout | contracts/src/memo.ts:36-64 | the accepted layout position by position: version, tag, length, content, zeros, checksum |
| Memo.MemoRoundTrip | contracts/src/memo.ts:38-64 | decoding the base58 form of any memo of at most 32 bytes gives its content back |

## Left out

- Poseidon, Merkle trees, Schnorr signatures, curve membership of keys, proof generation and SHA-256 are replaced by the symbolic assumptions above; leaving out the curve check only adds runs to those the theorems cover.
- Which assertion fails first, and every error message, is not modelled: a failed check is one refusal.
- Account permissions, verification keys and their migration are not modelled, nor are transaction fees.
- Wrap-around of `nonce`, `parentNonce` and `configNonce` at the field order is not modelled.
- JavaScript number precision above 2^53 and non-integer block heights are not modelled.
- Legacy batch event names are not modelled; setup rows without an index are.
- Accounts with app state that do not run this contract, such as a fake parent, are not modelled: every account read as a guard is one.
- The backfill of a contract found by full-mode discovery is not modelled: contracts are subscribed and then scanned.
- REMOTE executions in the indexer, which look up the parent's tables, are not modelled, so the reorganization theorem is about one contract and its own proposals.
- ReorgDetection.ReorgReconstructs: speaks of the height-tagged tables up to the absolute order column; the contract row (parent, ready flags), execution memo hashes and submission tracking are not rolled back by the source and are not part of the tables.
- IndexedRows.MembersTrackGuard: a membership row's event order is not a column of the model; rows stand in the order of blocks and of events within a block.
- IndexTables.ApplyEvent: a setup owner without a preceding setup event would fetch the configuration from the chain; that fallback is not modelled.
- Failed or malformed events (quarantine and retry of one event's transaction) are not modelled: every event applies.
- Scanning.Scanner.Tick: gap-freeness is not promised for a contract refused longer than the replay window, because the cursor moves on as in the source; `Scanning.RefusalRecovered` has the exact condition.
- ListCommitment.CoherentSetupOwners: does not check that active slots are curve points, because keys are symbolic.
- MinaGuardContract.MinaGuard.ReserveForParent: does not check that the parent address is a curve point, because keys are symbolic; the free hash argument, an arbitrary field in the source, is typed as a proposal.
- MinaGuardContract.MinaGuard.CheckProposeRules: does not check that receivers are curve points, because keys are symbolic.
- ConfigColumns.LatestRowTracksGuard: leaves out the delegate column, for which see `IndexedRows.DelegateTracksGuard`, and the parentNonce column; it is about transactions delivered in chain order; for other orders `ConfigColumns.RowShowsDecisive`, `EpochRight` and `NonceRight` say what each column shows.
- A report's limiter key is the triple it joins; actions contain no separator, so the joined string determines it.
- Concurrent loads of one cache key are serialized by the source; the model has single loads, and write failures of the optional snapshot have no effect.
- Prisma, GraphQL, routing, configuration, offline request building, the user interface and deployment are not modelled.
