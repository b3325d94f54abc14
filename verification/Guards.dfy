/**
 One MinaGuard account: its stored state, the proposals it votes on, the events it emits, and for
 every contract method the condition under which a proof exists and the state it writes.

 A proposal hash is represented by the proposal it hashes, a vote-nullifier key by the pair it
 hashes. A state read attached to a foreign account is a parameter holding that account's state.
 */
module Guards {
  import opened Primitives
  import opened ListCommitment

  const TRANSFER: nat := 0
  const ADD_OWNER: nat := 1
  const REMOVE_OWNER: nat := 2
  const CHANGE_THRESHOLD: nat := 3
  const SET_DELEGATE: nat := 4
  const CREATE_CHILD: nat := 5
  const ALLOCATE_CHILD: nat := 6
  const RECLAIM_CHILD: nat := 7
  const DESTROY_CHILD: nat := 8
  const ENABLE_CHILD_MULTI_SIG: nat := 9

  const LOCAL: nat := 0
  const REMOTE: nat := 1
  const NATIVE_TOKEN_ID: nat := 1

  datatype Receiver = Receiver(address: PublicKey, amount: nat)

  datatype Proposal = Proposal(
    receivers: seq<Receiver>, tokenId: nat, txType: nat, data: Field, memoHash: nat, nonce: nat,
    configNonce: nat, expirySlot: nat, guardAddress: PublicKey, destination: nat, childAccount: PublicKey)

  /** What the struct type itself guarantees: nine receiver slots with 64-bit amounts. */
  predicate WellFormed(p: Proposal) {
    |p.receivers| == MAX_RECEIVERS && forall r :: r in p.receivers ==> r.amount <= UINT64_MAX
  }

  datatype VoteKey = VoteKey(hash: Proposal, voter: PublicKey)

  datatype SignedAction = ForPropose | ForApprove

  /** A Schnorr signature over proposalSigningMessage(hash, action); equality is verification. */
  datatype Signature = Signature(signer: PublicKey, hash: Proposal, action: SignedAction)

  datatype Payment = Payment(to: PublicKey, amount: nat)

  datatype Event =
    | Deployed
    | Setup(owners: seq<PublicKey>, threshold: nat, numOwners: nat, parent: PublicKey)
    | SetupOwner(owner: PublicKey, index: nat)
    | Proposed(hash: Proposal, proposer: PublicKey)
    | ReceiverSlot(hash: Proposal, receiver: PublicKey, amount: nat)
    | Approval(hash: Proposal, approver: PublicKey, approvalCount: nat,
               approvalRoot: map<Proposal, nat>, voteNullifierRoot: map<VoteKey, nat>)
    | Execution(hash: Proposal, txType: nat, root: map<Proposal, nat>)
    | OwnerChange(hash: Proposal, owner: PublicKey, added: bool, newNumOwners: int,
                  newOwners: seq<PublicKey>, configNonce: nat)
    | ThresholdChange(hash: Proposal, oldThreshold: nat, newThreshold: nat, configNonce: nat)
    | Delegate(hash: Proposal, delegate: PublicKey)
    | CreateChild(hash: Proposal, parent: PublicKey)
    | ReclaimChild(hash: Proposal, parent: PublicKey, amount: nat)
    | EnableChildMultiSig(hash: Proposal, parent: PublicKey, enabled: nat, configNonce: nat)
    | CreateChildConfig(hash: Proposal, childAccount: PublicKey, owners: seq<PublicKey>, threshold: nat, numOwners: nat)
    | CreateChildOwner(hash: Proposal, owner: PublicKey, index: nat)

  /** An event with the height of the block that included it. */
  datatype Emitted = Emitted(event: Event, height: nat)

  /** The twelve state fields, the account's delegate, and the events emitted so far. */
  datatype Guard = Guard(
    ownersCommitment: Field,
    threshold: nat,
    numOwners: nat,
    nonce: nat,
    voteNullifiers: map<VoteKey, nat>,
    approvals: map<Proposal, nat>,
    configNonce: nat,
    parent: PublicKey,
    parentNonce: nat,
    childExecutions: map<Proposal, nat>,
    childMultiSigEnabled: nat,
    reservedConfigHash: Field,
    delegate: PublicKey,
    events: seq<Emitted>)

  /** A freshly deployed account, and also what a read of an account without app state returns. */
  const BLANK: Guard :=
    Guard(ZERO, 0, 0, 0, map[], map[], 0, EMPTY_KEY, 0, map[], 0, ZERO, EMPTY_KEY, [])

  predicate Initialized(g: Guard) { g.ownersCommitment != ZERO }

  /** The current owner list. */
  function OwnerList(g: Guard): (s: seq<PublicKey>)
  {
    if g.ownersCommitment.OwnersHash? then g.ownersCommitment.owners else []
  }

  function Stamp(es: seq<Event>, height: nat): (r: seq<Emitted>)
    ensures |r| == |es|
    ensures forall i :: 0 <= i < |r| ==> r[i] == Emitted(es[i], height)
  {
    seq(|es|, i requires 0 <= i < |es| => Emitted(es[i], height))
  }

  function Emit(g: Guard, es: seq<Event>, height: nat): (r: Guard)
  {
    g.(events := g.events + Stamp(es, height))
  }

  // ---- shared checks ----

  /** assertChildMultiSigEnabledIfChild */
  predicate MultiSigOpen(g: Guard) { g.parent == EMPTY_KEY || g.childMultiSigEnabled == 1 }

  /** assertValidProposalConfigNetworkAndGuard */
  predicate BoundTo(p: Proposal, configNonce: nat, guard: PublicKey) {
    p.configNonce == configNonce && p.guardAddress == guard
  }

  predicate DestinationOk(p: Proposal, parent: PublicKey) {
    && (p.destination == LOCAL || p.destination == REMOTE)
    && (p.destination == REMOTE || p.childAccount == EMPTY_KEY)
    && (p.destination == LOCAL || p.childAccount != EMPTY_KEY)
    && (p.destination == LOCAL || parent == EMPTY_KEY)
  }

  predicate NotExpired(p: Proposal, slot: nat) {
    p.expirySlot <= UINT32_MAX && slot <= (if p.expirySlot == 0 then UINT32_MAX else p.expirySlot)
  }

  /** The account whose nonce orders a proposal. */
  function NonceAuthority(self: PublicKey, p: Proposal): (a: PublicKey)
  {
    if p.destination == REMOTE && p.txType != CREATE_CHILD then p.childAccount else self
  }

  predicate FreshNonce(self: PublicKey, g: Guard, authority: Guard, p: Proposal) {
    var remoteNonCreate := p.destination == REMOTE && p.txType != CREATE_CHILD;
    && (remoteNonCreate ==> Initialized(authority) && authority.parent == self)
    && (|| (p.destination == LOCAL && p.nonce > g.nonce)
        || (remoteNonCreate && p.nonce > authority.parentNonce)
        || (p.destination == REMOTE && p.txType == CREATE_CHILD && p.nonce == 0))
  }

  /** Registered, not executed, and approved by at least `threshold` votes. */
  predicate Approved(g: Guard, p: Proposal) {
    var count := Leaf(g.approvals, p);
    count != EXECUTED_MARKER && count >= PROPOSED_MARKER && count >= g.threshold + PROPOSED_MARKER
  }

  predicate ParentApproved(parent: Guard, parentAddress: PublicKey, p: Proposal, slot: nat) {
    && Initialized(parent)
    && BoundTo(p, parent.configNonce, parentAddress)
    && NotExpired(p, slot)
    && Approved(parent, p)
  }

  predicate ValidInitialGovernance(threshold: nat, numOwners: nat) {
    0 < threshold <= numOwners <= MAX_OWNERS
  }

  // ---- propose rules ----

  predicate LocalType(t: nat) {
    t == TRANSFER || t == CHANGE_THRESHOLD || t == ADD_OWNER || t == REMOVE_OWNER || t == SET_DELEGATE
    || t == ALLOCATE_CHILD
  }

  predicate LifecycleType(t: nat) { t == RECLAIM_CHILD || t == DESTROY_CHILD || t == ENABLE_CHILD_MULTI_SIG }

  predicate RemoteType(t: nat) { t == CREATE_CHILD || LifecycleType(t) }

  predicate TransferLike(t: nat) { t == TRANSFER || t == ALLOCATE_CHILD }

  /** The rules of propose() that depend on the proposal alone. */
  predicate ProposeRules(p: Proposal)
    requires WellFormed(p)
  {
    var slot0Empty := p.receivers[0].address == EMPTY_KEY;
    && ((LocalType(p.txType) && p.destination == LOCAL) || (RemoteType(p.txType) && p.destination == REMOTE))
    && (p.txType == ADD_OWNER || p.txType == REMOVE_OWNER ==> !slot0Empty)
    && (p.txType == CHANGE_THRESHOLD || RemoteType(p.txType) ==> slot0Empty)
    && (TransferLike(p.txType) || forall i :: 1 <= i < MAX_RECEIVERS ==> p.receivers[i].address == EMPTY_KEY)
    && (TransferLike(p.txType) || forall i :: 0 <= i < MAX_RECEIVERS ==> p.receivers[i].amount == 0)
    && (p.txType in {CHANGE_THRESHOLD, CREATE_CHILD, RECLAIM_CHILD, ENABLE_CHILD_MULTI_SIG, ADD_OWNER}
        || p.data == ZERO)
    && (p.txType == ADD_OWNER ==> p.data != ZERO)
    && (p.txType == ENABLE_CHILD_MULTI_SIG ==> p.data == Num(0) || p.data == Num(1))
    && p.tokenId == NATIVE_TOKEN_ID
    && (forall i :: 0 <= i < MAX_RECEIVERS && p.receivers[i].address == EMPTY_KEY ==> p.receivers[i].amount == 0)
  }

  /** The one rule that also reads the guard: a threshold between 1 and the owner count. */
  predicate ThresholdRule(p: Proposal, numOwners: nat) {
    p.txType == CHANGE_THRESHOLD ==> p.data.Num? && 0 < p.data.n <= numOwners
  }

  // ---- setup, reserve, setup of a child ----

  function SetupOwnerEvents(owners: seq<PublicKey>, numOwners: nat): (es: seq<Event>)
    ensures |es| == |owners|
    ensures forall i :: 0 <= i < |es| ==> es[i] == SetupOwner(if i < numOwners then owners[i] else EMPTY_KEY, i)
  {
    seq(|owners|, i requires 0 <= i < |owners| => SetupOwner(if i < numOwners then owners[i] else EMPTY_KEY, i))
  }

  function Initialize(g: Guard, threshold: nat, numOwners: nat, parent: PublicKey, owners: seq<PublicKey>,
                      height: nat): (r: Guard)
  {
    var commitment := Active(owners, numOwners);
    Emit(g.(ownersCommitment := OwnersHash(commitment), threshold := threshold, numOwners := numOwners, nonce := 0,
            approvals := map[], voteNullifiers := map[], parent := parent, parentNonce := 0,
            childExecutions := map[], childMultiSigEnabled := 1),
         [Setup(commitment, threshold, numOwners, parent)] + SetupOwnerEvents(owners, numOwners), height)
  }

  predicate CanInitialize(g: Guard, threshold: nat, numOwners: nat, owners: seq<PublicKey>) {
    && |owners| == MAX_OWNERS
    && !Initialized(g)
    && ValidInitialGovernance(threshold, numOwners)
    && Coherent(owners, numOwners)
  }

  predicate CanSetup(g: Guard, threshold: nat, numOwners: nat, owners: seq<PublicKey>) {
    g.parent == EMPTY_KEY && CanInitialize(g, threshold, numOwners, owners)
  }

  predicate CanReserve(self: PublicKey, g: Guard, parentAddress: PublicKey, parent: Guard,
                       threshold: nat, numOwners: nat, owners: seq<PublicKey>) {
    && CanInitialize(g, threshold, numOwners, owners)
    && g.parent == EMPTY_KEY
    && parentAddress != EMPTY_KEY
    && parentAddress != self
    && Initialized(parent)
    && parent.parent == EMPTY_KEY
  }

  function CreateChildOwnerEvents(hash: Proposal, owners: seq<PublicKey>, numOwners: nat): (es: seq<Event>)
    ensures |es| == |owners|
    ensures forall i ::
              0 <= i < |es| ==> es[i] == CreateChildOwner(hash, if i < numOwners then owners[i] else EMPTY_KEY, i)
  {
    seq(|owners|, i requires 0 <= i < |owners| =>
        CreateChildOwner(hash, if i < numOwners then owners[i] else EMPTY_KEY, i))
  }

  function AfterReserve(self: PublicKey, g: Guard, parentAddress: PublicKey, hash: Proposal,
                        threshold: nat, numOwners: nat, owners: seq<PublicKey>, height: nat): (r: Guard)
  {
    var commitment := Active(owners, numOwners);
    Emit(g.(parent := parentAddress, reservedConfigHash := ConfigHash(commitment, threshold, numOwners)),
         [CreateChildConfig(hash, self, commitment, threshold, numOwners)]
         + CreateChildOwnerEvents(hash, owners, numOwners),
         height)
  }

  predicate CanSetupChild(self: PublicKey, g: Guard, parent: Guard, threshold: nat, numOwners: nat,
                          owners: seq<PublicKey>, p: Proposal, slot: nat) {
    && CanInitialize(g, threshold, numOwners, owners)
    && p.guardAddress != EMPTY_KEY
    && g.parent == p.guardAddress
    && p.txType == CREATE_CHILD
    && p.destination == REMOTE
    && p.childAccount == self
    && p.nonce == 0
    && p.data == ConfigHash(Active(owners, numOwners), threshold, numOwners)
    && g.reservedConfigHash == p.data
    && ParentApproved(parent, p.guardAddress, p, slot)
  }

  function AfterSetupChild(g: Guard, threshold: nat, numOwners: nat, owners: seq<PublicKey>, p: Proposal,
                           height: nat): (r: Guard)
  {
    Emit(Initialize(g, threshold, numOwners, p.guardAddress, owners, height).(reservedConfigHash := ZERO),
         [Execution(p, p.txType, map[]), CreateChild(p, p.guardAddress)], height)
  }

  // ---- votes ----

  /** What propose() and approveProposal() check in common. */
  predicate CanVote(self: PublicKey, g: Guard, authority: Guard, p: Proposal, voter: PublicKey, slot: nat) {
    && WellFormed(p)
    && MultiSigOpen(g)
    && Initialized(g)
    && voter in OwnerList(g)
    && BoundTo(p, g.configNonce, self)
    && DestinationOk(p, g.parent)
    && NotExpired(p, slot)
    && FreshNonce(self, g, authority, p)
    && Leaf(g.voteNullifiers, VoteKey(p, voter)) == 0
  }

  predicate CanPropose(self: PublicKey, g: Guard, authority: Guard, p: Proposal, proposer: PublicKey, slot: nat) {
    && CanVote(self, g, authority, p, proposer, slot)
    && ProposeRules(p)
    && ThresholdRule(p, g.numOwners)
    && Leaf(g.approvals, p) == 0
  }

  predicate CanApprove(self: PublicKey, g: Guard, authority: Guard, p: Proposal, approver: PublicKey, slot: nat) {
    && CanVote(self, g, authority, p, approver, slot)
    && Leaf(g.approvals, p) != EXECUTED_MARKER
    && Leaf(g.approvals, p) >= PROPOSED_MARKER
  }

  function ReceiverEvents(p: Proposal): (es: seq<Event>)
    ensures |es| == |p.receivers|
    ensures forall i ::
              0 <= i < |es| ==> es[i] == ReceiverSlot(p, p.receivers[i].address, EffectiveAmount(p.receivers[i]))
  {
    seq(|p.receivers|, i requires 0 <= i < |p.receivers| =>
        ReceiverSlot(p, p.receivers[i].address, EffectiveAmount(p.receivers[i])))
  }

  function EffectiveAmount(r: Receiver): nat { if r.address == EMPTY_KEY then 0 else r.amount }

  function Count(g: Guard, p: Proposal, voter: PublicKey, count: nat): (r: Guard)
  {
    g.(approvals := Put(g.approvals, p, count), voteNullifiers := Put(g.voteNullifiers, VoteKey(p, voter), 1))
  }

  function AfterPropose(g: Guard, p: Proposal, proposer: PublicKey, height: nat): (r: Guard)
  {
    var r := Count(g, p, proposer, PROPOSED_MARKER + 1);
    Emit(r, [Proposed(p, proposer)] + ReceiverEvents(p)
            + [Approval(p, proposer, PROPOSED_MARKER + 1, r.approvals, r.voteNullifiers)], height)
  }

  /** The count is a field element: it would wrap at the field order. */
  function AfterApprove(g: Guard, p: Proposal, approver: PublicKey, height: nat): (r: Guard)
  {
    var count := FieldSucc(Leaf(g.approvals, p));
    var r := Count(g, p, approver, count);
    Emit(r, [Approval(p, approver, count, r.approvals, r.voteNullifiers)], height)
  }

  // ---- LOCAL executions ----

  predicate CanExecuteLocal(self: PublicKey, g: Guard, p: Proposal, slot: nat) {
    && WellFormed(p)
    && MultiSigOpen(g)
    && Initialized(g)
    && p.destination == LOCAL
    && BoundTo(p, g.configNonce, self)
    && NotExpired(p, slot)
    && Approved(g, p)
    && p.nonce == g.nonce + 1
  }

  function MarkExecuted(g: Guard, p: Proposal): (r: Guard)
  {
    g.(nonce := g.nonce + 1, approvals := Put(g.approvals, p, EXECUTED_MARKER))
  }

  function Executed(g: Guard, p: Proposal): (e: Event) { Execution(p, p.txType, MarkExecuted(g, p).approvals) }

  predicate CanTransfer(self: PublicKey, g: Guard, p: Proposal, slot: nat) {
    p.txType == TRANSFER && CanExecuteLocal(self, g, p, slot)
  }

  predicate CanAllocate(self: PublicKey, g: Guard, p: Proposal, recipients: seq<Guard>, slot: nat) {
    && p.txType == ALLOCATE_CHILD
    && CanExecuteLocal(self, g, p, slot)
    && |recipients| == MAX_RECEIVERS
    && forall i :: 0 <= i < MAX_RECEIVERS && p.receivers[i].address != EMPTY_KEY ==>
         Initialized(recipients[i]) && recipients[i].parent == self
  }

  /** executeTransfer and executeAllocateToChildren write the same state. */
  function AfterTransfer(g: Guard, p: Proposal, height: nat): (r: Guard)
  {
    Emit(MarkExecuted(g, p), [Executed(g, p)], height)
  }

  function Payments(self: PublicKey, p: Proposal): (ps: seq<Payment>)
    ensures |ps| == |p.receivers|
    ensures forall i :: 0 <= i < |ps| ==>
              ps[i] == Payment(if p.receivers[i].address == EMPTY_KEY then self else p.receivers[i].address,
                               EffectiveAmount(p.receivers[i]))
  {
    seq(|p.receivers|, i requires 0 <= i < |p.receivers| =>
      Payment(if p.receivers[i].address == EMPTY_KEY then self else p.receivers[i].address,
              EffectiveAmount(p.receivers[i])))
  }

  function Target(p: Proposal): PublicKey
    requires WellFormed(p)
  {
    p.receivers[0].address
  }

  function ChangedOwners(g: Guard, p: Proposal, insertAfter: Option<PublicKey>): (s: seq<PublicKey>)
    requires WellFormed(p)
  {
    if p.txType == REMOVE_OWNER then Without(OwnerList(g), Target(p)) else Insert(OwnerList(g), Target(p), insertAfter)
  }

  function ChangedCount(g: Guard, p: Proposal): int {
    if p.txType == REMOVE_OWNER then g.numOwners - 1 else g.numOwners + 1
  }

  predicate CanChangeOwner(self: PublicKey, g: Guard, p: Proposal, insertAfter: Option<PublicKey>, slot: nat) {
    && (p.txType == ADD_OWNER || p.txType == REMOVE_OWNER)
    && CanExecuteLocal(self, g, p, slot)
    && g.ownersCommitment.OwnersHash?
    && g.threshold <= ChangedCount(g, p) <= MAX_OWNERS
    && (if p.txType == REMOVE_OWNER
        then Target(p) in OwnerList(g) && ChangedOwners(g, p, insertAfter) != []
        else && AddAccepted(OwnerList(g), Target(p), insertAfter)
             && p.data == OwnersHash(ChangedOwners(g, p, insertAfter)))
  }

  /** A governance execution installs a configuration and starts the next epoch. */
  function Reconfigured(g: Guard, p: Proposal, ownersCommitment: Field, threshold: nat, numOwners: nat, notice: Event,
                        height: nat): (r: Guard)
  {
    Emit(MarkExecuted(g, p).(ownersCommitment := ownersCommitment, threshold := threshold, numOwners := numOwners,
                             configNonce := g.configNonce + 1), [Executed(g, p), notice], height)
  }

  function AfterOwnerChange(g: Guard, p: Proposal, insertAfter: Option<PublicKey>, height: nat): (r: Guard)
    requires WellFormed(p) && ChangedCount(g, p) >= 0
  {
    var commitment := ChangedOwners(g, p, insertAfter);
    Reconfigured(g, p, OwnersHash(commitment), g.threshold, ChangedCount(g, p),
      OwnerChange(p, Target(p), p.txType == ADD_OWNER, ChangedCount(g, p), commitment, g.configNonce + 1), height)
  }

  predicate CanChangeThreshold(self: PublicKey, g: Guard, p: Proposal, newThreshold: nat, slot: nat) {
    && p.txType == CHANGE_THRESHOLD
    && CanExecuteLocal(self, g, p, slot)
    && p.data == Num(newThreshold)
    && 0 < newThreshold <= g.numOwners
  }

  function AfterThresholdChange(g: Guard, p: Proposal, newThreshold: nat, height: nat): (r: Guard)
  {
    Reconfigured(g, p, g.ownersCommitment, newThreshold, g.numOwners,
      ThresholdChange(p, g.threshold, newThreshold, g.configNonce + 1), height)
  }

  predicate CanDelegate(self: PublicKey, g: Guard, p: Proposal, slot: nat) {
    p.txType == SET_DELEGATE && CanExecuteLocal(self, g, p, slot)
  }

  function AfterDelegate(self: PublicKey, g: Guard, p: Proposal, height: nat): (r: Guard)
    requires WellFormed(p)
  {
    var target := if Target(p) == EMPTY_KEY then self else Target(p);
    Emit(MarkExecuted(g, p).(delegate := target), [Executed(g, p), Delegate(p, target)], height)
  }

  // ---- REMOTE executions, run on the child ----

  predicate CanExecuteRemote(self: PublicKey, g: Guard, parent: Guard, p: Proposal, slot: nat) {
    && Initialized(g)
    && p.destination == REMOTE
    && p.childAccount == self
    && g.parent != EMPTY_KEY
    && ParentApproved(parent, g.parent, p, slot)
    && Leaf(g.childExecutions, p) == 0
    && p.nonce == g.parentNonce + 1
  }

  function MarkChildExecuted(g: Guard, p: Proposal): (r: Guard)
  {
    g.(parentNonce := g.parentNonce + 1, childExecutions := Put(g.childExecutions, p, EXECUTED_MARKER))
  }

  function ChildExecuted(g: Guard, p: Proposal): (e: Event) {
    Execution(p, p.txType, MarkChildExecuted(g, p).childExecutions)
  }

  predicate CanReclaim(self: PublicKey, g: Guard, parent: Guard, p: Proposal, amount: nat, slot: nat) {
    && p.txType == RECLAIM_CHILD
    && CanExecuteRemote(self, g, parent, p, slot)
    && p.data == Num(amount)
    && amount <= UINT64_MAX
  }

  function AfterReclaim(g: Guard, p: Proposal, amount: nat, height: nat): (r: Guard)
  {
    Emit(MarkChildExecuted(g, p), [ChildExecuted(g, p), ReclaimChild(p, g.parent, amount)], height)
  }

  predicate CanDestroy(self: PublicKey, g: Guard, parent: Guard, p: Proposal, slot: nat) {
    p.txType == DESTROY_CHILD && CanExecuteRemote(self, g, parent, p, slot)
  }

  /** `amount` is prover-supplied; the ledger only checks that the balance is at least that. */
  function AfterDestroy(g: Guard, p: Proposal, amount: nat, height: nat): (r: Guard)
  {
    Emit(MarkChildExecuted(g, p).(childMultiSigEnabled := 0, configNonce := g.configNonce + 1),
         [ChildExecuted(g, p), ReclaimChild(p, g.parent, amount),
          EnableChildMultiSig(p, g.parent, 0, g.configNonce + 1)], height)
  }

  predicate CanEnable(self: PublicKey, g: Guard, parent: Guard, p: Proposal, enabled: nat, slot: nat) {
    && p.txType == ENABLE_CHILD_MULTI_SIG
    && CanExecuteRemote(self, g, parent, p, slot)
    && p.data == Num(enabled)
    && (enabled == 0 || enabled == 1)
  }

  /** Disabling starts a new configuration epoch; enabling does not. */
  function AfterEnable(g: Guard, p: Proposal, enabled: nat, height: nat): (r: Guard)
  {
    var configNonce := if enabled == 0 then g.configNonce + 1 else g.configNonce;
    Emit(MarkChildExecuted(g, p).(childMultiSigEnabled := enabled, configNonce := configNonce),
         [ChildExecuted(g, p), EnableChildMultiSig(p, g.parent, enabled, configNonce)], height)
  }
}
