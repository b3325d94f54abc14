/**
 The MinaGuard contract as an object whose methods update its state fields.

 A method returns whether a proof exists. The prover supplies owner arrays with gaps, Merkle paths
 and claimed leaves; each method checks them by folding chains and recomputing roots, and its
 contract says what that amounts to on owner lists and approval maps. States of foreign accounts,
 the current slot and the including block are parameters. When a check fails nothing is written.
 */
module MinaGuardContract {
  import opened Primitives
  import opened ListCommitment
  import opened Guards

  /** A path that opens `root` at `key` with `claimed`: assertMerkleWitnessValue. */
  predicate Opens<K(!new)>(w: Witness<K>, root: map<K, nat>, key: K, claimed: nat) {
    w.Root(claimed) == root && w.key == key
  }

  lemma OpensLeaf<K(!new)>(w: Witness<K>, root: map<K, nat>, key: K, claimed: nat, written: nat)
    requires Opens(w, root, key, claimed)
    ensures Leaf(root, key) == claimed && w.Root(written) == Put(root, key, written)
  {
    WitnessOpens(w, root, claimed, written);
  }

  class MinaGuard {
    const address: PublicKey
    var ownersCommitment: Field
    var threshold: nat
    var numOwners: nat
    var nonce: nat
    var voteNullifierRoot: map<VoteKey, nat>
    var approvalRoot: map<Proposal, nat>
    var configNonce: nat
    var parent: PublicKey
    var parentNonce: nat
    var childExecutionRoot: map<Proposal, nat>
    var childMultiSigEnabled: nat
    var reservedConfigHash: Field
    var delegate: PublicKey
    var events: seq<Emitted>

    /** The stored fields as one value. */
    function State(): (g: Guard)
      reads this
    {
      Guard(ownersCommitment, threshold, numOwners, nonce, voteNullifierRoot, approvalRoot, configNonce, parent,
            parentNonce,
            childExecutionRoot, childMultiSigEnabled, reservedConfigHash, delegate, events)
    }

    constructor (address: PublicKey, height: nat)
      ensures this.address == address && State() == Emit(BLANK, [Deployed], height)
    {
      this.address := address;
      ownersCommitment, threshold, numOwners, nonce := ZERO, 0, 0, 0;
      voteNullifierRoot, approvalRoot, configNonce := map[], map[], 0;
      parent, parentNonce, childExecutionRoot := EMPTY_KEY, 0, map[];
      childMultiSigEnabled, reservedConfigHash, delegate := 0, ZERO, EMPTY_KEY;
      events := [Emitted(Deployed, height)];
      new;
      assert events == [] + Stamp([Deployed], height);
    }

    // ---- writes shared by the methods ----

    method EmitEvents(es: seq<Event>, height: nat)
      modifies this`events
      ensures State() == Emit(old(State()), es, height)
    {
      events := events + Stamp(es, height);
    }

    /** assertAndIncrementNonce, then markExecuted. */
    method Mark(p: Proposal, path: Witness<Proposal>, claimed: nat)
      requires Opens(path, approvalRoot, p, claimed)
      modifies this`nonce, this`approvalRoot
      ensures State() == MarkExecuted(old(State()), p)
    {
      OpensLeaf(path, approvalRoot, p, claimed, EXECUTED_MARKER);
      nonce, approvalRoot := nonce + 1, path.Root(EXECUTED_MARKER);
    }

    /** assertAndMarkChildExecution, with the parent nonce it consumes. */
    method MarkChild(p: Proposal, path: Witness<Proposal>)
      requires Opens(path, childExecutionRoot, p, 0)
      modifies this`parentNonce, this`childExecutionRoot
      ensures State() == MarkChildExecuted(old(State()), p)
    {
      OpensLeaf(path, childExecutionRoot, p, 0, EXECUTED_MARKER);
      parentNonce, childExecutionRoot := parentNonce + 1, path.Root(EXECUTED_MARKER);
    }

    /** Writes the configuration of the next epoch. */
    method Reconfigure(commitment: Field, threshold: nat, numOwners: nat)
      modifies this`ownersCommitment, this`threshold, this`numOwners, this`configNonce
      ensures State() == old(State()).(ownersCommitment := commitment, threshold := threshold, numOwners := numOwners,
                                       configNonce := old(configNonce) + 1)
    {
      ownersCommitment, this.threshold, this.numOwners := commitment, threshold, numOwners;
      configNonce := configNonce + 1;
    }

    // ---- initialization ----

    /** The checks of initializeState that do not concern the caller. */
    method CheckInitial(threshold: nat, numOwners: nat, owners: seq<PublicKey>) returns (ok: bool)
      requires |owners| == MAX_OWNERS
      ensures ok == CanInitialize(State(), threshold, numOwners, owners)
    {
      var coherent := CoherentSetupOwners(owners, numOwners);
      ok := ownersCommitment == ZERO && threshold > 0 && numOwners >= threshold && numOwners <= MAX_OWNERS && coherent;
    }

    /** The setupOwner events, padded with empty keys. */
    method OwnerSlots(owners: seq<PublicKey>, numOwners: nat) returns (es: seq<Event>)
      ensures es == SetupOwnerEvents(owners, numOwners)
    {
      es := [];
      for i := 0 to |owners|
        invariant es == SetupOwnerEvents(owners, numOwners)[..i]
      {
        es := es + [SetupOwner(if i < numOwners then owners[i] else EMPTY_KEY, i)];
      }
    }

    method WriteGovernance(commitment: Field, threshold: nat, numOwners: nat, parent: PublicKey)
      modifies this`ownersCommitment, this`threshold, this`numOwners, this`parent
      ensures State() == old(State()).(ownersCommitment := commitment, threshold := threshold, numOwners := numOwners,
                                       parent := parent)
    {
      ownersCommitment, this.threshold, this.numOwners, this.parent := commitment, threshold, numOwners, parent;
    }

    /** Counters and maps start empty, and a child starts with its multisig enabled. */
    method ResetExecution()
      modifies this`nonce, this`approvalRoot, this`voteNullifierRoot, this`childExecutionRoot, this`parentNonce,
               this`childMultiSigEnabled
      ensures State() == old(State()).(nonce := 0, approvals := map[], voteNullifiers := map[], childExecutions :=
                                       map[],
                                       parentNonce := 0, childMultiSigEnabled := 1)
    {
      nonce, parentNonce, childMultiSigEnabled := 0, 0, 1;
      approvalRoot, voteNullifierRoot, childExecutionRoot := map[], map[], map[];
    }

    method InitializeState(threshold: nat, numOwners: nat, parent: PublicKey, owners: seq<PublicKey>, height: nat)
      modifies this
      ensures State() == Initialize(old(State()), threshold, numOwners, parent, owners, height)
    {
      var commitment := ComputeSetupOwnersChain(owners, numOwners);
      var slots := OwnerSlots(owners, numOwners);
      WriteGovernance(commitment, threshold, numOwners, parent);
      ResetExecution();
      EmitEvents([Setup(commitment.owners, threshold, numOwners, parent)] + slots, height);
    }

    method SetupRoot(threshold: nat, numOwners: nat, owners: seq<PublicKey>, height: nat) returns (ok: bool)
      requires |owners| == MAX_OWNERS
      modifies this
      ensures ok == old(CanSetup(State(), threshold, numOwners, owners))
      ensures State() == if ok then Initialize(old(State()), threshold, numOwners, EMPTY_KEY, owners, height)
                else old(State())
    {
      ok := CheckInitial(threshold, numOwners, owners);
      ok := ok && parent == EMPTY_KEY;
      if ok { InitializeState(threshold, numOwners, EMPTY_KEY, owners, height); }
    }

    method ChildOwnerSlots(hash: Proposal, owners: seq<PublicKey>, numOwners: nat) returns (es: seq<Event>)
      ensures es == CreateChildOwnerEvents(hash, owners, numOwners)
    {
      es := [];
      for i := 0 to |owners|
        invariant es == CreateChildOwnerEvents(hash, owners, numOwners)[..i]
      {
        es := es + [CreateChildOwner(hash, if i < numOwners then owners[i] else EMPTY_KEY, i)];
      }
    }

    method ReserveForParent(parentAddress: PublicKey, parentGuard: Guard, hash: Proposal, threshold: nat,
                            numOwners: nat,
                            owners: seq<PublicKey>, height: nat) returns (ok: bool)
      requires |owners| == MAX_OWNERS
      modifies this
      ensures ok == old(CanReserve(address, State(), parentAddress, parentGuard, threshold, numOwners, owners))
      ensures State() == if ok
                then AfterReserve(address, old(State()), parentAddress, hash, threshold, numOwners, owners, height)
                else old(State())
    {
      ok := CheckInitial(threshold, numOwners, owners);
      ok := ok && parent == EMPTY_KEY && parentAddress != EMPTY_KEY && parentAddress != address
            && parentGuard.ownersCommitment != ZERO && parentGuard.parent == EMPTY_KEY;
      if !ok { return; }
      parent := parentAddress;
      var commitment := ComputeSetupOwnersChain(owners, numOwners);
      reservedConfigHash := ConfigHash(commitment.owners, threshold, numOwners);
      var slots := ChildOwnerSlots(hash, owners, numOwners);
      EmitEvents([CreateChildConfig(hash, address, commitment.owners, threshold, numOwners)] + slots, height);
    }

    /** assertParentApprovalState: the parent's state is read as preconditions, its approval map through a path. */
    method ParentApprovalState(p: Proposal, parentAddress: PublicKey, parentGuard: Guard, path: Witness<Proposal>,
                               claimed: nat, slot: nat)
      returns (ok: bool)
      ensures ok <==> Opens(path, parentGuard.approvals, p, claimed)
                      && ParentApproved(parentGuard, parentAddress, p, slot)
    {
      ok := && parentGuard.ownersCommitment != ZERO
            && p.configNonce == parentGuard.configNonce && p.guardAddress == parentAddress
            && NotExpired(p, slot)
            && path.Root(claimed) == parentGuard.approvals && path.key == p;
      if ok { OpensLeaf(path, parentGuard.approvals, p, claimed, 0); }
      ok := ok && claimed != EXECUTED_MARKER && claimed >= PROPOSED_MARKER
        && claimed >= parentGuard.threshold + PROPOSED_MARKER;
      if Opens(path, parentGuard.approvals, p, claimed) { OpensLeaf(path, parentGuard.approvals, p, claimed, 0); }
    }

    method ExecuteSetupChild(threshold: nat, numOwners: nat, owners: seq<PublicKey>, p: Proposal, parentGuard: Guard,
                             path: Witness<Proposal>, claimed: nat, slot: nat, height: nat) returns (ok: bool)
      requires |owners| == MAX_OWNERS
      modifies this
      ensures ok <==> && Opens(path, parentGuard.approvals, p, claimed)
                      && old(CanSetupChild(address, State(), parentGuard, threshold, numOwners, owners, p, slot))
      ensures State() == if ok then AfterSetupChild(old(State()), threshold, numOwners, owners, p, height)
                else old(State())
    {
      ok := CheckInitial(threshold, numOwners, owners);
      var commitment := ComputeSetupOwnersChain(owners, numOwners);
      var configHash := ConfigHash(commitment.owners, threshold, numOwners);
      var approved := ParentApprovalState(p, p.guardAddress, parentGuard, path, claimed, slot);
      ok := ok && approved && p.guardAddress != EMPTY_KEY && parent == p.guardAddress && p.txType == CREATE_CHILD
            && p.destination == REMOTE && p.childAccount == address && p.nonce == 0
            && p.data == configHash && reservedConfigHash == configHash;
      if !ok { return; }
      InitializeState(threshold, numOwners, p.guardAddress, owners, height);
      reservedConfigHash := ZERO;
      EmitEvents([Execution(p, p.txType, map[]), CreateChild(p, p.guardAddress)], height);
    }

    // ---- votes ----

    method CheckVote(p: Proposal, authority: Guard, voter: PublicKey, ws: seq<Slot>, nullifierPath: Witness<VoteKey>,
                     slot: nat) returns (ok: bool)
      requires WellFormed(p)
      ensures ok <==> && Opens(nullifierPath, voteNullifierRoot, VoteKey(p, voter), 0)
                      && ownersCommitment == OwnersHash(Compact(ws))
                      && CanVote(address, State(), authority, p, voter, slot)
    {
      var member := AssertOwnerMembership(ownersCommitment, voter, ws);
      ok := && (parent == EMPTY_KEY || childMultiSigEnabled == 1)
            && ownersCommitment != ZERO
            && member
            && p.configNonce == configNonce && p.guardAddress == address
            && DestinationOk(p, parent)
            && NotExpired(p, slot)
            && FreshNonce(address, State(), authority, p)
            && nullifierPath.Root(0) == voteNullifierRoot && nullifierPath.key == VoteKey(p, voter);
      if Opens(nullifierPath, voteNullifierRoot, VoteKey(p, voter), 0) {
        OpensLeaf(nullifierPath, voteNullifierRoot, VoteKey(p, voter), 0, 1);
      }
    }

    /** Rules 1 to 7 of propose(), with their loops over the receiver slots. */
    method CheckProposeRules(p: Proposal) returns (ok: bool)
      requires WellFormed(p)
      ensures ok == (ProposeRules(p) && ThresholdRule(p, numOwners))
    {
      var t := p.txType;
      var slot0Empty := p.receivers[0].address == EMPTY_KEY;
      ok := && ((LocalType(t) && p.destination == LOCAL) || (RemoteType(t) && p.destination == REMOTE))
            && !((t == ADD_OWNER || t == REMOVE_OWNER) && slot0Empty)
            && !((t == CHANGE_THRESHOLD || RemoteType(t)) && !slot0Empty)
            && (t in {CHANGE_THRESHOLD, CREATE_CHILD, RECLAIM_CHILD, ENABLE_CHILD_MULTI_SIG, ADD_OWNER}
                || p.data == ZERO)
            && !(t == ADD_OWNER && p.data == ZERO)
            && (t != CHANGE_THRESHOLD || (p.data.Num? && 0 < p.data.n <= numOwners))
            && (t != ENABLE_CHILD_MULTI_SIG || p.data == Num(0) || p.data == Num(1))
            && p.tokenId == NATIVE_TOKEN_ID;
      var atMostOne, zeroAmounts, cleanEmpties := true, true, true;
      for i := 0 to MAX_RECEIVERS
        invariant atMostOne <==> forall j :: 1 <= j < i ==> p.receivers[j].address == EMPTY_KEY
        invariant zeroAmounts <==> forall j :: 0 <= j < i ==> p.receivers[j].amount == 0
        invariant cleanEmpties <==> forall j ::
                    0 <= j < i && p.receivers[j].address == EMPTY_KEY ==> p.receivers[j].amount == 0
      {
        atMostOne := atMostOne && (i == 0 || p.receivers[i].address == EMPTY_KEY);
        zeroAmounts := zeroAmounts && p.receivers[i].amount == 0;
        cleanEmpties := cleanEmpties && !(p.receivers[i].address == EMPTY_KEY && p.receivers[i].amount != 0);
      }
      ok := ok && (TransferLike(t) || atMostOne) && (TransferLike(t) || zeroAmounts) && cleanEmpties;
    }

    /** The receiver events, one per slot. */
    method ReceiverSlots(p: Proposal) returns (es: seq<Event>)
      requires WellFormed(p)
      ensures es == ReceiverEvents(p)
    {
      es := [];
      for i := 0 to MAX_RECEIVERS
        invariant es == ReceiverEvents(p)[..i]
      {
        var r := p.receivers[i];
        es := es + [ReceiverSlot(p, r.address, if r.address == EMPTY_KEY then 0 else r.amount)];
      }
    }

    /** Nullifies the vote and writes the new leaf, each root recomputed along its path. */
    method WriteVote(p: Proposal, voter: PublicKey, nullifierPath: Witness<VoteKey>, path: Witness<Proposal>,
                     claimed: nat, count: nat)
      requires Opens(nullifierPath, voteNullifierRoot, VoteKey(p, voter), 0) && Opens(path, approvalRoot, p, claimed)
      modifies this`voteNullifierRoot, this`approvalRoot
      ensures State() == Count(old(State()), p, voter, count)
    {
      OpensLeaf(nullifierPath, voteNullifierRoot, VoteKey(p, voter), 0, 1);
      OpensLeaf(path, approvalRoot, p, claimed, count);
      voteNullifierRoot, approvalRoot := nullifierPath.Root(1), path.Root(count);
    }

    method Propose(p: Proposal, authority: Guard, proposer: PublicKey, signature: Signature, ws: seq<Slot>,
                   nullifierPath: Witness<VoteKey>, path: Witness<Proposal>, slot: nat, height: nat) returns (ok: bool)
      requires WellFormed(p)
      modifies this
      ensures ok <==> && old(Opens(nullifierPath, voteNullifierRoot, VoteKey(p, proposer), 0))
                      && old(Opens(path, approvalRoot, p, 0))
                      && old(ownersCommitment) == OwnersHash(Compact(ws))
                      && signature == Signature(proposer, p, ForPropose)
                      && old(CanPropose(address, State(), authority, p, proposer, slot))
      ensures State() == if ok then AfterPropose(old(State()), p, proposer, height) else old(State())
    {
      ok := CheckVote(p, authority, proposer, ws, nullifierPath, slot);
      var rules := CheckProposeRules(p);
      ok := ok && rules && signature == Signature(proposer, p, ForPropose) && path.Root(0) == approvalRoot
        && path.key == p;
      if Opens(path, approvalRoot, p, 0) { OpensLeaf(path, approvalRoot, p, 0, PROPOSED_MARKER + 1); }
      if !ok { return; }
      WriteVote(p, proposer, nullifierPath, path, 0, PROPOSED_MARKER + 1);
      var slots := ReceiverSlots(p);
      EmitEvents([Proposed(p, proposer)] + slots
                 + [Approval(p, proposer, PROPOSED_MARKER + 1, approvalRoot, voteNullifierRoot)], height);
    }

    method ApproveProposal(p: Proposal, authority: Guard, approver: PublicKey, signature: Signature, ws: seq<Slot>,
                           path: Witness<Proposal>, currentCount: nat, nullifierPath: Witness<VoteKey>, slot: nat,
                           height: nat) returns (ok: bool)
      requires WellFormed(p)
      modifies this
      ensures ok <==> && old(Opens(nullifierPath, voteNullifierRoot, VoteKey(p, approver), 0))
                      && old(Opens(path, approvalRoot, p, currentCount))
                      && old(ownersCommitment) == OwnersHash(Compact(ws))
                      && signature == Signature(approver, p, ForApprove)
                      && old(CanApprove(address, State(), authority, p, approver, slot))
      ensures State() == if ok then AfterApprove(old(State()), p, approver, height) else old(State())
    {
      ok := CheckVote(p, authority, approver, ws, nullifierPath, slot);
      ok := ok && signature == Signature(approver, p, ForApprove) && currentCount != EXECUTED_MARKER
        && currentCount >= PROPOSED_MARKER
            && path.Root(currentCount) == approvalRoot && path.key == p;
      var newCount := FieldSucc(currentCount);
      if Opens(path, approvalRoot, p, currentCount) { OpensLeaf(path, approvalRoot, p, currentCount, newCount); }
      if !ok { return; }
      WriteVote(p, approver, nullifierPath, path, currentCount, newCount);
      EmitEvents([Approval(p, approver, newCount, approvalRoot, voteNullifierRoot)], height);
    }

    // ---- LOCAL executions ----

    method CheckLocal(p: Proposal, path: Witness<Proposal>, claimed: nat, slot: nat) returns (ok: bool)
      requires WellFormed(p)
      ensures ok <==> Opens(path, approvalRoot, p, claimed) && CanExecuteLocal(address, State(), p, slot)
    {
      ok := && (parent == EMPTY_KEY || childMultiSigEnabled == 1)
            && ownersCommitment != ZERO
            && p.destination == LOCAL
            && p.configNonce == configNonce && p.guardAddress == address
            && NotExpired(p, slot)
            && claimed != EXECUTED_MARKER && claimed >= PROPOSED_MARKER && claimed >= threshold + PROPOSED_MARKER
            && path.Root(claimed) == approvalRoot && path.key == p
            && p.nonce == nonce + 1;
      if Opens(path, approvalRoot, p, claimed) { OpensLeaf(path, approvalRoot, p, claimed, EXECUTED_MARKER); }
    }

    /** The sends of executeTransfers, one per receiver slot. */
    method Transfers(p: Proposal) returns (sends: seq<Payment>)
      requires WellFormed(p)
      ensures sends == Payments(address, p)
    {
      sends := [];
      for i := 0 to MAX_RECEIVERS
        invariant sends == Payments(address, p)[..i]
      {
        var r := p.receivers[i];
        sends := sends + [Payment(if r.address == EMPTY_KEY then address else r.address,
                                  if r.address == EMPTY_KEY then 0 else r.amount)];
      }
    }

    method ExecuteTransfer(p: Proposal, path: Witness<Proposal>, claimed: nat, slot: nat, height: nat)
      returns (ok: bool, sends: seq<Payment>)
      requires WellFormed(p)
      modifies this
      ensures ok <==> old(Opens(path, approvalRoot, p, claimed)) && old(CanTransfer(address, State(), p, slot))
      ensures State() == if ok then AfterTransfer(old(State()), p, height) else old(State())
      ensures sends == if ok then Payments(address, p) else []
    {
      sends := [];
      ok := CheckLocal(p, path, claimed, slot);
      ok := ok && p.txType == TRANSFER;
      if !ok { return; }
      sends := Transfers(p);
      Mark(p, path, claimed);
      EmitEvents([Execution(p, p.txType, approvalRoot)], height);
    }

    method ExecuteAllocateToChildren(p: Proposal, recipients: seq<Guard>, path: Witness<Proposal>, claimed: nat,
                                     slot: nat, height: nat)
      returns (ok: bool, sends: seq<Payment>)
      requires WellFormed(p) && |recipients| == MAX_RECEIVERS
      modifies this
      ensures ok <==> old(Opens(path, approvalRoot, p, claimed))
                      && old(CanAllocate(address, State(), p, recipients, slot))
      ensures State() == if ok then AfterTransfer(old(State()), p, height) else old(State())
      ensures sends == if ok then Payments(address, p) else []
    {
      sends := [];
      ok := CheckLocal(p, path, claimed, slot);
      ok := ok && p.txType == ALLOCATE_CHILD;
      for i := 0 to MAX_RECEIVERS
        invariant ok <==> && old(Opens(path, approvalRoot, p, claimed))
                          && old(CanExecuteLocal(address, State(), p, slot)) && p.txType == ALLOCATE_CHILD
                          && forall j :: 0 <= j < i && p.receivers[j].address != EMPTY_KEY ==>
                               Initialized(recipients[j]) && recipients[j].parent == address
      {
        var isEmpty := p.receivers[i].address == EMPTY_KEY;
        ok := ok && (isEmpty || recipients[i].ownersCommitment != ZERO) && (isEmpty || recipients[i].parent == address);
      }
      if !ok { return; }
      sends := Transfers(p);
      Mark(p, path, claimed);
      EmitEvents([Execution(p, p.txType, approvalRoot)], height);
    }

    /** Runs both list edits on the witness and selects the one the proposal asks for. */
    method ChangeOwners(p: Proposal, ws: seq<Slot>, insertAfter: Option<PublicKey>)
      returns (newCommitment: Field, newNumOwners: int, valid: bool)
      requires WellFormed(p) && (p.txType == ADD_OWNER || p.txType == REMOVE_OWNER)
      ensures newNumOwners == ChangedCount(State(), p)
      ensures valid <==> && ownersCommitment == OwnersHash(Compact(ws))
                         && (if p.txType == REMOVE_OWNER
                             then Target(p) in OwnerList(State()) && ChangedOwners(State(), p, insertAfter) != []
                             else && AddAccepted(OwnerList(State()), Target(p), insertAfter)
                                  && p.data == OwnersHash(ChangedOwners(State(), p, insertAfter)))
      ensures valid ==> newCommitment == OwnersHash(ChangedOwners(State(), p, insertAfter))
    {
      var isAdd, isRemove := p.txType == ADD_OWNER, p.txType == REMOVE_OWNER;
      var owner := p.receivers[0].address;
      var afterAdd, addIsValid := AddOwnerToCommitment(ownersCommitment, owner, ws, insertAfter);
      var afterRemove, removeIsValid := RemoveOwnerFromCommitment(ownersCommitment, owner, ws);
      newNumOwners := numOwners + (if isAdd then 1 else 0) - (if isRemove then 1 else 0);
      valid := (if isRemove then removeIsValid else addIsValid) && (!isAdd || afterAdd == p.data);
      newCommitment := if isRemove then afterRemove else afterAdd;
    }

    method ExecuteOwnerChange(p: Proposal, path: Witness<Proposal>, claimed: nat, ws: seq<Slot>,
                              insertAfter: Option<PublicKey>, slot: nat, height: nat)
      returns (ok: bool)
      requires WellFormed(p)
      modifies this
      ensures ok <==> && old(Opens(path, approvalRoot, p, claimed)) && old(ownersCommitment) == OwnersHash(Compact(ws))
                      && old(CanChangeOwner(address, State(), p, insertAfter, slot))
      ensures ok ==> ChangedCount(old(State()), p) >= 0
                     && State() == AfterOwnerChange(old(State()), p, insertAfter, height)
      ensures !ok ==> State() == old(State())
    {
      ok := CheckLocal(p, path, claimed, slot);
      ok := ok && (p.txType == ADD_OWNER || p.txType == REMOVE_OWNER);
      if !ok { return; }
      var newCommitment, newNumOwners, valid := ChangeOwners(p, ws, insertAfter);
      ok := newNumOwners >= threshold && newNumOwners <= MAX_OWNERS && valid;
      if !ok { return; }
      Mark(p, path, claimed);
      Reconfigure(newCommitment, threshold, newNumOwners);
      EmitEvents([Execution(p, p.txType, approvalRoot),
                  OwnerChange(p, p.receivers[0].address, p.txType == ADD_OWNER, newNumOwners, newCommitment.owners,
                              configNonce)], height);
    }

    method ExecuteThresholdChange(p: Proposal, path: Witness<Proposal>, claimed: nat, newThreshold: nat, slot: nat,
                                  height: nat) returns (ok: bool)
      requires WellFormed(p)
      modifies this
      ensures ok <==> old(Opens(path, approvalRoot, p, claimed))
                      && old(CanChangeThreshold(address, State(), p, newThreshold, slot))
      ensures State() == if ok then AfterThresholdChange(old(State()), p, newThreshold, height) else old(State())
    {
      ok := CheckLocal(p, path, claimed, slot);
      ok := ok && p.txType == CHANGE_THRESHOLD && p.data == Num(newThreshold) && newThreshold > 0
        && numOwners >= newThreshold;
      if !ok { return; }
      var oldThreshold := threshold;
      Mark(p, path, claimed);
      Reconfigure(ownersCommitment, newThreshold, numOwners);
      EmitEvents([Execution(p, p.txType, approvalRoot), ThresholdChange(p, oldThreshold, newThreshold, configNonce)],
                 height);
    }

    method ExecuteDelegate(p: Proposal, path: Witness<Proposal>, claimed: nat, slot: nat, height: nat)
      returns (ok: bool)
      requires WellFormed(p)
      modifies this
      ensures ok <==> old(Opens(path, approvalRoot, p, claimed)) && old(CanDelegate(address, State(), p, slot))
      ensures State() == if ok then AfterDelegate(address, old(State()), p, height) else old(State())
    {
      ok := CheckLocal(p, path, claimed, slot);
      ok := ok && p.txType == SET_DELEGATE;
      if !ok { return; }
      delegate := if p.receivers[0].address == EMPTY_KEY then address else p.receivers[0].address;
      Mark(p, path, claimed);
      EmitEvents([Execution(p, p.txType, approvalRoot), Delegate(p, delegate)], height);
    }

    // ---- REMOTE executions ----

    method CheckRemote(p: Proposal, parentGuard: Guard, parentPath: Witness<Proposal>, parentClaimed: nat,
                       path: Witness<Proposal>, slot: nat)
      returns (ok: bool)
      ensures ok <==> && Opens(parentPath, parentGuard.approvals, p, parentClaimed)
                      && Opens(path, childExecutionRoot, p, 0)
                      && CanExecuteRemote(address, State(), parentGuard, p, slot)
    {
      ok := ParentApprovalState(p, parent, parentGuard, parentPath, parentClaimed, slot);
      ok := ok && ownersCommitment != ZERO && p.destination == REMOTE && p.childAccount == address
        && parent != EMPTY_KEY
            && path.Root(0) == childExecutionRoot && path.key == p && p.nonce == parentNonce + 1;
      if Opens(path, childExecutionRoot, p, 0) { OpensLeaf(path, childExecutionRoot, p, 0, EXECUTED_MARKER); }
    }

    method ExecuteReclaimToParent(p: Proposal, parentGuard: Guard, parentPath: Witness<Proposal>, parentClaimed: nat,
                                  path: Witness<Proposal>,
                                  amount: nat, slot: nat, height: nat) returns (ok: bool, sends: seq<Payment>)
      requires amount <= UINT64_MAX
      modifies this
      ensures ok <==> && Opens(parentPath, parentGuard.approvals, p, parentClaimed)
                      && old(Opens(path, childExecutionRoot, p, 0))
                      && old(CanReclaim(address, State(), parentGuard, p, amount, slot))
      ensures State() == if ok then AfterReclaim(old(State()), p, amount, height) else old(State())
      ensures sends == if ok then [Payment(old(parent), amount)] else []
    {
      sends := [];
      ok := CheckRemote(p, parentGuard, parentPath, parentClaimed, path, slot);
      ok := ok && p.txType == RECLAIM_CHILD && p.data == Num(amount);
      if !ok { return; }
      sends := [Payment(parent, amount)];
      MarkChild(p, path);
      EmitEvents([Execution(p, p.txType, childExecutionRoot), ReclaimChild(p, parent, amount)], height);
    }

    method ExecuteDestroy(p: Proposal, parentGuard: Guard, parentPath: Witness<Proposal>, parentClaimed: nat,
                          path: Witness<Proposal>,
                          balance: nat, slot: nat, height: nat) returns (ok: bool, sends: seq<Payment>)
      modifies this
      ensures ok <==> && Opens(parentPath, parentGuard.approvals, p, parentClaimed)
                      && old(Opens(path, childExecutionRoot, p, 0))
                      && old(CanDestroy(address, State(), parentGuard, p, slot))
      ensures State() == if ok then AfterDestroy(old(State()), p, balance, height) else old(State())
      ensures sends == if ok then [Payment(old(parent), balance)] else []
    {
      sends := [];
      ok := CheckRemote(p, parentGuard, parentPath, parentClaimed, path, slot);
      ok := ok && p.txType == DESTROY_CHILD;
      if !ok { return; }
      sends := [Payment(parent, balance)];
      MarkChild(p, path);
      childMultiSigEnabled := 0;
      configNonce := configNonce + 1;
      EmitEvents([Execution(p, p.txType, childExecutionRoot), ReclaimChild(p, parent, balance),
                  EnableChildMultiSig(p, parent, 0, configNonce)], height);
    }

    method ExecuteEnableChildMultiSig(p: Proposal, parentGuard: Guard, parentPath: Witness<Proposal>,
                                      parentClaimed: nat, path: Witness<Proposal>,
                                      enabled: nat, slot: nat, height: nat) returns (ok: bool)
      modifies this
      ensures ok <==> && Opens(parentPath, parentGuard.approvals, p, parentClaimed)
                      && old(Opens(path, childExecutionRoot, p, 0))
                      && old(CanEnable(address, State(), parentGuard, p, enabled, slot))
      ensures State() == if ok then AfterEnable(old(State()), p, enabled, height) else old(State())
    {
      ok := CheckRemote(p, parentGuard, parentPath, parentClaimed, path, slot);
      ok := ok && p.txType == ENABLE_CHILD_MULTI_SIG && p.data == Num(enabled) && (enabled == 0 || enabled == 1);
      if !ok { return; }
      childMultiSigEnabled := enabled;
      if enabled == 0 { configNonce := configNonce + 1; }
      MarkChild(p, path);
      EmitEvents([Execution(p, p.txType, childExecutionRoot), EnableChildMultiSig(p, parent, enabled, configNonce)],
                 height);
    }
  }
}
