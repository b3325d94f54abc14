/**
 The four shapes a method call can take on one guard (a vote, a LOCAL execution, a REMOTE execution,
 an initialization step), and for each shape the proof that it keeps the guard invariant and only
 evolves the guard forward.
 */
module GuardCalls {
  import opened Primitives
  import opened ListCommitment
  import opened Guards
  import opened GuardInvariant

  /** Events that report a change but neither execute, set up nor reserve anything. */
  predicate Notices(es: seq<Event>) {
    forall i :: 0 <= i < |es| ==> !es[i].Execution? && !es[i].Setup? && !es[i].CreateChildConfig?
  }

  // ---- votes ----

  predicate VoteShape(self: PublicKey, g: Guard, p: Proposal, voter: PublicKey, count: nat, notices: seq<Event>,
                      height: nat, g': Guard) {
    && Initialized(g)
    && RegisteredInv(self, g.parent, g.configNonce, p)
    && p.configNonce == g.configNonce
    && voter in OwnerList(g)
    && Leaf(g.voteNullifiers, VoteKey(p, voter)) == 0
    && Leaf(g.approvals, p) != EXECUTED_MARKER
    && count == (if p !in g.approvals then PROPOSED_MARKER + 1 else FieldSucc(Leaf(g.approvals, p)))
    && Notices(notices)
    && g' == Emit(Count(g, p, voter, count), notices, height)
  }

  lemma VoteEvolves(self: PublicKey, g: Guard, p: Proposal, voter: PublicKey, count: nat, notices: seq<Event>,
                    height: nat, g': Guard)
    requires OwnersInv(g) && VotesInv(self, g.parent, g.approvals, g.voteNullifiers, g.configNonce, OwnerList(g))
    requires VoteShape(self, g, p, voter, count, notices, height, g')
    ensures Evolves(g, g')
  {
    CountValue(self, g, p, voter, count);
  }

  lemma VoteKeepsExecs(self: PublicKey, g: Guard, p: Proposal, count: nat, notices: seq<Event>, height: nat)
    requires LocalExecInv(self, g.events, g.nonce, g.approvals)
    requires Leaf(g.approvals, p) != EXECUTED_MARKER && count != EXECUTED_MARKER && Notices(notices)
    ensures LocalExecInv(self, g.events + Stamp(notices, height), g.nonce, Put(g.approvals, p, count))
  {
    ExecsSame(g.events, notices, height, LocalKind);
    var done, approvals := Execs(g.events, LocalKind), Put(g.approvals, p, count);
    forall i | 0 <= i < |done| ensures Leaf(approvals, done[i]) == EXECUTED_MARKER { assert done[i] != p; }
    forall h | h in approvals && approvals[h] == EXECUTED_MARKER ensures h in done {
      assert h != p && h in g.approvals;
    }
  }

  /** Events outside the histories leave all of them as they were. */
  lemma NoticesKeepHistory(self: PublicKey, g: Guard, notices: seq<Event>, height: nat)
    requires ChildExecInv(self, g.parent, g.events, g.parentNonce, g.childExecutions) && ConfigInv(g)
             && CreationInv(self, g) && Notices(notices)
    ensures var r := Emit(g, notices, height);
            ChildExecInv(self, g.parent, r.events, g.parentNonce, g.childExecutions) && ConfigInv(r)
              && CreationInv(self, r)
  {
    ExecsSame(g.events, notices, height, LifecycleKind);
    ExecsSame(g.events, notices, height, CreateKind);
    ConfigsSame(g.events, notices, height);
  }

  lemma VoteKeeps(self: PublicKey, g: Guard, p: Proposal, voter: PublicKey, count: nat, notices: seq<Event>,
                  height: nat, g': Guard)
    requires GuardInv(self, g) && VoteShape(self, g, p, voter, count, notices, height, g')
    ensures GuardInv(self, g')
  {
    CountValue(self, g, p, voter, count);
    CountKeeps(self, g, p, voter, count);
    VoteKeepsExecs(self, g, p, count, notices, height);
    NoticesKeepHistory(self, g, notices, height);
  }

  // ---- LOCAL executions ----

  predicate LocalShape(self: PublicKey, g: Guard, p: Proposal, notices: seq<Event>, height: nat, g': Guard) {
    && Initialized(g)
    && p in g.approvals
    && p.destination == LOCAL && p.guardAddress == self && p.nonce == g.nonce + 1 && LocalType(p.txType)
    && Notices(notices)
    && g'.nonce == g.nonce + 1
    && g'.approvals == Put(g.approvals, p, EXECUTED_MARKER)
    && g'.events == g.events + Stamp([Executed(g, p)] + notices, height)
    && g'.voteNullifiers == g.voteNullifiers
    && g'.parent == g.parent
    && g'.parentNonce == g.parentNonce
    && g'.childExecutions == g.childExecutions
    && g'.childMultiSigEnabled == g.childMultiSigEnabled
    && g'.reservedConfigHash == g.reservedConfigHash
    && Governance(g'.ownersCommitment, g'.threshold, g'.numOwners)
    && (|| g'.configNonce == g.configNonce + 1
        || (g'.configNonce == g.configNonce && g'.ownersCommitment == g.ownersCommitment && g'.threshold == g.threshold
            && g'.numOwners == g.numOwners))
  }

  lemma LocalExecutionEvolves(self: PublicKey, g: Guard, p: Proposal, notices: seq<Event>, height: nat, g': Guard)
    requires VotesInv(self, g.parent, g.approvals, g.voteNullifiers, g.configNonce, OwnerList(g))
    requires LocalShape(self, g, p, notices, height, g')
    ensures Evolves(g, g')
  {
    assert forall h :: h in g.approvals ==> LeafInv(g.approvals, g.voteNullifiers, h);
  }

  /** An execution is appended to its own history and leaves the others as they were. */
  lemma ExecutionKeepsHistory(self: PublicKey, g: Guard, executed: Event, notices: seq<Event>, height: nat, g': Guard)
    requires ConfigInv(g) && CreationInv(self, g) && executed.Execution? && KindOf(executed.txType) != CreateKind
             && Notices(notices)
    requires g'.events == g.events + Stamp([executed] + notices, height) && g'.parent == g.parent && Initialized(g)
             && Initialized(g')
    ensures ConfigInv(g') && CreationInv(self, g')
  {
    var more := [executed] + notices;
    ExecsHead(g.events, more, height, CreateKind);
    ConfigsSame(g.events, more, height);
  }

  lemma LocalKeepsExecs(self: PublicKey, g: Guard, p: Proposal, notices: seq<Event>, height: nat, g': Guard)
    requires LocalShape(self, g, p, notices, height, g')
    requires LocalExecInv(self, g.events, g.nonce, g.approvals)
    requires ChildExecInv(self, g.parent, g.events, g.parentNonce, g.childExecutions)
    ensures LocalExecInv(self, g'.events, g'.nonce, g'.approvals)
    ensures ChildExecInv(self, g'.parent, g'.events, g'.parentNonce, g'.childExecutions)
  {
    MarkKeepsLocalExecs(self, g, p, [Executed(g, p)] + notices, height);
    ExecsHead(g.events, [Executed(g, p)] + notices, height, LifecycleKind);
  }

  lemma LocalExecutionKeeps(self: PublicKey, g: Guard, p: Proposal, notices: seq<Event>, height: nat, g': Guard)
    requires GuardInv(self, g) && LocalShape(self, g, p, notices, height, g')
    ensures GuardInv(self, g')
  {
    MarkKeepsVotes(self, g, p, g'.configNonce, OwnerList(g'));
    LocalKeepsExecs(self, g, p, notices, height, g');
    ExecutionKeepsHistory(self, g, Executed(g, p), notices, height, g');
  }

  /** An accepted owner change keeps the keyholders distinct and the stored count exact. */
  lemma ChangedOwnersCounted(self: PublicKey, g: Guard, p: Proposal, insertAfter: Option<PublicKey>, slot: nat)
    requires OwnersInv(g) && CanChangeOwner(self, g, p, insertAfter, slot)
    ensures Governance(OwnersHash(ChangedOwners(g, p, insertAfter)), g.threshold, ChangedCount(g, p))
  {
    if p.txType == REMOVE_OWNER {
      var at := RemoveTakesOne(OwnerList(g), Target(p));
    } else {
      var at := AddInsertsOnce(OwnerList(g), Target(p), insertAfter);
    }
  }

  // ---- REMOTE executions ----

  predicate RemoteShape(self: PublicKey, g: Guard, p: Proposal, notices: seq<Event>, height: nat, g': Guard) {
    && Initialized(g)
    && p.destination == REMOTE && p.childAccount == self && p.guardAddress == g.parent
    && p.nonce == g.parentNonce + 1 && LifecycleType(p.txType)
    && Notices(notices)
    && g'.childMultiSigEnabled <= 1
    && (g'.configNonce == g.configNonce || g'.configNonce == g.configNonce + 1)
    && g'.parentNonce == g.parentNonce + 1
    && g'.childExecutions == Put(g.childExecutions, p, EXECUTED_MARKER)
    && g'.events == g.events + Stamp([ChildExecuted(g, p)] + notices, height)
    && g'.ownersCommitment == g.ownersCommitment && g'.threshold == g.threshold && g'.numOwners == g.numOwners
    && g'.nonce == g.nonce
    && g'.approvals == g.approvals
    && g'.voteNullifiers == g.voteNullifiers
    && g'.parent == g.parent
    && g'.reservedConfigHash == g.reservedConfigHash
  }

  /** Votes of an older epoch bind nobody, so a new epoch may start with any owners. */
  lemma NewEpochKeepsVotes(self: PublicKey, g: Guard, configNonce: nat)
    requires VotesInv(self, g.parent, g.approvals, g.voteNullifiers, g.configNonce, OwnerList(g))
             && configNonce >= g.configNonce
    ensures VotesInv(self, g.parent, g.approvals, g.voteNullifiers, configNonce, OwnerList(g))
  {
    forall k | k in g.voteNullifiers && k.hash.configNonce == configNonce ensures k.voter in OwnerList(g) {
      assert k.hash in g.approvals && RegisteredInv(self, g.parent, g.configNonce, k.hash);
    }
    forall h | h in g.approvals ensures RegisteredInv(self, g.parent, configNonce, h) {
      assert RegisteredInv(self, g.parent, g.configNonce, h);
    }
  }

  lemma RemoteExecutionEvolves(self: PublicKey, g: Guard, p: Proposal, notices: seq<Event>, height: nat, g': Guard)
    requires RemoteShape(self, g, p, notices, height, g')
    ensures Evolves(g, g')
  {
  }

  lemma RemoteKeepsExecs(self: PublicKey, g: Guard, p: Proposal, notices: seq<Event>, height: nat, g': Guard)
    requires RemoteShape(self, g, p, notices, height, g')
    requires LocalExecInv(self, g.events, g.nonce, g.approvals)
    requires ChildExecInv(self, g.parent, g.events, g.parentNonce, g.childExecutions)
    ensures LocalExecInv(self, g'.events, g'.nonce, g'.approvals)
    ensures ChildExecInv(self, g'.parent, g'.events, g'.parentNonce, g'.childExecutions)
  {
    MarkKeepsChildExecs(self, g, p, [ChildExecuted(g, p)] + notices, height);
    ExecsHead(g.events, [ChildExecuted(g, p)] + notices, height, LocalKind);
  }

  lemma RemoteExecutionKeeps(self: PublicKey, g: Guard, p: Proposal, notices: seq<Event>, height: nat, g': Guard)
    requires GuardInv(self, g) && RemoteShape(self, g, p, notices, height, g')
    ensures GuardInv(self, g')
  {
    RemoteKeepsExecs(self, g, p, notices, height, g');
    ExecutionKeepsHistory(self, g, ChildExecuted(g, p), notices, height, g');
    NewEpochKeepsVotes(self, g, g'.configNonce);
  }

  // ---- deployment, setup, reservation ----

  lemma DeployEstablishes(self: PublicKey, height: nat)
    ensures GuardInv(self, Emit(BLANK, [Deployed], height))
  {
    var es := Stamp([Deployed], height);
    assert [] + es == es;
    forall k: Kind ensures Execs(es, k) == [] { ExecsNone(es, k); }
    ConfigsNone(es);
  }

  lemma InitializeKeeps(g: Guard, threshold: nat, numOwners: nat, parent: PublicKey, owners: seq<PublicKey>,
                        height: nat)
    requires CanInitialize(g, threshold, numOwners, owners)
    ensures var r := Initialize(g, threshold, numOwners, parent, owners, height);
            && OwnersInv(r) && OwnerList(r) == owners[..numOwners]
            && (forall k :: Execs(r.events, k) == Execs(g.events, k))
            && Reservations(r.events) == Reservations(g.events)
            && Setups(r.events) == Setups(g.events) + [Config(owners[..numOwners], threshold, numOwners)]
            && g.events <= r.events
  {
    var r := Initialize(g, threshold, numOwners, parent, owners, height);
    var more := [Setup(Active(owners, numOwners), threshold, numOwners, parent)] + SetupOwnerEvents(owners, numOwners);
    forall k: Kind ensures Execs(r.events, k) == Execs(g.events, k) { ExecsSame(g.events, more, height, k); }
    ConfigsHead(g.events, more, height);
  }

  lemma SetupKeeps(self: PublicKey, g: Guard, threshold: nat, numOwners: nat, owners: seq<PublicKey>, height: nat)
    requires GuardInv(self, g) && CanSetup(g, threshold, numOwners, owners)
    ensures var r := Initialize(g, threshold, numOwners, EMPTY_KEY, owners, height); GuardInv(self, r) && Evolves(g, r)
  {
    InitializeKeeps(g, threshold, numOwners, EMPTY_KEY, owners, height);
  }

  lemma ReserveKeeps(self: PublicKey, g: Guard, parentAddress: PublicKey, parent: Guard, hash: Proposal,
                     threshold: nat, numOwners: nat, owners: seq<PublicKey>, height: nat)
    requires GuardInv(self, g) && CanReserve(self, g, parentAddress, parent, threshold, numOwners, owners)
    ensures var r := AfterReserve(self, g, parentAddress, hash, threshold, numOwners, owners, height);
            GuardInv(self, r) && Evolves(g, r)
  {
    var r := AfterReserve(self, g, parentAddress, hash, threshold, numOwners, owners, height);
    var more := [CreateChildConfig(hash, self, Active(owners, numOwners), threshold, numOwners)]
      + CreateChildOwnerEvents(hash, owners, numOwners);
    forall k: Kind ensures Execs(r.events, k) == Execs(g.events, k) { ExecsSame(g.events, more, height, k); }
    ConfigsHead(g.events, more, height);
  }

  lemma SetupChildKeeps(self: PublicKey, g: Guard, parent: Guard, threshold: nat, numOwners: nat,
                        owners: seq<PublicKey>,
                        p: Proposal, slot: nat, height: nat)
    requires GuardInv(self, g) && CanSetupChild(self, g, parent, threshold, numOwners, owners, p, slot)
    ensures var r := AfterSetupChild(g, threshold, numOwners, owners, p, height); GuardInv(self, r) && Evolves(g, r)
  {
    var mid := Initialize(g, threshold, numOwners, p.guardAddress, owners, height);
    var r := AfterSetupChild(g, threshold, numOwners, owners, p, height);
    InitializeKeeps(g, threshold, numOwners, p.guardAddress, owners, height);
    var more := [Execution(p, p.txType, map[]), CreateChild(p, p.guardAddress)];
    forall k: Kind ensures Execs(r.events, k) == if k == CreateKind then Execs(g.events, k) + [p]
      else Execs(g.events, k) {
      ExecsHead(mid.events, more, height, k);
    }
    ConfigsSame(mid.events, more, height);
    assert HashOf(Config(owners[..numOwners], threshold, numOwners)) == p.data;
  }
}
