/**
 Events tell the truth: whatever an accepted call emits reports the state the guard is in after the call, what it
 paid, and what changed.
 */
module EventReports {
  import opened Primitives
  import opened ListCommitment
  import opened Guards
  import opened GuardInvariant
  import opened Ledger
  import opened LedgerInvariant
  import opened Quorum
  import opened Executions
  import opened EventSourcing
  import opened EventOrder
  import opened Multisig
  import opened Refinement

  /** The key in a slot of a padded list. */
  function SlotKey(owners: seq<PublicKey>, index: nat): PublicKey {
    if index < |owners| then owners[index] else EMPTY_KEY
  }

  /** The last reservation a guard has published. */
  function Published(g: Guard): Config {
    var rs := Reservations(g.events);
    if rs == [] then Config([], 0, 0) else rs[|rs| - 1]
  }

  /** What an event of a call that took a guard from `g` to `g'` and paid `paid` reports. */
  predicate Reports(e: Event, self: PublicKey, g: Guard, g': Guard, paid: nat) {
    match e
    case Deployed => g' == BLANK.(events := g'.events)
    case Setup(owners, threshold, numOwners, parent) =>
      owners == OwnerList(g') && threshold == g'.threshold && numOwners == g'.numOwners == |owners|
      && parent == g'.parent
    case SetupOwner(owner, index) => index < 20 && owner == SlotKey(OwnerList(g'), index)
    case Proposed(h, proposer) =>
      Leaf(g.approvals, h) == 0 && g'.voteNullifiers.Keys == g.voteNullifiers.Keys + {VoteKey(h, proposer)}
    case ReceiverSlot(h, receiver, amount) => Leaf(g.approvals, h) == 0 && Receiver(receiver, amount) in h.receivers
    case Approval(h, approver, count, approvals, votes) =>
      && count == Leaf(g'.approvals, h) && approvals == g'.approvals && votes == g'.voteNullifiers
      && g'.voteNullifiers.Keys == g.voteNullifiers.Keys + {VoteKey(h, approver)}
    case Execution(h, txType, root) =>
      && txType == h.txType
      && root == (if LocalType(txType) then g'.approvals else g'.childExecutions)
      && (LocalType(txType) ==> g'.nonce == h.nonce == g.nonce + 1)
      && (LifecycleType(txType) ==> g'.parentNonce == h.nonce == g.parentNonce + 1)
    case OwnerChange(h, owner, added, newNumOwners, newOwners, configNonce) =>
      && owner == Named(h) && (added <==> owner in OwnerList(g')) && (added <==> owner !in OwnerList(g))
      && newOwners == OwnerList(g') && newNumOwners == |newOwners| && configNonce == g'.configNonce == g.configNonce + 1
    case ThresholdChange(h, before, now, configNonce) =>
      before == g.threshold && now == g'.threshold && configNonce == g'.configNonce == g.configNonce + 1
    case Delegate(h, delegate) => delegate == g'.delegate
    case CreateChild(h, parent) => parent == g'.parent == h.guardAddress && h.childAccount == self
    case ReclaimChild(h, parent, amount) => parent == g'.parent == h.guardAddress && amount == paid
    case EnableChildMultiSig(h, parent, enabled, configNonce) =>
      parent == g'.parent == h.guardAddress && enabled == g'.childMultiSigEnabled && configNonce == g'.configNonce
    case CreateChildConfig(h, child, owners, threshold, numOwners) =>
      && child == self && Config(owners, threshold, numOwners) == Published(g') && |owners| == numOwners
      && g'.reservedConfigHash == ConfigHash(owners, threshold, numOwners)
    case CreateChildOwner(h, owner, index) => index < 20 && owner == SlotKey(Published(g').owners, index)
  }

  /** Which events a call emits, in which order. */
  predicate Speaks(c: Call, es: seq<Event>) {
    match c
    case DoSetup(_, _, _) =>
      |es| == 21 && es[0].Setup? && forall i :: 1 <= i < 21 ==> es[i].SetupOwner? && es[i].index == i - 1
    case DoReserve(_, hash, _, _, _) =>
      && |es| == 21 && es[0].CreateChildConfig? && es[0].hash == hash
      && forall i :: 1 <= i < 21 ==> es[i].CreateChildOwner? && es[i].hash == hash && es[i].index == i - 1
    case DoSetupChild(_, _, _, p) =>
      && |es| == 23 && es[0].Setup? && (forall i :: 1 <= i < 21 ==> es[i].SetupOwner? && es[i].index == i - 1)
      && es[21].Execution? && es[21].hash == p && es[22].CreateChild? && es[22].hash == p
    case DoPropose(p, voter) =>
      && |es| == 11 && es[0] == Proposed(p, voter)
      && |p.receivers| == 9
      && (forall i :: 1 <= i < 10 ==> es[i] == ReceiverSlot(p, p.receivers[i - 1].address, p.receivers[i - 1].amount))
      && es[10].Approval? && es[10].hash == p && es[10].approver == voter
    case DoApprove(p, voter) => |es| == 1 && es[0].Approval? && es[0].hash == p && es[0].approver == voter
    case DoTransfer(p) => |es| == 1 && es[0].Execution? && es[0].hash == p
    case DoAllocate(p) => |es| == 1 && es[0].Execution? && es[0].hash == p
    case DoOwnerChange(p, _) =>
      |es| == 2 && es[0].Execution? && es[0].hash == p && es[1].OwnerChange? && es[1].hash == p
    case DoThresholdChange(p, _) =>
      |es| == 2 && es[0].Execution? && es[0].hash == p && es[1].ThresholdChange? && es[1].hash == p
    case DoDelegate(p) => |es| == 2 && es[0].Execution? && es[0].hash == p && es[1].Delegate? && es[1].hash == p
    case DoReclaim(p, _) => |es| == 2 && es[0].Execution? && es[0].hash == p && es[1].ReclaimChild? && es[1].hash == p
    case DoDestroy(p, _) =>
      && |es| == 3 && es[0].Execution? && es[0].hash == p && es[1].ReclaimChild? && es[1].hash == p
      && es[2].EnableChildMultiSig? && es[2].hash == p
    case DoEnable(p, _) =>
      |es| == 2 && es[0].Execution? && es[0].hash == p && es[1].EnableChildMultiSig? && es[1].hash == p
  }

  lemma {:induction false} ProposeSpeaks(w: World, a: PublicKey, c: Call)
    requires Allowed(w, a, c) && c.DoPropose?
    ensures Speaks(c, NewEvents(w, a, c))
  {
    ProposedAmounts(w, a, c.p, c.voter);
  }

  lemma {:induction false} SetupSpeaks(w: World, a: PublicKey, c: Call)
    requires Allowed(w, a, c) && (c.DoSetup? || c.DoReserve? || c.DoSetupChild?)
    ensures Speaks(c, NewEvents(w, a, c))
  {
  }

  /** Every call says all it has to. */
  lemma {:induction false} CallSpeaks(w: World, a: PublicKey, c: Call)
    requires Allowed(w, a, c)
    ensures Speaks(c, NewEvents(w, a, c))
  {
    if c.DoPropose? { ProposeSpeaks(w, a, c); }
    else if c.DoSetup? || c.DoReserve? || c.DoSetupChild? { SetupSpeaks(w, a, c); }
  }

  lemma {:induction false} VoteReports(w: World, a: PublicKey, c: Call, i: nat)
    requires Reachable(w) && Allowed(w, a, c) && IsVote(c) && i < |NewEvents(w, a, c)|
    ensures Reports(NewEvents(w, a, c)[i], a, Read(w, a), After(w, a, c), Sum(Outflow(w, a, c)))
  {
    CountKeys(Read(w, a), c.p, c.voter, VoteCount(w, a, c));
    if c.DoPropose? && 0 < i < |NewEvents(w, a, c)| - 1 {
      assert NewEvents(w, a, c)[i] == ReceiverEvents(c.p)[i - 1];
      ProposedAmounts(w, a, c.p, c.voter);
      assert c.p.receivers[i - 1] in c.p.receivers;
    }
  }

  lemma ProposedAmounts(w: World, a: PublicKey, p: Proposal, voter: PublicKey)
    requires Allowed(w, a, DoPropose(p, voter))
    ensures forall i :: 0 <= i < |p.receivers| ==> EffectiveAmount(p.receivers[i]) == p.receivers[i].amount
  {
  }

  lemma {:induction false} TransferReports(w: World, a: PublicKey, c: Call, i: nat)
    requires Reachable(w) && Allowed(w, a, c)
             && (c.DoTransfer? || c.DoAllocate? || c.DoThresholdChange? || c.DoDelegate?)
    requires i < |NewEvents(w, a, c)|
    ensures Reports(NewEvents(w, a, c)[i], a, Read(w, a), After(w, a, c), Sum(Outflow(w, a, c)))
  {
  }

  lemma {:induction false} OwnerChangeReports(w: World, a: PublicKey, c: Call, i: nat)
    requires Reachable(w) && Allowed(w, a, c) && c.DoOwnerChange? && i < |NewEvents(w, a, c)|
    ensures Reports(NewEvents(w, a, c)[i], a, Read(w, a), After(w, a, c), Sum(Outflow(w, a, c)))
  {
    if i == 0 { OwnerExecutionReports(w, a, c); } else { OwnerNoticeReports(w, a, c); }
  }

  lemma {:induction false} OwnerExecutionReports(w: World, a: PublicKey, c: Call)
    requires Reachable(w) && Allowed(w, a, c) && c.DoOwnerChange?
    ensures Reports(NewEvents(w, a, c)[0], a, Read(w, a), After(w, a, c), 0)
  {
  }

  lemma {:induction false} OwnerNoticeReports(w: World, a: PublicKey, c: Call)
    requires Reachable(w) && Allowed(w, a, c) && c.DoOwnerChange?
    ensures |NewEvents(w, a, c)| == 2 && Reports(NewEvents(w, a, c)[1], a, Read(w, a), After(w, a, c), 0)
  {
    GuardKnown(w, a);
    OwnerNews(Read(w, a), c.p, a, c.insertAfter, w.slot);
  }

  lemma {:induction false} OwnerNews(g: Guard, p: Proposal, self: PublicKey, insertAfter: Option<PublicKey>, slot: nat)
    requires CanChangeOwner(self, g, p, insertAfter, slot) && OwnersInv(g)
    ensures var s := ChangedOwners(g, p, insertAfter);
            |s| == ChangedCount(g, p) && (p.txType == ADD_OWNER <==> Target(p) in s)
            && (p.txType == ADD_OWNER <==> Target(p) !in OwnerList(g))
  {
    if p.txType == ADD_OWNER {
      var at := AddInsertsOnce(OwnerList(g), Target(p), insertAfter);
      SharesX(OwnerList(g), Target(p).x);
    } else {
      var at := WithoutPosition(OwnerList(g), Target(p));
    }
  }

  lemma {:induction false} RemoteReports(w: World, a: PublicKey, c: Call, i: nat)
    requires Reachable(w) && Allowed(w, a, c) && IsRemoteExecution(c) && i < |NewEvents(w, a, c)|
    ensures Reports(NewEvents(w, a, c)[i], a, Read(w, a), After(w, a, c), Sum(Outflow(w, a, c)))
  {
    if c.DoReclaim? || c.DoDestroy? { assert Outflow(w, a, c)[..0] == []; }
  }

  lemma {:induction false} SetupReports(w: World, a: PublicKey, c: Call, i: nat)
    requires Reachable(w) && Allowed(w, a, c) && (c.DoSetup? || c.DoSetupChild?) && i < |NewEvents(w, a, c)|
    ensures Reports(NewEvents(w, a, c)[i], a, Read(w, a), After(w, a, c), Sum(Outflow(w, a, c)))
  {
    GuardKnown(w, a);
    assert Active(c.owners, c.numOwners) == c.owners[..c.numOwners];
    if 1 <= i <= |c.owners| { assert NewEvents(w, a, c)[i] == SetupOwnerEvents(c.owners, c.numOwners)[i - 1]; }
  }

  /** A reservation is the last one published. */
  lemma {:induction false} ReservePublishes(w: World, a: PublicKey, c: Call)
    requires Allowed(w, a, c) && c.DoReserve?
    ensures c.numOwners <= |c.owners| == MAX_OWNERS
    ensures Published(After(w, a, c)) == Config(c.owners[..c.numOwners], c.threshold, c.numOwners)
    ensures Active(c.owners, c.numOwners) == c.owners[..c.numOwners]
  {
    CallEmits(w, a, c);
    ConfigsHead(Read(w, a).events, NewEvents(w, a, c), w.height);
  }

  lemma {:induction false} ReserveSlot(c: Call, i: nat)
    requires c.DoReserve? && i < |c.owners| && c.numOwners <= |c.owners|
    ensures var e := CreateChildOwnerEvents(c.hash, c.owners, c.numOwners)[i];
            e.CreateChildOwner? && e.index == i && e.owner == SlotKey(c.owners[..c.numOwners], i)
  {
  }

  lemma {:induction false} ReserveReports(w: World, a: PublicKey, c: Call, i: nat)
    requires Reachable(w) && Allowed(w, a, c) && c.DoReserve? && i < |NewEvents(w, a, c)|
    ensures Reports(NewEvents(w, a, c)[i], a, Read(w, a), After(w, a, c), Sum(Outflow(w, a, c)))
  {
    ReservePublishes(w, a, c);
    if i > 0 {
      ReserveSlot(c, i - 1);
      assert NewEvents(w, a, c)[i] == CreateChildOwnerEvents(c.hash, c.owners, c.numOwners)[i - 1];
    }
  }

  /** Every accepted call emits all its events, and every one of them reports truthfully. */
  lemma {:induction false} EventsTellTheTruth(w: World, a: PublicKey, c: Call, i: nat)
    requires Reachable(w) && Allowed(w, a, c) && i < |NewEvents(w, a, c)|
    ensures After(w, a, c).events == Read(w, a).events + Stamp(NewEvents(w, a, c), w.height)
    ensures Speaks(c, NewEvents(w, a, c))
    ensures Reports(NewEvents(w, a, c)[i], a, Read(w, a), After(w, a, c), Sum(Outflow(w, a, c)))
  {
    CallEmits(w, a, c);
    CallSpeaks(w, a, c);
    if IsVote(c) { VoteReports(w, a, c, i); }
    else if c.DoOwnerChange? { OwnerChangeReports(w, a, c, i); }
    else if IsLocalExecution(c) { TransferReports(w, a, c, i); }
    else if IsRemoteExecution(c) { RemoteReports(w, a, c, i); }
    else if c.DoReserve? { ReserveReports(w, a, c, i); }
    else { SetupReports(w, a, c, i); }
  }

  // ---- the order they are applied in ----

  /** One event of every kind, in the order of the indexer's lifecycle. */
  predicate Lifecycle(es: seq<Event>) {
    && |es| == 15 && es[0].Deployed? && es[1].Setup? && es[2].SetupOwner? && es[3].Proposed? && es[4].Approval?
    && es[5].ReceiverSlot? && es[6].Execution? && es[7].OwnerChange? && es[8].ThresholdChange? && es[9].Delegate?
    && es[10].CreateChild? && es[11].ReclaimChild? && es[12].EnableChildMultiSig? && es[13].CreateChildConfig?
    && es[14].CreateChildOwner?
  }

  lemma {:induction false} RankFollowsLifecycle(es: seq<Event>)
    requires Lifecycle(es)
    ensures forall i, j :: 0 <= i < j < 15 ==> TypeRank(es[i]) < TypeRank(es[j])
  {
  }

  /** The one pair of a call that the apply order turns around: a proposal's slots and its first vote. */
  predicate TurnedAround(e: Event, later: Event) { e.ReceiverSlot? && later.Approval? }

  /** Within one call the apply order is the emission order, apart from a proposal's slots and its first vote. */
  lemma {:induction false} AppliedAsEmitted(w: World, a: PublicKey, c: Call, i: nat, j: nat)
    requires Allowed(w, a, c) && i < j < |NewEvents(w, a, c)|
    ensures var es := NewEvents(w, a, c); TypeRank(es[j]) < TypeRank(es[i]) <==> TurnedAround(es[i], es[j])
  {
    CallSpeaks(w, a, c);
    SpokenInOrder(c, NewEvents(w, a, c), i, j);
  }

  lemma {:induction false} SpokenInOrder(c: Call, es: seq<Event>, i: nat, j: nat)
    requires Speaks(c, es) && i < j < |es|
    ensures TypeRank(es[j]) < TypeRank(es[i]) <==> TurnedAround(es[i], es[j])
  {
    if c.DoPropose? {
      assert 1 <= i < 10 ==> es[i].ReceiverSlot?;
      assert 1 <= j < 10 ==> es[j].ReceiverSlot?;
    }
    if c.DoSetup? || c.DoSetupChild? {
      assert 1 <= i < 21 ==> es[i].SetupOwner?;
      assert 1 <= j < 21 ==> es[j].SetupOwner?;
    }
    if c.DoReserve? {
      assert 1 <= i < 21 ==> es[i].CreateChildOwner?;
      assert 1 <= j < 21 ==> es[j].CreateChildOwner?;
    }
  }
}
