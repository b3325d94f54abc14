/**
 The contract is the multisig its owners know: in every reachable ledger a call is accepted exactly when the
 multisig permits it, and does to the account exactly what the multisig says.
 */
module Refinement {
  import opened Primitives
  import opened ListCommitment
  import opened Guards
  import opened GuardInvariant
  import opened GuardCalls
  import opened Ledger
  import opened LedgerInvariant
  import opened Quorum
  import opened Executions
  import opened Multisig

  /** What an account's state means. */
  function VaultOf(g: Guard): (v: Vault)
  {
    Vault(Initialized(g), OwnerList(g), g.threshold, g.configNonce, g.voteNullifiers.Keys, Execs(g.events, LocalKind),
          Execs(g.events, LifecycleKind), g.parent, g.childMultiSigEnabled == 1, g.reservedConfigHash, g.delegate)
  }

  function BankOf(w: World): (b: Bank)
  {
    Bank(map a | a in w.guards :: VaultOf(w.guards[a]), w.signed, w.slot, w.height)
  }

  lemma LookIsRead(w: World, a: PublicKey)
    ensures Look(BankOf(w), a) == VaultOf(Read(w, a))
  {
    assert Execs([], LocalKind) == [] && Execs([], LifecycleKind) == [];
  }

  // ---- what invariants say of the multisig's terms ----

  /** Votes, registration and executions in both vocabularies. */
  lemma {:induction false} Tally(self: PublicKey, g: Guard, p: Proposal)
    requires GuardInv(self, g)
    ensures var v := VaultOf(g);
            && Backers(v, p) == Voters(g.voteNullifiers, p)
            && (Leaf(g.approvals, p) == 0 <==> Backers(v, p) == {})
            && (p in v.executed <==> Leaf(g.approvals, p) == EXECUTED_MARKER)
            && (Backers(v, p) != {} ==> RegisteredInv(self, g.parent, g.configNonce, p))
            && (Backers(v, p) != {} && p !in v.executed ==>
                Leaf(g.approvals, p) == 1 + |Backers(v, p)| < EXECUTED_MARKER)
            && |v.executed| == g.nonce && |v.forParent| == g.parentNonce
  {
    assert p in g.approvals ==> LeafInv(g.approvals, g.voteNullifiers, p);
    if k: VoteKey :| k in g.voteNullifiers && k.hash == p { assert k.hash in g.approvals; }
    var done := Execs(g.events, LocalKind);
    if p in done { var i :| 0 <= i < |done| && done[i] == p; }
  }

  lemma {:induction false} OneVote(self: PublicKey, g: Guard, p: Proposal, voter: PublicKey)
    requires GuardInv(self, g)
    ensures voter in Backers(VaultOf(g), p) <==> Leaf(g.voteNullifiers, VoteKey(p, voter)) != 0
  {
  }

  /** The next nonce has not been executed. */
  lemma {:induction false} NextIsUnexecuted(self: PublicKey, g: Guard, p: Proposal)
    requires GuardInv(self, g)
    ensures p.nonce == g.nonce + 1 ==> p !in Execs(g.events, LocalKind)
    ensures p.nonce == g.parentNonce + 1 ==> Leaf(g.childExecutions, p) == 0
  {
    var local, lifecycle := Execs(g.events, LocalKind), Execs(g.events, LifecycleKind);
    forall i | 0 <= i < |local| ensures local[i].nonce == i + 1 {}
    forall i | 0 <= i < |lifecycle| ensures lifecycle[i].nonce == i + 1 {}
  }

  /** A REMOTE proposal is never executed on the guard that approved it. */
  lemma {:induction false} RemoteIsUnexecuted(self: PublicKey, g: Guard, p: Proposal)
    requires GuardInv(self, g) && p.destination == REMOTE
    ensures p !in Execs(g.events, LocalKind)
  {
    var local := Execs(g.events, LocalKind);
    forall i | 0 <= i < |local| ensures local[i] != p {}
  }

  lemma GuardKnown(w: World, a: PublicKey)
    requires Reachable(w) && a in w.guards
    ensures a != EMPTY_KEY && GuardInv(a, w.guards[a])
  {
    ReachableInv(w);
  }

  // ---- proposals ----

  /** The slot-by-slot rules are the table by type. */
  lemma {:induction false} ShapeIsRules(p: Proposal)
    ensures Shape(p) <==> WellFormed(p) && ProposeRules(p)
  {
    if |p.receivers| == MAX_RECEIVERS {
      forall i | 0 <= i < MAX_RECEIVERS ensures p.receivers[i] in p.receivers {}
      forall r | r in p.receivers ensures exists i :: 0 <= i < MAX_RECEIVERS && p.receivers[i] == r {}
    }
  }

  // ---- votes ----

  lemma {:induction false} RoutedIs(v: Vault, g: Guard, p: Proposal)
    requires v == VaultOf(g) && (p.destination == LOCAL || p.destination == REMOTE)
    ensures Routed(v, p) <==> DestinationOk(p, g.parent)
  {
  }

  lemma {:induction false} AheadIs(w: World, a: PublicKey, p: Proposal)
    requires Reachable(w) && a in w.guards && (p.destination == LOCAL || p.destination == REMOTE)
    ensures Ahead(BankOf(w), a, p) <==> FreshNonce(a, w.guards[a], Read(w, NonceAuthority(a, p)), p)
  {
    GuardKnown(w, a);
    LookIsRead(w, a);
    LookIsRead(w, p.childAccount);
    Tally(a, w.guards[a], p);
    if p.childAccount in w.guards {
      GuardKnown(w, p.childAccount);
      Tally(p.childAccount, w.guards[p.childAccount], p);
    }
  }

  lemma {:induction false} VoteIs(w: World, a: PublicKey, p: Proposal, voter: PublicKey, action: SignedAction)
    requires Reachable(w) && a in w.guards && WellFormed(p) && (p.destination == LOCAL || p.destination == REMOTE)
    ensures MayVote(BankOf(w), a, p, voter, action) <==>
            CanVote(a, w.guards[a], Read(w, NonceAuthority(a, p)), p, voter, w.slot)
              && Signature(voter, p, action) in w.signed
  {
    GuardKnown(w, a);
    LookIsRead(w, a);
    RoutedIs(VaultOf(w.guards[a]), w.guards[a], p);
    AheadIs(w, a, p);
    OneVote(a, w.guards[a], p, voter);
  }

  lemma {:induction false} ProposeExactly(w: World, a: PublicKey, p: Proposal, voter: PublicKey)
    requires Reachable(w) && a in w.guards
    ensures Allowed(w, a, DoPropose(p, voter)) <==> Permits(BankOf(w), a, DoPropose(p, voter))
  {
    GuardKnown(w, a);
    LookIsRead(w, a);
    ShapeIsRules(p);
    Tally(a, w.guards[a], p);
    if WellFormed(p) && ProposeRules(p) { VoteIs(w, a, p, voter, ForPropose); }
  }

  lemma {:induction false} ApproveExactly(w: World, a: PublicKey, p: Proposal, voter: PublicKey)
    requires Reachable(w) && a in w.guards
    ensures Allowed(w, a, DoApprove(p, voter)) <==> Permits(BankOf(w), a, DoApprove(p, voter))
  {
    LookIsRead(w, a);
    ApproveIs(w, a, p, voter);
  }

  lemma {:induction false} ApproveIs(w: World, a: PublicKey, p: Proposal, voter: PublicKey)
    requires Reachable(w) && a in w.guards
    ensures var v := VaultOf(w.guards[a]);
            (|p.receivers| == 9 && MayVote(BankOf(w), a, p, voter, ForApprove) && Backers(v, p) != {}
             && p !in v.executed)
            <==> CanApprove(a, w.guards[a], Read(w, NonceAuthority(a, p)), p, voter, w.slot)
                 && Signature(voter, p, ForApprove) in w.signed
  {
    GuardKnown(w, a);
    Tally(a, w.guards[a], p);
    if Backers(VaultOf(w.guards[a]), p) != {} {
      VoteIs(w, a, p, voter, ForApprove);
      SecondVote(w.guards[a], p, a);
    }
  }

  /** A proposal with backers that is not executed has a leaf that can be counted up. */
  lemma {:induction false} SecondVote(g: Guard, p: Proposal, a: PublicKey)
    requires GuardInv(a, g) && Backers(VaultOf(g), p) != {}
    ensures p !in Execs(g.events, LocalKind)
            <==> Leaf(g.approvals, p) != EXECUTED_MARKER && Leaf(g.approvals, p) >= PROPOSED_MARKER
  {
    Tally(a, g, p);
  }

  // ---- executions ----

  /** What is common to all LOCAL executions. */
  lemma {:induction false} ExecuteIs(w: World, a: PublicKey, p: Proposal, txType: nat)
    requires Reachable(w) && a in w.guards && LocalType(txType)
    ensures MayExecute(BankOf(w), a, p, txType) <==> p.txType == txType && CanExecuteLocal(a, w.guards[a], p, w.slot)
    ensures MayExecute(BankOf(w), a, p, txType) ==> Shape(p)
  {
    var g := w.guards[a];
    GuardKnown(w, a);
    LookIsRead(w, a);
    Tally(a, g, p);
    NextIsUnexecuted(a, g, p);
    ShapeIsRules(p);
    if Initialized(g) && p.nonce == g.nonce + 1 { CarriedIs(a, g, p); }
  }

  /** Enough backers, while not executed, is an approved leaf. */
  lemma {:induction false} CarriedIs(a: PublicKey, g: Guard, p: Proposal)
    requires GuardInv(a, g) && Initialized(g) && p !in Execs(g.events, LocalKind)
    ensures Carried(VaultOf(g), p) <==> Approved(g, p)
    ensures Carried(VaultOf(g), p) ==> Backers(VaultOf(g), p) != {}
  {
    Tally(a, g, p);
  }

  lemma {:induction false} LocalExactly(w: World, a: PublicKey, c: Call)
    requires Reachable(w) && a in w.guards && (c.DoTransfer? || c.DoThresholdChange? || c.DoDelegate?)
    ensures Allowed(w, a, c) <==> Permits(BankOf(w), a, c)
  {
    GuardKnown(w, a);
    LookIsRead(w, a);
    ExecuteIs(w, a, c.p, TRANSFER);
    ExecuteIs(w, a, c.p, CHANGE_THRESHOLD);
    ExecuteIs(w, a, c.p, SET_DELEGATE);
  }

  lemma {:induction false} AllocateExactly(w: World, a: PublicKey, p: Proposal)
    requires Reachable(w) && a in w.guards
    ensures Allowed(w, a, DoAllocate(p)) <==> Permits(BankOf(w), a, DoAllocate(p))
  {
    ExecuteIs(w, a, p, ALLOCATE_CHILD);
    if MayExecute(BankOf(w), a, p, ALLOCATE_CHILD) { RecipientsAreChildren(w, a, p); }
  }

  lemma {:induction false} RecipientsAreChildren(w: World, a: PublicKey, p: Proposal)
    requires Reachable(w) && |p.receivers| == MAX_RECEIVERS
    ensures ToChildren(BankOf(w), a, p) <==>
            forall i :: 0 <= i < MAX_RECEIVERS && p.receivers[i].address != EMPTY_KEY ==>
              Initialized(Recipients(w, a, p)[i]) && Recipients(w, a, p)[i].parent == a
  {
    if ToChildren(BankOf(w), a, p) {
      forall i | 0 <= i < MAX_RECEIVERS && p.receivers[i].address != EMPTY_KEY
        ensures Initialized(Recipients(w, a, p)[i]) && Recipients(w, a, p)[i].parent == a
      {
        assert p.receivers[i] in p.receivers;
      }
    }
    if forall i :: 0 <= i < MAX_RECEIVERS && p.receivers[i].address != EMPTY_KEY ==>
         Initialized(Recipients(w, a, p)[i]) && Recipients(w, a, p)[i].parent == a {
      forall r | r in p.receivers && r.address != EMPTY_KEY
        ensures r.address in BankOf(w).vaults && BankOf(w).vaults[r.address].ready
                && BankOf(w).vaults[r.address].parent == a
      {
        var i :| 0 <= i < MAX_RECEIVERS && p.receivers[i] == r;
        assert Recipients(w, a, p)[i] == Read(w, r.address);
      }
    }
  }

  lemma {:induction false} OwnerChangeExactly(w: World, a: PublicKey, p: Proposal, insertAfter: Option<PublicKey>)
    requires Reachable(w) && a in w.guards
    ensures Allowed(w, a, DoOwnerChange(p, insertAfter)) <==> Permits(BankOf(w), a, DoOwnerChange(p, insertAfter))
  {
    var g := w.guards[a];
    GuardKnown(w, a);
    LookIsRead(w, a);
    ExecuteIs(w, a, p, ADD_OWNER);
    ExecuteIs(w, a, p, REMOVE_OWNER);
    if Initialized(g) && WellFormed(p) && p.txType == REMOVE_OWNER { RemoveIs(g, p); }
    if Initialized(g) && WellFormed(p) && p.txType == ADD_OWNER { AddIs(g, p, insertAfter); }
  }

  lemma {:induction false} RemoveIs(g: Guard, p: Proposal)
    requires OwnersInv(g) && WellFormed(p) && p.txType == REMOVE_OWNER
    ensures MayRemove(VaultOf(g), p) <==>
            g.threshold <= ChangedCount(g, p) <= MAX_OWNERS && Target(p) in OwnerList(g)
            && ChangedOwners(g, p, None) != []
  {
    if Target(p) in OwnerList(g) { var at := WithoutPosition(OwnerList(g), Target(p)); }
  }

  lemma {:induction false} AddIs(g: Guard, p: Proposal, insertAfter: Option<PublicKey>)
    requires OwnersInv(g) && WellFormed(p) && p.txType == ADD_OWNER
    ensures MayAdd(VaultOf(g), p, insertAfter) <==>
            && g.threshold <= ChangedCount(g, p) <= MAX_OWNERS && AddAccepted(OwnerList(g), Target(p), insertAfter)
            && p.data == OwnersHash(ChangedOwners(g, p, insertAfter))
  {
    SharesX(OwnerList(g), Target(p).x);
  }

  lemma SharesX(s: seq<PublicKey>, x: nat)
    ensures HasX(s, x) <==> exists o :: o in s && o.x == x
  {
  }

  // ---- executions for the parent ----

  lemma {:induction false} OrderedIs(w: World, a: PublicKey, p: Proposal)
    requires Reachable(w) && a in w.guards && RemoteType(p.txType)
    ensures var g := w.guards[a]; var parent := Read(w, g.parent);
            && (Ordered(BankOf(w), a, p) <==>
                  g.parent != EMPTY_KEY && p.childAccount == a && ParentApproved(parent, g.parent, p, w.slot))
            && (Ordered(BankOf(w), a, p) ==> Shape(p) && p.destination == REMOTE)
  {
    var g := w.guards[a];
    LookIsRead(w, a);
    LookIsRead(w, g.parent);
    ShapeIsRules(p);
    if g.parent in w.guards {
      var parent := w.guards[g.parent];
      GuardKnown(w, g.parent);
      Tally(g.parent, parent, p);
      if Backers(VaultOf(parent), p) != {} {
        RemoteIsUnexecuted(g.parent, parent, p);
      }
      if Initialized(parent) && p !in Execs(parent.events, LocalKind) { CarriedIs(g.parent, parent, p); }
    }
  }

  lemma {:induction false} RemoteExactly(w: World, a: PublicKey, c: Call)
    requires Reachable(w) && a in w.guards && (c.DoReclaim? || c.DoDestroy? || c.DoEnable?)
    ensures Allowed(w, a, c) <==> Permits(BankOf(w), a, c)
  {
    GuardKnown(w, a);
    LookIsRead(w, a);
    Tally(a, w.guards[a], c.p);
    NextIsUnexecuted(a, w.guards[a], c.p);
    if RemoteType(c.p.txType) { OrderedIs(w, a, c.p); }
  }

  // ---- setups ----

  lemma {:induction false} SetupIs(g: Guard, threshold: nat, n: nat, owners: seq<PublicKey>)
    ensures CanInitialize(g, threshold, n, owners) <==> !Initialized(g) && ValidSetup(owners, threshold, n)
  {
    if |owners| == MAX_OWNERS && n <= MAX_OWNERS { assert Active(owners, n) == owners[..n]; }
  }

  lemma {:induction false} SetupsExactly(w: World, a: PublicKey, c: Call)
    requires Reachable(w) && a in w.guards && (c.DoSetup? || c.DoReserve?)
    ensures Allowed(w, a, c) <==> Permits(BankOf(w), a, c)
  {
    LookIsRead(w, a);
    SetupIs(w.guards[a], c.threshold, c.numOwners, c.owners);
    if c.DoReserve? { LookIsRead(w, c.parent); }
  }

  lemma {:induction false} SetupChildExactly(w: World, a: PublicKey, c: Call)
    requires Reachable(w) && a in w.guards && c.DoSetupChild?
    ensures Allowed(w, a, c) <==> Permits(BankOf(w), a, c)
  {
    LookIsRead(w, a);
    SetupIs(w.guards[a], c.threshold, c.numOwners, c.owners);
    if c.p.txType == CREATE_CHILD { OrderedIs(w, a, c.p); }
  }

  // ---- all calls ----

  /** In every reachable ledger the contract accepts a call exactly when the multisig permits it. */
  lemma {:induction false} AcceptsExactly(w: World, a: PublicKey, c: Call)
    requires Reachable(w)
    ensures Allowed(w, a, c) <==> Permits(BankOf(w), a, c)
  {
    if a in w.guards {
      match c
      case DoSetup(_, _, _) => SetupsExactly(w, a, c);
      case DoReserve(_, _, _, _, _) => SetupsExactly(w, a, c);
      case DoSetupChild(_, _, _, _) => SetupChildExactly(w, a, c);
      case DoPropose(p, voter) => ProposeExactly(w, a, p, voter);
      case DoApprove(p, voter) => ApproveExactly(w, a, p, voter);
      case DoTransfer(_) => LocalExactly(w, a, c);
      case DoAllocate(p) => AllocateExactly(w, a, p);
      case DoOwnerChange(p, insertAfter) => OwnerChangeExactly(w, a, p, insertAfter);
      case DoThresholdChange(_, _) => LocalExactly(w, a, c);
      case DoDelegate(_) => LocalExactly(w, a, c);
      case DoReclaim(_, _) => RemoteExactly(w, a, c);
      case DoDestroy(_, _) => RemoteExactly(w, a, c);
      case DoEnable(_, _) => RemoteExactly(w, a, c);
    }
  }

  // ---- effects ----

  lemma {:induction false} CallGrows(w: World, a: PublicKey, c: Call, k: Kind)
    requires Allowed(w, a, c) && k != OtherKind && (IsLocalExecution(c) ==> OwnersInv(Read(w, a)))
    requires Read(w, a).childMultiSigEnabled <= 1
    ensures Execs(After(w, a, c).events, k)
            == Execs(Read(w, a).events, k) + (if IsExecution(c) && KindOfCall(c) == k then [c.p] else [])
  {
    CallRecorded(w, a, c, k);
  }

  lemma LocalIsInitialized(w: World, a: PublicKey, c: Call)
    requires Allowed(w, a, c)
    ensures a in w.guards && (IsLocalExecution(c) ==> Initialized(Read(w, a)))
  {
  }

  lemma KindsOfCalls(c: Call)
    ensures IsExecution(c) && KindOfCall(c) == LocalKind <==> IsLocalExecution(c)
    ensures IsExecution(c) && KindOfCall(c) == LifecycleKind <==> IsRemoteExecution(c)
  {
  }

  lemma {:induction false} BothGrow(w: World, a: PublicKey, c: Call)
    requires Allowed(w, a, c) && (IsLocalExecution(c) ==> OwnersInv(Read(w, a))) && Read(w, a).childMultiSigEnabled <= 1
    ensures Execs(After(w, a, c).events, LocalKind)
            == Execs(Read(w, a).events, LocalKind) + (if IsLocalExecution(c) then [c.p] else [])
    ensures Execs(After(w, a, c).events, LifecycleKind)
            == Execs(Read(w, a).events, LifecycleKind) + (if IsRemoteExecution(c) then [c.p] else [])
  {
    KindsOfCalls(c);
    CallGrows(w, a, c, LocalKind);
    CallGrows(w, a, c, LifecycleKind);
  }

  lemma {:induction false} HistoryGrows(w: World, a: PublicKey, c: Call)
    requires Reachable(w) && Allowed(w, a, c)
    ensures var g, g' := Read(w, a), After(w, a, c);
            && Execs(g'.events, LocalKind)
               == Execs(g.events, LocalKind) + (if IsLocalExecution(c) then [c.p] else [])
            && Execs(g'.events, LifecycleKind)
               == Execs(g.events, LifecycleKind) + (if IsRemoteExecution(c) then [c.p] else [])
  {
    LocalIsInitialized(w, a, c);
    ReachableInv(w);
    GuardFacts(w, a);
    BothGrow(w, a, c);
  }

  /** The vault of an account, with the executions apart from the rest. */
  lemma {:induction false} VaultSplits(g: Guard, v: Vault)
    requires v.executed == Execs(g.events, LocalKind) && v.forParent == Execs(g.events, LifecycleKind)
    requires v.ready == Initialized(g) && v.owners == OwnerList(g) && v.threshold == g.threshold
             && v.epoch == g.configNonce
    requires v.votes == g.voteNullifiers.Keys && v.parent == g.parent && v.open == (g.childMultiSigEnabled == 1)
    requires v.reserved == g.reservedConfigHash && v.delegate == g.delegate
    ensures v == VaultOf(g)
  {
  }

  lemma {:induction false} CountKeys(g: Guard, p: Proposal, voter: PublicKey, count: nat)
    ensures Count(g, p, voter, count).voteNullifiers.Keys == g.voteNullifiers.Keys + {VoteKey(p, voter)}
  {
  }

  lemma {:induction false} VoteEffect(w: World, a: PublicKey, c: Call)
    requires Reachable(w) && Allowed(w, a, c) && IsVote(c)
    ensures VaultOf(After(w, a, c)) == Effect(VaultOf(Read(w, a)), a, c)
  {
    HistoryGrows(w, a, c);
    CountKeys(Read(w, a), c.p, c.voter, VoteCount(w, a, c));
    VaultSplits(After(w, a, c), Effect(VaultOf(Read(w, a)), a, c));
  }

  lemma {:induction false} TransferVault(g: Guard, a: PublicKey, p: Proposal, height: nat)
    requires p.txType == TRANSFER || p.txType == ALLOCATE_CHILD
    requires var es := AfterTransfer(g, p, height).events;
             Execs(es, LocalKind) == Execs(g.events, LocalKind) + [p]
             && Execs(es, LifecycleKind) == Execs(g.events, LifecycleKind)
    ensures VaultOf(AfterTransfer(g, p, height)) == Executing(VaultOf(g), a, p)
  {
    VaultSplits(AfterTransfer(g, p, height), Executing(VaultOf(g), a, p));
  }

  lemma {:induction false} TransferEffect(w: World, a: PublicKey, c: Call)
    requires Reachable(w) && Allowed(w, a, c) && (c.DoTransfer? || c.DoAllocate?)
    ensures VaultOf(After(w, a, c)) == Effect(VaultOf(Read(w, a)), a, c)
  {
    HistoryGrows(w, a, c);
    TransferVault(Read(w, a), a, c.p, w.height);
  }

  lemma {:induction false} OwnerChangeEffect(w: World, a: PublicKey, c: Call)
    requires Reachable(w) && Allowed(w, a, c) && c.DoOwnerChange?
    ensures VaultOf(After(w, a, c)) == Effect(VaultOf(Read(w, a)), a, c)
  {
    HistoryGrows(w, a, c);
    VaultSplits(After(w, a, c), Effect(VaultOf(Read(w, a)), a, c));
  }

  lemma {:induction false} ThresholdEffect(w: World, a: PublicKey, c: Call)
    requires Reachable(w) && Allowed(w, a, c) && c.DoThresholdChange?
    ensures VaultOf(After(w, a, c)) == Effect(VaultOf(Read(w, a)), a, c)
  {
    HistoryGrows(w, a, c);
    VaultSplits(After(w, a, c), Effect(VaultOf(Read(w, a)), a, c));
  }

  lemma {:induction false} DelegateEffect(w: World, a: PublicKey, c: Call)
    requires Reachable(w) && Allowed(w, a, c) && c.DoDelegate?
    ensures VaultOf(After(w, a, c)) == Effect(VaultOf(Read(w, a)), a, c)
  {
    HistoryGrows(w, a, c);
    VaultSplits(After(w, a, c), Effect(VaultOf(Read(w, a)), a, c));
  }

  lemma {:induction false} RemoteEffect(w: World, a: PublicKey, c: Call)
    requires Reachable(w) && Allowed(w, a, c) && IsRemoteExecution(c)
    ensures VaultOf(After(w, a, c)) == Effect(VaultOf(Read(w, a)), a, c)
  {
    HistoryGrows(w, a, c);
    VaultSplits(After(w, a, c), Effect(VaultOf(Read(w, a)), a, c));
  }

  lemma {:induction false} SetupEffect(w: World, a: PublicKey, c: Call)
    requires Reachable(w) && Allowed(w, a, c) && (c.DoSetup? || c.DoReserve? || c.DoSetupChild?)
    ensures VaultOf(After(w, a, c)) == Effect(VaultOf(Read(w, a)), a, c)
  {
    GuardKnown(w, a);
    HistoryGrows(w, a, c);
    assert Active(c.owners, c.numOwners) == c.owners[..c.numOwners];
    VaultSplits(After(w, a, c), Effect(VaultOf(Read(w, a)), a, c));
  }

  /** An accepted call does to its account what the multisig says, whatever the prover supplied. */
  lemma {:induction false} ActsExactly(w: World, a: PublicKey, c: Call)
    requires Reachable(w) && Allowed(w, a, c)
    ensures VaultOf(After(w, a, c)) == Effect(VaultOf(Read(w, a)), a, c)
  {
    if IsVote(c) { VoteEffect(w, a, c); }
    else if c.DoTransfer? || c.DoAllocate? { TransferEffect(w, a, c); }
    else if c.DoOwnerChange? { OwnerChangeEffect(w, a, c); }
    else if c.DoThresholdChange? { ThresholdEffect(w, a, c); }
    else if c.DoDelegate? { DelegateEffect(w, a, c); }
    else if IsRemoteExecution(c) { RemoteEffect(w, a, c); }
    else { SetupEffect(w, a, c); }
  }

  /** Replacing one account replaces its vault. */
  lemma {:induction false} BankAfter(w: World, w': World, a: PublicKey, g': Guard)
    requires w'.guards == w.guards[a := g'] && w'.signed == w.signed && w'.slot == w.slot && w'.height == w.height
    ensures BankOf(w') == BankOf(w).(vaults := BankOf(w).vaults[a := VaultOf(g')])
  {
  }

  lemma {:induction false} InvokeRefines(w: World, a: PublicKey, c: Call)
    requires Reachable(w)
    ensures var accepted := Permits(BankOf(w), a, c) && Sum(Outflow(w, a, c)) <= Balance(w.balances, a);
            && (Can(w, Invoke(a, c)) <==> accepted)
            && BankOf(Step(w, Invoke(a, c))) == if accepted then Next(BankOf(w), Invoke(a, c)) else BankOf(w)
  {
    AcceptsExactly(w, a, c);
    if Can(w, Invoke(a, c)) {
      ActsExactly(w, a, c);
      LookIsRead(w, a);
      BankAfter(w, Step(w, Invoke(a, c)), a, After(w, a, c));
    }
  }

  /** Every step of every run: refused attempts change nothing, accepted ones do what the multisig does. */
  lemma {:induction false} StepRefines(w: World, act: Action)
    requires Reachable(w)
    ensures BankOf(Step(w, act)) == if Can(w, act) then Next(BankOf(w), act) else BankOf(w)
    ensures act.Invoke? ==>
              (Can(w, act) <==>
               Permits(BankOf(w), act.at, act.call)
               && Sum(Outflow(w, act.at, act.call)) <= Balance(w.balances, act.at))
  {
    if act.Invoke? {
      InvokeRefines(w, act.at, act.call);
    } else if act.Deploy? && Can(w, act) {
      DeployedIsFresh(w.height);
      BankAfter(w, Step(w, act), act.at, Emit(BLANK, [Deployed], w.height));
    }
  }

  lemma {:induction false} DeployedIsFresh(height: nat)
    ensures VaultOf(Emit(BLANK, [Deployed], height)) == FRESH
  {
    var es := Emit(BLANK, [Deployed], height).events;
    assert es == [Emitted(Deployed, height)] && es[..|es| - 1] == [];
    assert Execs([], LocalKind) == [] && Execs([], LifecycleKind) == [];
    assert !es[|es| - 1].event.Execution?;
    assert BLANK.voteNullifiers.Keys == {};
  }
}
