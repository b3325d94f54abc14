/**
 What a derived status means: each of the four statuses and each reason of invalidity is reported exactly when the
 contract's state says so, given the guard's own counters and a complete index.
 */
module Statuses {
  import opened Primitives
  import opened Guards
  import opened GuardInvariant
  import opened Ledger
  import opened LedgerInvariant
  import opened Quorum
  import opened Executions
  import opened EventOrder
  import opened IndexTables
  import opened Reorg
  import opened HonestEvents
  import opened IndexMeaning
  import opened Multisig
  import opened Refinement
  import opened ProposalRecord

  /** The counters as read off the accounts themselves. */
  function OwnCounters(w: World, a: PublicKey): Option<ContractState> { Some(CountersOf(Read(w, a))) }

  function ReasonFor(w: World, h: Proposal): Option<InvalidReason> {
    DeriveInvalidReason(RowOf(h), OwnCounters(w, h.guardAddress), OwnCounters(w, h.childAccount))
  }

  function StatusFor(w: World, h: Proposal, executed: bool): Status {
    DeriveStatus(RowOf(h), executed, w.slot, ReasonFor(w, h))
  }

  /** The account that counts the executions a proposal competes with has executed its nonce or a later one. */
  predicate Overtaken(w: World, h: Proposal) {
    h.txType != CREATE_CHILD
    && h.nonce <= (if h.destination == REMOTE then Read(w, h.childAccount).parentNonce
                   else Read(w, h.guardAddress).nonce)
  }

  predicate EpochLeft(w: World, h: Proposal) { h.configNonce < Read(w, h.guardAddress).configNonce }

  predicate PastExpiry(w: World, h: Proposal) { 0 < h.expirySlot < w.slot }

  /**
   With the accounts' own counters the two reasons are exactly a left epoch and, in the current one, an overtaken
   nonce.
   */
  lemma {:induction false} ReasonExactly(w: World, h: Proposal)
    ensures ReasonFor(w, h) == Some(ConfigNonceStale) <==> EpochLeft(w, h)
    ensures ReasonFor(w, h) == Some(ProposalNonceStale) <==> !EpochLeft(w, h) && Overtaken(w, h)
    ensures ReasonFor(w, h) == None <==> !EpochLeft(w, h) && !Overtaken(w, h)
  {
  }

  /** Missing or unreadable values decide nothing, and the epoch is decided before the nonce. */
  lemma {:induction false} ReasonFromRows(row: Row, parent: Option<ContractState>, child: Option<ContractState>)
    ensures DeriveInvalidReason(row, parent, child) == Some(ConfigNonceStale) <==>
            exists n, m :: row.configNonce == Some(n) && parent.Some? && parent.value.configNonce == Some(m) && n < m
    ensures DeriveInvalidReason(row, parent, child) == Some(ProposalNonceStale) <==>
            && DeriveInvalidReason(row, parent, child) != Some(ConfigNonceStale) && !row.createChild
            && exists n, m :: row.nonce == Some(n) && n <= m
                 && if row.remote then child.Some? && child.value.parentNonce == Some(m)
                    else parent.Some? && parent.value.nonce == Some(m)
  {
    if DeriveInvalidReason(row, parent, child) == Some(ConfigNonceStale) {
      var n, m := row.configNonce.value, parent.value.configNonce.value;
      assert row.configNonce == Some(n) && parent.value.configNonce == Some(m);
    }
    if DeriveInvalidReason(row, parent, child) == Some(ProposalNonceStale) {
      var n, m := row.nonce.value, if row.remote then child.value.parentNonce.value else parent.value.nonce.value;
      assert row.nonce == Some(n) && n <= m;
    }
  }

  /** The four statuses, each exactly. */
  lemma {:induction false} StatusExactly(w: World, h: Proposal, executed: bool)
    ensures StatusFor(w, h, executed) == StatusExecuted <==> executed
    ensures StatusFor(w, h, executed) == StatusExpired <==> !executed && PastExpiry(w, h)
    ensures StatusFor(w, h, executed) == StatusInvalidated <==>
            !executed && !PastExpiry(w, h) && (EpochLeft(w, h) || Overtaken(w, h))
    ensures StatusFor(w, h, executed) == StatusPending <==>
            !executed && !PastExpiry(w, h) && !EpochLeft(w, h) && !Overtaken(w, h)
  {
    ReasonExactly(w, h);
  }

  /** With the executions table of a complete index, executed is reported exactly for the executed LOCAL proposals. */
  lemma {:induction false} ExecutedExactly(w: World, c: seq<ChainEvent>, at: seq<nat>, tx: nat -> Option<nat>,
                                           h: Proposal)
    requires Reachable(w) && h.guardAddress in w.guards && h.destination == LOCAL
    requires DeliversAll(c, w.guards[h.guardAddress].events, at, tx) && InApplyOrder(c)
    ensures var status := StatusFor(w, h, h in Indexed(c).executions);
            status == StatusExecuted <==> Leaf(w.guards[h.guardAddress].approvals, h) == EXECUTED_MARKER
  {
    TablesTrackGuard(w, h.guardAddress, c, at, tx, h, VoteKey(h, EMPTY_KEY));
    StatusExactly(w, h, h in Indexed(c).executions);
  }

  // ---- pending proposals ----

  /** The executions a proposal's own execution is recorded in: the guard's, or those of the child it names. */
  predicate Done(w: World, h: Proposal) {
    h in Execs(Read(w, if h.destination == REMOTE then h.childAccount else h.guardAddress).events, KindOf(h.txType))
  }

  predicate Registered(w: World, h: Proposal) {
    h.guardAddress in w.guards && Leaf(w.guards[h.guardAddress].approvals, h) != 0
  }

  lemma {:induction false} RegisteredShape(w: World, h: Proposal)
    requires Reachable(w) && Registered(w, h)
    ensures Shape(h) && h.configNonce <= w.guards[h.guardAddress].configNonce
  {
    GuardKnown(w, h.guardAddress);
    Tally(h.guardAddress, w.guards[h.guardAddress], h);
    ShapeIsRules(h);
    RegisteredEpoch(w, h.guardAddress, h);
  }

  /** What held when the proposal was made and cannot have changed. */
  lemma {:induction false} RegisteredStill(w: World, h: Proposal)
    requires Reachable(w) && Registered(w, h)
    ensures h.expirySlot <= UINT32_MAX && (h.txType == CREATE_CHILD ==> h.nonce == 0)
    ensures h.destination == REMOTE && h.txType != CREATE_CHILD ==>
              Initialized(Read(w, h.childAccount)) && Read(w, h.childAccount).parent == h.guardAddress
  {
    var a := h.guardAddress;
    var balances, acts :| w == Run(Genesis(balances), acts);
    var i, proposer := RegisteredByPropose(balances, acts, a, h);
    var w0 := Run(Genesis(balances), acts[..i]);
    assert Genesis(balances) == Run(Genesis(balances), []);
    ReachableRun(Genesis(balances), acts[..i]);
    ProposedFacts(w0, a, h, proposer);
    RunConcat(Genesis(balances), acts[..i], acts[i..]);
    assert acts == acts[..i] + acts[i..];
    if h.destination == REMOTE && h.txType != CREATE_CHILD { ParentIsForever(w0, acts[i..], h.childAccount); }
  }

  lemma {:induction false} ProposedFacts(w: World, a: PublicKey, h: Proposal, proposer: PublicKey)
    requires Allowed(w, a, DoPropose(h, proposer))
    ensures h.expirySlot <= UINT32_MAX && (h.txType == CREATE_CHILD ==> h.nonce == 0)
    ensures h.destination == REMOTE && h.txType != CREATE_CHILD ==>
              h.childAccount in w.guards && Initialized(w.guards[h.childAccount])
              && w.guards[h.childAccount].parent == a
  {
  }

  /**
   A registered proposal is pending exactly when the contract still counts it: it is not executed, of its guard's
   current epoch, on time, and ahead of the executions it competes with.
   */
  lemma {:induction false} PendingExactly(w: World, h: Proposal)
    requires Reachable(w) && Registered(w, h) && w.slot <= UINT32_MAX
    ensures StatusFor(w, h, Done(w, h)) == StatusPending <==>
            Live(VaultOf(w.guards[h.guardAddress]), h.guardAddress, h, w.slot) && Ahead(BankOf(w), h.guardAddress, h)
            && !Done(w, h)
  {
    StatusExactly(w, h, Done(w, h));
    RegisteredShape(w, h);
    RegisteredStill(w, h);
    LiveExactly(w, h);
    AheadExactly(w, h);
  }

  lemma {:induction false} LiveExactly(w: World, h: Proposal)
    requires h.guardAddress in w.guards && h.configNonce <= w.guards[h.guardAddress].configNonce
    requires h.expirySlot <= UINT32_MAX && w.slot <= UINT32_MAX
    ensures Live(VaultOf(w.guards[h.guardAddress]), h.guardAddress, h, w.slot)
            <==> !EpochLeft(w, h) && !PastExpiry(w, h)
  {
  }

  lemma {:induction false} AheadExactly(w: World, h: Proposal)
    requires Reachable(w) && h.guardAddress in w.guards && Shape(h) && (h.txType == CREATE_CHILD ==> h.nonce == 0)
    requires h.destination == REMOTE && h.txType != CREATE_CHILD ==>
               Initialized(Read(w, h.childAccount)) && Read(w, h.childAccount).parent == h.guardAddress
    ensures Ahead(BankOf(w), h.guardAddress, h) <==> !Overtaken(w, h)
  {
    AheadIs(w, h.guardAddress, h);
  }

  /** A pending LOCAL proposal takes the vote of every owner who has not voted; one that is not pending takes none. */
  lemma {:induction false} PendingTakesVotes(w: World, h: Proposal, voter: PublicKey)
    requires Reachable(w) && Registered(w, h) && h.destination == LOCAL && w.slot <= UINT32_MAX
    requires Acts(VaultOf(w.guards[h.guardAddress])) && Signature(voter, h, ForApprove) in w.signed
    requires var v := VaultOf(w.guards[h.guardAddress]); voter in v.owners && voter !in Backers(v, h)
    ensures StatusFor(w, h, Done(w, h)) == StatusPending <==> Allowed(w, h.guardAddress, DoApprove(h, voter))
  {
    PendingExactly(w, h);
    VoteOpens(w, h, voter);
    AcceptsExactly(w, h.guardAddress, DoApprove(h, voter));
  }

  /** Apart from the voter, a second vote depends on what pending says. */
  lemma {:induction false} VoteOpens(w: World, h: Proposal, voter: PublicKey)
    requires Reachable(w) && Registered(w, h) && h.destination == LOCAL
    requires Acts(VaultOf(w.guards[h.guardAddress])) && Signature(voter, h, ForApprove) in w.signed
    requires var v := VaultOf(w.guards[h.guardAddress]); voter in v.owners && voter !in Backers(v, h)
    ensures Permits(BankOf(w), h.guardAddress, DoApprove(h, voter)) <==>
            Live(VaultOf(w.guards[h.guardAddress]), h.guardAddress, h, w.slot) && Ahead(BankOf(w), h.guardAddress, h)
            && !Done(w, h)
  {
    var a := h.guardAddress;
    RegisteredShape(w, h);
    GuardKnown(w, a);
    LookIsRead(w, a);
    Tally(a, w.guards[a], h);
    assert RegisteredInv(a, w.guards[a].parent, w.guards[a].configNonce, h);
  }
}
