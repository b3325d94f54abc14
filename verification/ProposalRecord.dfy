/**
 The read-time verdicts of proposal-record.ts and their soundness against the contract: a proposal
 reported invalidated or expired, even from a lagging index, can never be voted on or executed again.
 */
module ProposalRecord {
  import opened Primitives
  import opened Guards
  import opened Ledger
  import opened LedgerInvariant
  import opened Quorum
  import opened Executions

  datatype InvalidReason = ConfigNonceStale | ProposalNonceStale

  datatype Status = StatusExecuted | StatusExpired | StatusInvalidated | StatusPending

  /** Counters of the latest ContractConfig row; a column may be null. */
  datatype ContractState = ContractState(nonce: Option<nat>, parentNonce: Option<nat>, configNonce: Option<nat>)

  /** The proposal columns the verdicts read. A numeric column is None when null or not a finite number. */
  datatype Row = Row(nonce: Option<nat>, configNonce: Option<nat>, remote: bool, createChild: bool,
                     expirySlot: Option<nat>)

  function DeriveInvalidReason(row: Row, parent: Option<ContractState>,
                               child: Option<ContractState>): (r: Option<InvalidReason>)
  {
    if parent.Some? && parent.value.configNonce.Some? && row.configNonce.Some?
      && row.configNonce.value < parent.value.configNonce.value
    then Some(ConfigNonceStale)
    else if row.createChild || row.nonce.None? then None
    else if !row.remote then
      if parent.Some? && parent.value.nonce.Some? && row.nonce.value <= parent.value.nonce.value
        then Some(ProposalNonceStale) else None
    else
      if child.Some? && child.value.parentNonce.Some? && row.nonce.value <= child.value.parentNonce.value
        then Some(ProposalNonceStale) else None
  }

  function DeriveStatus(row: Row, executed: bool, latestSlot: nat, reason: Option<InvalidReason>): (s: Status)
  {
    var expiry := if row.expirySlot.Some? then row.expirySlot.value else 0;
    if executed then StatusExecuted
    else if expiry > 0 && latestSlot > expiry then StatusExpired
    else if reason.Some? then StatusInvalidated
    else StatusPending
  }

  /** The row indexed from a proposal's event. */
  function RowOf(h: Proposal): (row: Row)
  {
    Row(Some(h.nonce), Some(h.configNonce), h.destination == REMOTE, h.txType == CREATE_CHILD, Some(h.expirySlot))
  }

  /** An index that is behind the chain, or missing values, but never ahead of it. */
  predicate Lagging(index: Option<ContractState>, g: Guard) {
    index.Some? ==>
      && (index.value.nonce.Some? ==> index.value.nonce.value <= g.nonce)
      && (index.value.parentNonce.Some? ==> index.value.parentNonce.value <= g.parentNonce)
      && (index.value.configNonce.Some? ==> index.value.configNonce.value <= g.configNonce)
  }

  function CountersOf(g: Guard): ContractState {
    ContractState(Some(g.nonce), Some(g.parentNonce), Some(g.configNonce))
  }

  /** Counters read in any earlier state of the run are lagging ones. */
  lemma {:induction false} EarlierStateLags(w: World, acts: seq<Action>, a: PublicKey)
    requires Reachable(w)
    ensures Lagging(Some(CountersOf(Read(w, a))), Read(Run(w, acts), a))
  {
    CountersOnlyRise(w, acts, a);
  }

  /** Nothing can be done with a proposal whose verdict is non-null in the present state. */
  lemma InvalidIsUnusable(w: World, h: Proposal, parent: Option<ContractState>, child: Option<ContractState>,
                          b: PublicKey, c: Call)
    requires Lagging(parent, Read(w, h.guardAddress)) && Lagging(child, Read(w, h.childAccount))
    requires DeriveInvalidReason(RowOf(h), parent, child).Some? && Uses(c, h)
    ensures !Allowed(w, b, c)
  {
    if Allowed(w, b, c) {
      UseNeedsCurrentEpoch(w, b, c);
    }
  }

  /** A proposal reported invalidated from counters that lag the chain is dead in every continuation of the run. */
  lemma {:induction false} InvalidatedIsDead(w: World, h: Proposal, parent: Option<ContractState>,
                                             child: Option<ContractState>, acts: seq<Action>, b: PublicKey, c: Call)
    requires Reachable(w)
    requires Lagging(parent, Read(w, h.guardAddress)) && Lagging(child, Read(w, h.childAccount))
    requires DeriveInvalidReason(RowOf(h), parent, child).Some? && Uses(c, h)
    ensures !Allowed(Run(w, acts), b, c)
  {
    CountersOnlyRise(w, acts, h.guardAddress);
    CountersOnlyRise(w, acts, h.childAccount);
    InvalidIsUnusable(Run(w, acts), h, parent, child, b, c);
  }

  lemma {:induction false} SlotOnlyRises(w: World, acts: seq<Action>)
    requires Reachable(w)
    ensures w.slot <= Run(w, acts).slot
  {
    ReachableInv(w);
    RunKeeps(w, acts);
  }

  lemma UseNeedsOpenExpiry(w: World, b: PublicKey, c: Call)
    requires Allowed(w, b, c) && (IsVote(c) || IsExecution(c))
    ensures c.p.expirySlot == 0 || w.slot <= c.p.expirySlot
  {
  }

  /** The two final statuses other than executed are final: the contract refuses every later use. */
  lemma {:induction false} FinalStatusIsDead(w: World, h: Proposal, executed: bool, latestSlot: nat,
                                             parent: Option<ContractState>, child: Option<ContractState>,
                          acts: seq<Action>, b: PublicKey, c: Call)
    requires Reachable(w) && latestSlot <= w.slot
    requires Lagging(parent, Read(w, h.guardAddress)) && Lagging(child, Read(w, h.childAccount))
    requires var s := DeriveStatus(RowOf(h), executed, latestSlot, DeriveInvalidReason(RowOf(h), parent, child));
             s == StatusExpired || s == StatusInvalidated
    requires Uses(c, h)
    ensures !Allowed(Run(w, acts), b, c)
  {
    if DeriveInvalidReason(RowOf(h), parent, child).Some? {
      InvalidatedIsDead(w, h, parent, child, acts, b, c);
    } else {
      SlotOnlyRises(w, acts);
      if Allowed(Run(w, acts), b, c) { UseNeedsOpenExpiry(Run(w, acts), b, c); }
    }
  }
}
