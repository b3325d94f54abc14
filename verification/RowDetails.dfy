/**
 The columns of single rows: a proposal's row carries its proposer, block and memo, a vote's row its count and
 block, an execution's row its block and transaction, and the target mirrors the first receiver.
 */
module RowDetails {
  import opened Primitives
  import opened Sequences
  import opened Guards
  import opened Ledger
  import opened EventOrder
  import opened IndexTables
  import opened Reorg
  import opened ReceiverRows
  import opened HonestEvents
  import opened IndexMeaning

  /** No two events propose, cast or execute the same. */
  predicate Unique(c: seq<ChainEvent>) { forall i, j :: 0 <= i < j < |c| ==> !SameSubject(c[i].event, c[j].event) }

  lemma {:induction false} DeliveredOnce(c: seq<ChainEvent>, es: seq<Emitted>, at: seq<nat>, tx: nat -> Option<nat>)
    requires NoRepeats(es) && Delivers(c, es, at, tx) && OnlySlotsRepeat(c)
    ensures Unique(c)
  {
    forall i, j | 0 <= i < j < |c| ensures !SameSubject(c[i].event, c[j].event) {
      if SameSubject(c[i].event, c[j].event) { OneIndex(es, at[i], at[j]); }
    }
  }

  /** A new event that is no receiver slot has not been recorded. */
  lemma {:induction false} NotRecorded(c: seq<ChainEvent>, n: nat)
    requires OnlySlotsRepeat(c) && n < |c| && !c[n].event.ReceiverSlot?
    ensures FingerprintOf(c[n]) !in Indexed(c[..n]).raw
  {
    if FingerprintOf(c[n]) in Indexed(c[..n]).raw { var i := Repeated(c, n); }
  }

  // ---- proposals ----

  predicate ProposalRowOf(t: Tables, e: ChainEvent)
    requires e.event.Proposed?
  {
    var h := e.event.hash;
    h in t.proposals && t.proposals[h].createdAt == e.height && t.proposals[h].proposer == e.event.proposer
    && t.proposals[h].memo == e.memo
  }

  lemma {:induction false} ProposalStep(t: Tables, e: ChainEvent, order: nat, first: ChainEvent)
    requires first.event.Proposed? && !SameSubject(first.event, e.event) && ProposalRowOf(t, first)
    ensures ProposalRowOf(Ingest(t, e, order), first)
  {
  }

  lemma {:induction false} ProposalFirst(c: seq<ChainEvent>, i: nat)
    requires Unique(c) && OnlySlotsRepeat(c) && i < |c| && c[i].event.Proposed?
    ensures ProposalRowOf(Ingest(Indexed(c[..i]), c[i], i), c[i])
  {
    NotRecorded(c, i);
    ProposalsAt(c, i, c[i].event.hash);
    forall k | 0 <= k < i ensures !(c[k].event.Proposed? && c[k].event.hash == c[i].event.hash) {
      assert !SameSubject(c[k].event, c[i].event);
    }
  }

  lemma {:induction false} ProposalDetails(c: seq<ChainEvent>, n: nat, i: nat)
    requires Unique(c) && OnlySlotsRepeat(c) && i < n <= |c| && c[i].event.Proposed?
    ensures ProposalRowOf(Indexed(c[..n]), c[i])
  {
    IndexedSnoc(c, n - 1);
    if n == i + 1 {
      ProposalFirst(c, i);
    } else {
      ProposalDetails(c, n - 1, i);
      ProposalStep(Indexed(c[..n - 1]), c[n - 1], n - 1, c[i]);
    }
  }

  // ---- votes ----

  predicate ApprovalRowOf(t: Tables, e: ChainEvent)
    requires e.event.Approval?
  {
    var k := VoteKey(e.event.hash, e.event.approver);
    k in t.approvals && t.approvals[k] == ApprovalRow(e.event.approvalCount, e.height)
  }

  lemma {:induction false} ApprovalStep(t: Tables, e: ChainEvent, order: nat, first: ChainEvent)
    requires first.event.Approval? && !SameSubject(first.event, e.event) && ApprovalRowOf(t, first)
    ensures ApprovalRowOf(Ingest(t, e, order), first)
  {
  }

  lemma {:induction false} ApprovalDetails(c: seq<ChainEvent>, self: PublicKey, n: nat, i: nat)
    requires Usable(c, self) && Unique(c) && OnlySlotsRepeat(c) && i < n <= |c| && c[i].event.Approval?
    ensures ApprovalRowOf(Indexed(c[..n]), c[i])
  {
    IndexedSnoc(c, n - 1);
    if n == i + 1 {
      NotRecorded(c, i);
      Lookup(c, self, i);
    } else {
      ApprovalDetails(c, self, n - 1, i);
      ApprovalStep(Indexed(c[..n - 1]), c[n - 1], n - 1, c[i]);
    }
  }

  // ---- executions ----

  predicate ExecutionRowOf(t: Tables, e: ChainEvent)
    requires e.event.Execution?
  {
    e.event.hash in t.executions && t.executions[e.event.hash] == ExecutionRow(e.height, e.txHash)
  }

  lemma {:induction false} ExecutionFirst(c: seq<ChainEvent>, self: PublicKey, i: nat)
    requires Usable(c, self) && OnlySlotsRepeat(c) && i < |c|
    requires c[i].event.Execution? && LocalType(c[i].event.txType)
    ensures ExecutionRowOf(Ingest(Indexed(c[..i]), c[i], i), c[i])
  {
    NotRecorded(c, i);
    Lookup(c, self, i);
  }

  lemma {:induction false} ExecutionStep(t: Tables, e: ChainEvent, order: nat, first: ChainEvent)
    requires first.event.Execution? && !SameSubject(first.event, e.event) && ExecutionRowOf(t, first)
    ensures ExecutionRowOf(Ingest(t, e, order), first)
  {
  }

  lemma {:induction false} ExecutionDetails(c: seq<ChainEvent>, self: PublicKey, n: nat, i: nat)
    requires Usable(c, self) && Unique(c) && OnlySlotsRepeat(c) && i < n <= |c|
    requires c[i].event.Execution? && LocalType(c[i].event.txType)
    ensures ExecutionRowOf(Indexed(c[..n]), c[i])
  {
    IndexedSnoc(c, n - 1);
    if n == i + 1 {
      ExecutionFirst(c, self, i);
    } else {
      ExecutionDetails(c, self, n - 1, i);
      ExecutionStep(Indexed(c[..n - 1]), c[n - 1], n - 1, c[i]);
    }
  }

  // ---- targets ----

  /** A proposal that names an owner or a delegate mirrors its first receiver row as its target. */
  predicate Mirrors(row: ProposalRow, h: Proposal) {
    row.toAddress == if h.txType in {1, 2, 4} && row.receivers != [] then Some(row.receivers[0].address) else None
  }

  predicate TargetsMirror(t: Tables) { forall h :: h in t.proposals ==> Mirrors(t.proposals[h], h) }

  lemma {:induction false} MirrorStep(t: Tables, e: ChainEvent, order: nat)
    requires TargetsMirror(t)
    ensures TargetsMirror(Ingest(t, e, order))
  {
  }

  lemma {:induction false} TargetsAt(c: seq<ChainEvent>, n: nat)
    requires n <= |c|
    ensures TargetsMirror(Indexed(c[..n]))
  {
    if n > 0 {
      TargetsAt(c, n - 1);
      IndexedSnoc(c, n - 1);
      MirrorStep(Indexed(c[..n - 1]), c[n - 1], n - 1);
    }
  }

  // ---- memberships ----

  /** What a membership event leaves in the table; an empty setup slot leaves nothing. */
  predicate MemberRowOf(t: Tables, e: ChainEvent)
    requires e.event.SetupOwner? || e.event.OwnerChange?
  {
    if e.event.SetupOwner?
    then e.event.owner == EMPTY_KEY || MemberRow(e.event.owner, true, Some(e.event.index), e.height) in t.members
    else MemberRow(e.event.owner, e.event.added, None, e.height) in t.members
  }

  lemma {:induction false} MemberDetails(c: seq<ChainEvent>, n: nat, i: nat)
    requires OnlySlotsRepeat(c) && i < n <= |c| && (c[i].event.SetupOwner? || c[i].event.OwnerChange?)
    ensures MemberRowOf(Indexed(c[..n]), c[i])
  {
    IndexedSnoc(c, n - 1);
    if n == i + 1 { NotRecorded(c, i); } else { MemberDetails(c, n - 1, i); }
  }

  // ---- a proposal emitted once more, by another transaction ----

  /** Only the memo is refreshed; an event recorded before refreshes nothing. */
  lemma {:induction false} ReproposalRefreshesMemo(t: Tables, e: ChainEvent, order: nat)
    requires e.event.Proposed? && e.event.hash in t.proposals
    ensures var h := e.event.hash; var t' := Ingest(t, e, order);
            && t'.proposals.Keys == t.proposals.Keys
            && (forall k :: k in t.proposals && k != h ==> t'.proposals[k] == t.proposals[k])
            && t'.proposals[h].(memo := None) == t.proposals[h].(memo := None)
            && t'.proposals[h].memo == if FingerprintOf(e) in t.raw then t.proposals[h].memo else e.memo
  {
  }

  // ---- what the rows say ----

  /** The row an event is responsible for carries what was emitted and where. */
  predicate RowOfEvent(t: Tables, e: ChainEvent) {
    match e.event
    case Proposed(_, _) => ProposalRowOf(t, e)
    case Approval(_, _, _, _, _) => ApprovalRowOf(t, e)
    case Execution(_, txType, _) => LocalType(txType) ==> ExecutionRowOf(t, e)
    case SetupOwner(_, _) => MemberRowOf(t, e)
    case OwnerChange(_, _, _, _, _, _) => MemberRowOf(t, e)
    case _ => true
  }

  /** Once every event of a reachable guard is applied, every row carries what its event carried, and targets mirror. */
  lemma {:induction false} RowsCarryEvents(w: World, a: PublicKey, c: seq<ChainEvent>, at: seq<nat>,
                                           tx: nat -> Option<nat>, i: nat)
    requires Reachable(w) && a in w.guards && DeliversAll(c, w.guards[a].events, at, tx) && InApplyOrder(c)
    requires OnlySlotsRepeat(c) && i < |c|
    ensures RowOfEvent(Indexed(c), c[i]) && TargetsMirror(Indexed(c))
  {
    ReachableFacts(w, a);
    DeliveredUsable(c, w.guards[a], a, at, tx, w.height);
    DeliveredOnce(c, w.guards[a].events, at, tx);
    assert c[..|c|] == c;
    TargetsAt(c, |c|);
    if c[i].event.SetupOwner? || c[i].event.OwnerChange? { MemberDetails(c, |c|, i); }
    if c[i].event.Proposed? { ProposalDetails(c, |c|, i); }
    if c[i].event.Approval? { ApprovalDetails(c, a, |c|, i); }
    if c[i].event.Execution? && LocalType(c[i].event.txType) { ExecutionDetails(c, a, |c|, i); }
  }
}
