/**
 Event sourcing is complete: in every reachable ledger, the indexed events of a guard, delivered in
 any order and any number of times, rebuild exactly its owner list and its maps, and no block diverges.
 */
module EventSourcing {
  import opened Primitives
  import opened Sequences
  import opened ListCommitment
  import opened Guards
  import opened GuardInvariant
  import opened GuardCalls
  import opened Ledger
  import opened LedgerInvariant
  import opened Storage
  import opened EventRebuild

  // ---- indexing ----

  /** The empty key is not a curve point and does not decode. */
  function Decoded(pk: PublicKey): Option<PublicKey> { if pk == EMPTY_KEY then None else Some(pk) }

  function PayloadOf(e: Event): Payload {
    match e
    case SetupOwner(owner, index) => SetupOwnerRow(Decoded(owner), Some(index))
    case Proposed(h, proposer) => ProposalRow(Some(h), Decoded(proposer))
    case Approval(h, approver, count, approvals, votes) =>
      ApprovalRow(Some(h), Decoded(approver), Some(count), Some(approvals), Some(votes))
    case Execution(h, t, root) => ExecutionRow(Some(h), Some(t), Some(root))
    case OwnerChange(_, owner, added, _, newOwners, configNonce) =>
      OwnerChangeRow(Change(Known(configNonce), Decoded(owner), added, Some(OwnersHash(newOwners))))
    case _ => OtherRow
  }

  /** The row served for an event, with its true inclusion height. */
  function RowOf(e: Emitted): Row { Row(PayloadOf(e.event), Some(e.height)) }

  function RowsOf(es: seq<Emitted>): (rows: seq<Row>)
    ensures |rows| == |es| && forall i :: 0 <= i < |es| ==> rows[i] == RowOf(es[i])
  {
    seq(|es|, i requires 0 <= i < |es| => RowOf(es[i]))
  }

  lemma RowsConcat(es: seq<Emitted>, more: seq<Emitted>)
    ensures RowsOf(es + more) == RowsOf(es) + RowsOf(more)
  {
  }

  /** The rows of one call's events. */
  function Batch(more: seq<Event>, height: nat): (rows: seq<Row>)
    ensures |rows| == |more| && forall i :: 0 <= i < |more| ==> rows[i] == Row(PayloadOf(more[i]), Some(height))
  {
    RowsOf(Stamp(more, height))
  }

  lemma BatchConcat(a: seq<Event>, b: seq<Event>, height: nat)
    ensures Batch(a + b, height) == Batch(a, height) + Batch(b, height)
  {
  }

  // ---- what each call emits ----

  function NewEvents(w: World, a: PublicKey, c: Call): (es: seq<Event>)
    requires Allowed(w, a, c)
  {
    var g := Read(w, a);
    if c.DoSetup? then [Setup(Active(c.owners, c.numOwners), c.threshold, c.numOwners, EMPTY_KEY)]
      + SetupOwnerEvents(c.owners, c.numOwners)
    else if c.DoReserve? then
      [CreateChildConfig(c.hash, a, Active(c.owners, c.numOwners), c.threshold, c.numOwners)]
      + CreateChildOwnerEvents(c.hash, c.owners, c.numOwners)
    else if c.DoSetupChild? then
      [Setup(Active(c.owners, c.numOwners), c.threshold, c.numOwners, c.p.guardAddress)]
      + SetupOwnerEvents(c.owners, c.numOwners)
      + [Execution(c.p, c.p.txType, map[]), CreateChild(c.p, c.p.guardAddress)]
    else if IsVote(c) then VoteNotices(w, a, c)
    else if IsLocalExecution(c) then [Executed(g, c.p)] + NoticesOf(w, a, c)
    else [ChildExecuted(g, c.p)] + NoticesOf(w, a, c)
  }

  lemma InitEmits(w: World, a: PublicKey, c: Call)
    requires Allowed(w, a, c) && (c.DoSetup? || c.DoReserve? || c.DoSetupChild?)
    ensures After(w, a, c).events == Read(w, a).events + Stamp(NewEvents(w, a, c), w.height)
  {
  }

  lemma VoteEmits(w: World, a: PublicKey, c: Call)
    requires Allowed(w, a, c) && IsVote(c)
    ensures After(w, a, c).events == Read(w, a).events + Stamp(NewEvents(w, a, c), w.height)
  {
  }

  lemma ExecutionEmits(w: World, a: PublicKey, c: Call)
    requires Allowed(w, a, c) && (IsLocalExecution(c) || IsRemoteExecution(c))
    ensures After(w, a, c).events == Read(w, a).events + Stamp(NewEvents(w, a, c), w.height)
  {
  }

  lemma CallEmits(w: World, a: PublicKey, c: Call)
    requires Allowed(w, a, c)
    ensures After(w, a, c).events == Read(w, a).events + Stamp(NewEvents(w, a, c), w.height)
  {
    if IsVote(c) { VoteEmits(w, a, c); }
    else if IsLocalExecution(c) || IsRemoteExecution(c) { ExecutionEmits(w, a, c); }
    else { InitEmits(w, a, c); }
  }

  // ---- maps ----

  /** Each on-chain map is the fold of the guard's rows. */
  ghost predicate MapsInv(g: Guard) {
    && g.approvals == RaiseAll(map[], RowsOf(g.events), ApprovalWrite)
    && g.voteNullifiers == RaiseAll(map[], RowsOf(g.events), VoteWrite)
    && g.childExecutions == RaiseAll(map[], RowsOf(g.events), ChildWrite)
  }

  /** An event that writes no map. */
  predicate Quiet(e: Event) {
    !e.Proposed? && !e.Approval? && (e.Execution? ==> e.txType == CREATE_CHILD)
  }

  lemma QuietBatch(m: map<Proposal, nat>, v: map<VoteKey, nat>, more: seq<Event>, height: nat)
    requires forall i :: 0 <= i < |more| ==> Quiet(more[i])
    ensures RaiseAll(m, Batch(more, height), ApprovalWrite) == m
    ensures RaiseAll(v, Batch(more, height), VoteWrite) == v
    ensures RaiseAll(m, Batch(more, height), ChildWrite) == m
  {
    RaiseAllQuiet(m, Batch(more, height), ApprovalWrite);
    RaiseAllQuiet(v, Batch(more, height), VoteWrite);
    RaiseAllQuiet(m, Batch(more, height), ChildWrite);
  }

  lemma OneRow<K(!new)>(m: map<K, nat>, r: Row, write: Row -> Option<Write<K>>)
    ensures RaiseAll(m, [r], write) == Raise(m, write(r))
  {
    assert [r][..0] == [];
    assert RaiseAll(m, [], write) == m;
  }

  /** One writing event followed by quiet ones. */
  lemma HeadBatch<K(!new)>(m: map<K, nat>, e: Event, more: seq<Event>, height: nat, write: Row -> Option<Write<K>>)
    requires forall m': map<K, nat>, r :: r in Batch(more, height) ==> Raise(m', write(r)) == m'
    ensures RaiseAll(m, Batch([e] + more, height), write) == Raise(m, write(Row(PayloadOf(e), Some(height))))
  {
    var r := Row(PayloadOf(e), Some(height));
    BatchConcat([e], more, height);
    assert Batch([e], height) == [r];
    RaiseAllConcat(m, [r], Batch(more, height), write);
    OneRow(m, r, write);
    RaiseAllQuiet(Raise(m, write(r)), Batch(more, height), write);
  }

  /** An execution's notices report changes but write no map. */
  lemma NoticesQuiet(w: World, a: PublicKey, c: Call)
    requires Allowed(w, a, c) && (IsLocalExecution(c) || IsRemoteExecution(c))
    ensures forall i ::
              0 <= i < |NoticesOf(w, a, c)| ==> Quiet(NoticesOf(w, a, c)[i]) && !NoticesOf(w, a, c)[i].SetupOwner?
  {
  }

  lemma HeadWrites(m: map<Proposal, nat>, v: map<VoteKey, nat>, k: map<Proposal, nat>, e: Event, more: seq<Event>,
                   height: nat)
    requires forall i :: 0 <= i < |more| ==> Quiet(more[i])
    ensures var r := Row(PayloadOf(e), Some(height));
            && RaiseAll(m, Batch([e] + more, height), ApprovalWrite) == Raise(m, ApprovalWrite(r))
            && RaiseAll(v, Batch([e] + more, height), VoteWrite) == Raise(v, VoteWrite(r))
            && RaiseAll(k, Batch([e] + more, height), ChildWrite) == Raise(k, ChildWrite(r))
  {
    HeadBatch(m, e, more, height, ApprovalWrite);
    HeadBatch(v, e, more, height, VoteWrite);
    HeadBatch(k, e, more, height, ChildWrite);
  }

  /** A proposal event and the approval event behind its receiver slots write the same leaf and vote. */
  lemma ProposeWrites(m: map<Proposal, nat>, v: map<VoteKey, nat>, k: map<Proposal, nat>, p: Proposal, voter: PublicKey,
                      approval: Event, height: nat)
    requires voter != EMPTY_KEY && Leaf(m, p) < PROPOSED_MARKER + 1 && Leaf(v, VoteKey(p, voter)) == 0
    requires approval.Approval? && approval.hash == p && approval.approver == voter
             && approval.approvalCount == PROPOSED_MARKER + 1
    ensures var batch := Batch([Proposed(p, voter)] + ReceiverEvents(p) + [approval], height);
            && RaiseAll(m, batch, ApprovalWrite) == Put(m, p, PROPOSED_MARKER + 1)
            && RaiseAll(v, batch, VoteWrite) == Put(v, VoteKey(p, voter), 1)
            && RaiseAll(k, batch, ChildWrite) == k
  {
    var head, last := [Proposed(p, voter)] + ReceiverEvents(p), Row(PayloadOf(approval), Some(height));
    BatchConcat(head, [approval], height);
    assert Batch([approval], height) == [last];
    HeadWrites(m, v, k, Proposed(p, voter), ReceiverEvents(p), height);
    var rows := Batch(head, height);
    LastRow(m, rows, last, ApprovalWrite);
    LastRow(v, rows, last, VoteWrite);
    LastRow(k, rows, last, ChildWrite);
  }

  lemma LastRow<K(!new)>(m: map<K, nat>, rows: seq<Row>, r: Row, write: Row -> Option<Write<K>>)
    ensures RaiseAll(m, rows + [r], write) == Raise(RaiseAll(m, rows, write), write(r))
  {
    RaiseAllConcat(m, rows, [r], write);
    OneRow(RaiseAll(m, rows, write), r, write);
  }

  lemma ApproveWrites(m: map<Proposal, nat>, v: map<VoteKey, nat>, k: map<Proposal, nat>, approval: Event, height: nat)
    requires approval.Approval? && approval.approver != EMPTY_KEY && Leaf(m, approval.hash) < approval.approvalCount
    requires Leaf(v, VoteKey(approval.hash, approval.approver)) == 0
    ensures var batch := Batch([approval], height);
            && RaiseAll(m, batch, ApprovalWrite) == Put(m, approval.hash, approval.approvalCount)
            && RaiseAll(v, batch, VoteWrite) == Put(v, VoteKey(approval.hash, approval.approver), 1)
            && RaiseAll(k, batch, ChildWrite) == k
  {
    assert [approval] + [] == [approval];
    HeadWrites(m, v, k, approval, [], height);
  }

  /** What the guard invariant says about the leaves a call is about to raise. */
  predicate RaisesLeaves(w: World, a: PublicKey, c: Call) {
    var g := Read(w, a);
    && (IsVote(c) ==> c.voter != EMPTY_KEY && Leaf(g.approvals, c.p) < VoteCount(w, a, c))
    && (IsLocalExecution(c) ==> Leaf(g.approvals, c.p) < EXECUTED_MARKER && WellFormed(c.p) && ProposeRules(c.p))
    && (IsRemoteExecution(c) ==> Leaf(g.childExecutions, c.p) == 0)
    && (!Initialized(g) ==> g.approvals == map[] && g.voteNullifiers == map[] && g.childExecutions == map[])
  }

  lemma CallRaises(w: World, a: PublicKey, c: Call)
    requires Allowed(w, a, c) && GuardInv(a, Read(w, a)) && EMPTY_KEY !in OwnerList(Read(w, a))
    ensures RaisesLeaves(w, a, c)
  {
    var g := Read(w, a);
    if IsVote(c) {
      VoteCallShape(w, a, c);
      CountValue(a, g, c.p, c.voter, VoteCount(w, a, c));
    } else if IsLocalExecution(c) {
      assert LeafInv(g.approvals, g.voteNullifiers, c.p) && RegisteredInv(a, g.parent, g.configNonce, c.p);
    }
  }

  /** The batch a call emits writes exactly the leaves the call writes. */
  ghost predicate BatchWrites(g: Guard, more: seq<Event>, height: nat, g': Guard) {
    && RaiseAll(g.approvals, Batch(more, height), ApprovalWrite) == g'.approvals
    && RaiseAll(g.voteNullifiers, Batch(more, height), VoteWrite) == g'.voteNullifiers
    && RaiseAll(g.childExecutions, Batch(more, height), ChildWrite) == g'.childExecutions
  }

  lemma VoteWrites(w: World, a: PublicKey, c: Call)
    requires Allowed(w, a, c) && RaisesLeaves(w, a, c) && IsVote(c)
    ensures BatchWrites(Read(w, a), NewEvents(w, a, c), w.height, After(w, a, c))
  {
    var g := Read(w, a);
    var r := Count(g, c.p, c.voter, VoteCount(w, a, c));
    var approval := Approval(c.p, c.voter, VoteCount(w, a, c), r.approvals, r.voteNullifiers);
    if c.DoPropose? {
      ProposeWrites(g.approvals, g.voteNullifiers, g.childExecutions, c.p, c.voter, approval, w.height);
    } else {
      ApproveWrites(g.approvals, g.voteNullifiers, g.childExecutions, approval, w.height);
    }
  }

  lemma ExecutionEffect(w: World, a: PublicKey, c: Call)
    requires Allowed(w, a, c) && (IsLocalExecution(c) || IsRemoteExecution(c))
    ensures var g, g' := Read(w, a), After(w, a, c);
            && g'.approvals == (if IsLocalExecution(c) then Put(g.approvals, c.p, EXECUTED_MARKER) else g.approvals)
            && g'.voteNullifiers == g.voteNullifiers
            && g'.childExecutions
               == (if IsLocalExecution(c) then g.childExecutions else Put(g.childExecutions, c.p, EXECUTED_MARKER))
            && (IsLocalExecution(c) ==> LocalType(c.p.txType)) && (IsRemoteExecution(c) ==> LifecycleType(c.p.txType))
  {
  }

  lemma ExecutionWrites(w: World, a: PublicKey, c: Call)
    requires Allowed(w, a, c) && RaisesLeaves(w, a, c) && (IsLocalExecution(c) || IsRemoteExecution(c))
    ensures BatchWrites(Read(w, a), NewEvents(w, a, c), w.height, After(w, a, c))
  {
    NoticesQuiet(w, a, c);
    ExecutionEffect(w, a, c);
    ExecutedWrites(Read(w, a), c.p, NewEvents(w, a, c)[0], NoticesOf(w, a, c), w.height, After(w, a, c));
  }

  lemma ExecutedWrites(g: Guard, p: Proposal, executed: Event, notices: seq<Event>, height: nat, g': Guard)
    requires executed.Execution? && executed.hash == p && executed.txType == p.txType && forall i ::
               0 <= i < |notices| ==> Quiet(notices[i])
    requires g'.voteNullifiers == g.voteNullifiers
    requires || (&& LocalType(p.txType) && Leaf(g.approvals, p) < EXECUTED_MARKER
                 && g'.approvals == Put(g.approvals, p, EXECUTED_MARKER) && g'.childExecutions == g.childExecutions)
             || (&& LifecycleType(p.txType) && Leaf(g.childExecutions, p) == 0
                 && g'.approvals == g.approvals && g'.childExecutions == Put(g.childExecutions, p, EXECUTED_MARKER))
    ensures BatchWrites(g, [executed] + notices, height, g')
  {
    HeadWrites(g.approvals, g.voteNullifiers, g.childExecutions, executed, notices, height);
  }

  lemma InitWrites(w: World, a: PublicKey, c: Call)
    requires Allowed(w, a, c) && RaisesLeaves(w, a, c) && (c.DoSetup? || c.DoReserve? || c.DoSetupChild?)
    ensures BatchWrites(Read(w, a), NewEvents(w, a, c), w.height, After(w, a, c))
  {
    QuietBatch(Read(w, a).approvals, Read(w, a).voteNullifiers, NewEvents(w, a, c), w.height);
  }

  lemma MapsStep(w: World, a: PublicKey, c: Call)
    requires Allowed(w, a, c) && RaisesLeaves(w, a, c) && MapsInv(Read(w, a))
    ensures MapsInv(After(w, a, c)) && BatchWrites(Read(w, a), NewEvents(w, a, c), w.height, After(w, a, c))
  {
    if IsVote(c) { VoteWrites(w, a, c); }
    else if IsLocalExecution(c) || IsRemoteExecution(c) { ExecutionWrites(w, a, c); }
    else { InitWrites(w, a, c); }
    MapsAppend(w, a, c);
  }

  lemma MapsAppend(w: World, a: PublicKey, c: Call)
    requires Allowed(w, a, c) && MapsInv(Read(w, a))
             && BatchWrites(Read(w, a), NewEvents(w, a, c), w.height, After(w, a, c))
    ensures MapsInv(After(w, a, c))
  {
    var g, more := Read(w, a), NewEvents(w, a, c);
    CallEmits(w, a, c);
    RowsConcat(g.events, Stamp(more, w.height));
    RaiseAllConcat(map[], RowsOf(g.events), Batch(more, w.height), ApprovalWrite);
    RaiseAllConcat(map[], RowsOf(g.events), Batch(more, w.height), VoteWrite);
    RaiseAllConcat(map[], RowsOf(g.events), Batch(more, w.height), ChildWrite);
  }
}
