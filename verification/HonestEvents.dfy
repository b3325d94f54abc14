/**
 What the indexer may rely on: in every reachable ledger a guard emits at most one proposal event per
 hash, one approval event per hash and voter, and one execution event per hash, and emits receiver
 slots together with their proposal. A chain that delivers a guard's events is therefore honest.
 */
module HonestEvents {
  import opened Primitives
  import opened Sequences
  import opened Guards
  import opened GuardInvariant
  import opened Ledger
  import opened LedgerInvariant
  import opened EventRebuild
  import opened EventSourcing
  import opened EventCompleteness
  import opened EventOrder
  import opened IndexTables
  import opened Reorg

  predicate NoRepeats(es: seq<Emitted>) { forall i, j :: 0 <= i < j < |es| ==> !SameSubject(es[i].event, es[j].event) }

  predicate SlotsWithProposal(es: seq<Emitted>) {
    forall j :: 0 <= j < |es| && es[j].event.ReceiverSlot? ==>
      exists i :: 0 <= i < |es| && es[i].event.Proposed? && es[i].event.hash == es[j].event.hash
        && es[i].height == es[j].height
  }

  predicate Typed(e: Event) {
    && (e.Execution? ==> e.txType == e.hash.txType)
    && (e.Approval? ==> e.approver != EMPTY_KEY)
  }

  predicate SubjectsInv(g: Guard) {
    && NoRepeats(g.events)
    && SlotsWithProposal(g.events)
    && (forall i :: 0 <= i < |g.events| ==> Typed(g.events[i].event))
    && (!Initialized(g) ==> forall i :: 0 <= i < |g.events| ==> !g.events[i].event.Execution?)
  }

  // ---- an event's subject is in the maps ----

  lemma LeafOfRow<K(!new)>(es: seq<Emitted>, i: nat, write: Row -> Option<Write<K>>)
    requires i < |es| && write(RowOf(es[i])).Some?
    ensures var w := write(RowOf(es[i])).value; Leaf(RaiseAll(map[], RowsOf(es), write), w.key) >= w.value
  {
    assert RowsOf(es)[i] in RowsOf(es);
    RaisedLeaf(map[], RowsOf(es), write, write(RowOf(es[i])).value.key);
  }

  lemma PastProposal(g: Guard, i: nat)
    requires MapsInv(g) && i < |g.events| && g.events[i].event.Proposed?
    ensures Leaf(g.approvals, g.events[i].event.hash) > 0
  {
    LeafOfRow(g.events, i, ApprovalWrite);
  }

  lemma PastApproval(g: Guard, i: nat)
    requires MapsInv(g) && i < |g.events| && g.events[i].event.Approval? && Typed(g.events[i].event)
    ensures Leaf(g.voteNullifiers, VoteKey(g.events[i].event.hash, g.events[i].event.approver)) > 0
  {
    LeafOfRow(g.events, i, VoteWrite);
  }

  lemma PastExecution(g: Guard, i: nat)
    requires MapsInv(g) && i < |g.events| && g.events[i].event.Execution? && Typed(g.events[i].event)
    ensures var h := g.events[i].event.hash;
            && (!RemoteType(h.txType) ==> Leaf(g.approvals, h) >= EXECUTED_MARKER)
            && (LifecycleType(h.txType) ==> Leaf(g.childExecutions, h) >= EXECUTED_MARKER)
  {
    var h := g.events[i].event.hash;
    if !RemoteType(h.txType) { LeafOfRow(g.events, i, ApprovalWrite); }
    if LifecycleType(h.txType) { LeafOfRow(g.events, i, ChildWrite); }
  }

  // ---- one call ----

  /** The new events repeat neither each other's subject nor an old one. */
  predicate FreshBatch(g: Guard, more: seq<Event>) {
    && (forall i, j :: 0 <= i < j < |more| ==> !SameSubject(more[i], more[j]))
    && (forall i, j :: 0 <= i < |g.events| && 0 <= j < |more| ==> !SameSubject(g.events[i].event, more[j]))
    && (forall j :: 0 <= j < |more| ==> Typed(more[j]))
    && (forall j :: 0 <= j < |more| && more[j].ReceiverSlot? ==> more[0].Proposed? && more[0].hash == more[j].hash)
  }

  lemma SubjectsAppend(g: Guard, more: seq<Event>, height: nat, g': Guard)
    requires SubjectsInv(g) && FreshBatch(g, more) && g'.events == g.events + Stamp(more, height)
    requires Initialized(g') || forall j :: 0 <= j < |more| ==> !more[j].Execution?
    requires !Initialized(g') ==> !Initialized(g)
    ensures SubjectsInv(g')
  {
    var es := g'.events;
    forall j | 0 <= j < |es| && es[j].event.ReceiverSlot?
      ensures exists i ::
                0 <= i < |es| && es[i].event.Proposed? && es[i].event.hash == es[j].event.hash
                && es[i].height == es[j].height
    {
      if j < |g.events| {
        var i :| 0 <= i < |g.events| && g.events[i].event.Proposed? && g.events[i].event.hash == g.events[j].event.hash
          && g.events[i].height == g.events[j].height;
        assert es[i] == g.events[i];
      } else {
        assert es[j] == Emitted(more[j - |g.events|], height);
        assert es[|g.events|] == Emitted(more[0], height);
      }
    }
  }

  lemma VoteFresh(w: World, a: PublicKey, c: Call)
    requires Allowed(w, a, c) && IsVote(c) && RaisesLeaves(w, a, c) && MapsInv(Read(w, a)) && SubjectsInv(Read(w, a))
    ensures FreshBatch(Read(w, a), NewEvents(w, a, c))
  {
    VoteEvents(w, a, c);
    VoteIsNew(Read(w, a), NewEvents(w, a, c), c.p, c.voter);
  }

  /** What a vote emits, as far as subjects go. */
  predicate VoteBatch(more: seq<Event>, p: Proposal, voter: PublicKey, proposes: bool) {
    && |more| > 0
    && (forall j :: 0 <= j < |more| ==> more[j].Proposed? || more[j].Approval? || more[j].ReceiverSlot?)
    && (forall j :: 0 <= j < |more| ==>
          (more[j].Proposed? <==> j == 0 && proposes) && (more[j].Approval? <==> j == |more| - 1))
    && (forall j :: 0 <= j < |more| ==> more[j].hash == p && (more[j].Approval? ==> more[j].approver == voter))
    && (!proposes ==> |more| == 1)
  }

  lemma VoteEvents(w: World, a: PublicKey, c: Call)
    requires Allowed(w, a, c) && IsVote(c)
    ensures VoteBatch(NewEvents(w, a, c), c.p, c.voter, c.DoPropose?)
    ensures Leaf(Read(w, a).voteNullifiers, VoteKey(c.p, c.voter)) == 0
            && (c.DoPropose? ==> Leaf(Read(w, a).approvals, c.p) == 0)
  {
  }

  lemma VoteIsNew(g: Guard, more: seq<Event>, p: Proposal, voter: PublicKey)
    requires MapsInv(g) && SubjectsInv(g) && (exists proposes :: VoteBatch(more, p, voter, proposes))
             && voter != EMPTY_KEY
    requires Leaf(g.voteNullifiers, VoteKey(p, voter)) == 0 && (more[0].Proposed? ==> Leaf(g.approvals, p) == 0)
    ensures FreshBatch(g, more)
  {
    forall i, j | 0 <= i < |g.events| && 0 <= j < |more| ensures !SameSubject(g.events[i].event, more[j]) {
      if g.events[i].event.Proposed? { PastProposal(g, i); }
      if g.events[i].event.Approval? { PastApproval(g, i); }
    }
  }

  lemma ExecutionFresh(w: World, a: PublicKey, c: Call)
    requires Allowed(w, a, c) && (IsLocalExecution(c) || IsRemoteExecution(c)) && RaisesLeaves(w, a, c)
             && MapsInv(Read(w, a)) && SubjectsInv(Read(w, a))
    ensures FreshBatch(Read(w, a), NewEvents(w, a, c))
  {
    ExecutionEffect(w, a, c);
    NoticesQuiet(w, a, c);
    NoticesPlain(w, a, c);
    ExecutionIsNew(Read(w, a), NewEvents(w, a, c)[0], NoticesOf(w, a, c), c.p);
  }

  lemma ExecutionIsNew(g: Guard, executed: Event, notices: seq<Event>, p: Proposal)
    requires MapsInv(g) && SubjectsInv(g) && executed.Execution? && executed.hash == p && executed.txType == p.txType
    requires || (!RemoteType(p.txType) && Leaf(g.approvals, p) < EXECUTED_MARKER)
             || (LifecycleType(p.txType) && Leaf(g.childExecutions, p) < EXECUTED_MARKER)
    requires forall i :: 0 <= i < |notices| ==> Quiet(notices[i]) && !notices[i].Execution? && !notices[i].ReceiverSlot?
    ensures FreshBatch(g, [executed] + notices)
  {
    var more := [executed] + notices;
    forall i, j | 0 <= i < |g.events| && 0 <= j < |more| ensures !SameSubject(g.events[i].event, more[j]) {
      if g.events[i].event.Execution? { PastExecution(g, i); }
    }
  }

  lemma NoticesPlain(w: World, a: PublicKey, c: Call)
    requires Allowed(w, a, c) && (IsLocalExecution(c) || IsRemoteExecution(c))
    ensures forall i ::
              0 <= i < |NoticesOf(w, a, c)| ==>
                !NoticesOf(w, a, c)[i].Execution? && !NoticesOf(w, a, c)[i].ReceiverSlot?
  {
  }

  lemma InitFresh(w: World, a: PublicKey, c: Call)
    requires Allowed(w, a, c) && (c.DoSetup? || c.DoReserve? || c.DoSetupChild?) && SubjectsInv(Read(w, a))
    ensures FreshBatch(Read(w, a), NewEvents(w, a, c))
  {
  }

  lemma CallSubjects(w: World, a: PublicKey, c: Call)
    requires Allowed(w, a, c) && RaisesLeaves(w, a, c) && MapsInv(Read(w, a)) && SubjectsInv(Read(w, a))
    ensures SubjectsInv(After(w, a, c))
  {
    CallEmits(w, a, c);
    if IsVote(c) { VoteFresh(w, a, c); }
    else if IsLocalExecution(c) || IsRemoteExecution(c) { ExecutionFresh(w, a, c); }
    else { InitFresh(w, a, c); }
    SubjectsAppend(Read(w, a), NewEvents(w, a, c), w.height, After(w, a, c));
  }

  lemma StepSubjects(w: World, act: Action, a: PublicKey)
    requires a in w.guards ==>
               GuardInv(a, w.guards[a]) && MapsInv(w.guards[a]) && SubjectsInv(w.guards[a])
               && EMPTY_KEY !in OwnerList(w.guards[a])
    requires a in Step(w, act).guards
    ensures SubjectsInv(Step(w, act).guards[a])
  {
    if Can(w, act) && act.Invoke? && act.at == a {
      CallRaises(w, a, act.call);
      CallSubjects(w, a, act.call);
    }
  }

  lemma RunFacts(balances: map<PublicKey, nat>, acts: seq<Action>, a: PublicKey)
    requires a in Run(Genesis(balances), acts).guards
    ensures var g := Run(Genesis(balances), acts).guards[a]; GuardInv(a, g) && MapsInv(g) && EMPTY_KEY !in OwnerList(g)
  {
    RunGuardInv(balances, acts, a);
    RunMaps(balances, acts, a);
  }

  lemma RunGuardInv(balances: map<PublicKey, nat>, acts: seq<Action>, a: PublicKey)
    requires a in Run(Genesis(balances), acts).guards
    ensures GuardInv(a, Run(Genesis(balances), acts).guards[a])
  {
    RunKeeps(Genesis(balances), acts);
    GuardInvOf(Run(Genesis(balances), acts), a);
  }

  lemma RunMaps(balances: map<PublicKey, nat>, acts: seq<Action>, a: PublicKey)
    requires a in Run(Genesis(balances), acts).guards
    ensures var g := Run(Genesis(balances), acts).guards[a]; MapsInv(g) && EMPTY_KEY !in OwnerList(g)
  {
    RunEvents(balances, acts, a, _ => 0);
  }

  lemma {:induction false} RunSubjects(balances: map<PublicKey, nat>, acts: seq<Action>, a: PublicKey)
    requires a in Run(Genesis(balances), acts).guards
    ensures SubjectsInv(Run(Genesis(balances), acts).guards[a])
  {
    if acts != [] {
      var init := acts[..|acts| - 1];
      var w := Run(Genesis(balances), init);
      if a in w.guards {
        RunSubjects(balances, init, a);
        RunFacts(balances, init, a);
      }
      StepSubjects(w, acts[|acts| - 1], a);
    }
  }

  lemma ReachableSubjects(w: World, a: PublicKey)
    requires Reachable(w) && a in w.guards
    ensures SubjectsInv(w.guards[a])
  {
    var balances, acts :| w == Run(Genesis(balances), acts);
    RunSubjects(balances, acts, a);
  }

  // ---- delivered chains ----

  /** Each chain event is some emitted event, with its height and the transaction it was emitted in. */
  ghost predicate Delivers(c: seq<ChainEvent>, es: seq<Emitted>, at: seq<nat>, tx: nat -> Option<nat>) {
    |at| == |c| && forall i :: 0 <= i < |c| ==>
      at[i] < |es| && c[i].event == es[at[i]].event && c[i].height == es[at[i]].height && c[i].txHash == tx(at[i])
  }

  /** Whatever part of a guard's events a chain delivers, in whatever order, it is honest. */
  lemma {:induction false} DeliveredIsHonest(w: World, a: PublicKey, c: seq<ChainEvent>, at: seq<nat>,
                                             tx: nat -> Option<nat>)
    requires Reachable(w) && a in w.guards && Delivers(c, w.guards[a].events, at, tx)
    ensures Honest(c)
  {
    ReachableSubjects(w, a);
    SubjectsMakeHonest(w.guards[a].events, c, at, tx);
  }

  lemma SubjectsMakeHonest(es: seq<Emitted>, c: seq<ChainEvent>, at: seq<nat>, tx: nat -> Option<nat>)
    requires NoRepeats(es) && SlotsWithProposal(es) && Delivers(c, es, at, tx)
    ensures Honest(c)
  {
    forall i, j | 0 <= i < j < |c| && SameSubject(c[i].event, c[j].event)
      ensures FingerprintOf(c[i]) == FingerprintOf(c[j]) {
      OneIndex(es, at[i], at[j]);
    }
    forall i, j | 0 <= i < |c| && 0 <= j < |c| && c[i].event.Proposed? && c[j].event.ReceiverSlot?
      && c[i].event.hash == c[j].event.hash
      ensures c[i].height == c[j].height
    {
      var k :| 0 <= k < |es| && es[k].event.Proposed? && es[k].event.hash == es[at[j]].event.hash
        && es[k].height == es[at[j]].height;
      OneIndex(es, at[i], k);
    }
  }

  lemma OneIndex(es: seq<Emitted>, i: nat, j: nat)
    requires NoRepeats(es) && i < |es| && j < |es| && SameSubject(es[i].event, es[j].event)
    ensures i == j
  {
    assert !(i < j);
    assert SameSubject(es[j].event, es[i].event);
  }
}
