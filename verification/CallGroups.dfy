/**
 The events of one call stay together: a proposal is directly followed by its receiver slots and its
 proposer's approval, an owner change directly follows its execution, all in the block of the call.
 */
module CallGroups {
  import opened Primitives
  import opened Guards
  import opened GuardInvariant
  import opened Ledger
  import opened LedgerInvariant
  import opened Executions
  import opened EventSourcing
  import opened EventCompleteness

  predicate EditsOwners(t: nat) { t == ADD_OWNER || t == REMOVE_OWNER }

  predicate SlotsBehind(es: seq<Emitted>, i: nat, h: Proposal)
    requires i < |es|
  {
    && i + 1 + |h.receivers| < |es|
    && forall k :: 0 <= k < |h.receivers| ==> es[i + 1 + k] == Emitted(ReceiverEvents(h)[k], es[i].height)
  }

  /** The event at `i` proposes, and its slots and its proposer's approval follow in its block. */
  predicate ProposeGroup(es: seq<Emitted>, i: nat)
    requires i < |es| && es[i].event.Proposed?
  {
    var h := es[i].event.hash;
    && SlotsBehind(es, i, h)
    && var last := es[i + 1 + |h.receivers|];
       last.event.Approval? && last.event.hash == h && last.event.approver == es[i].event.proposer
       && last.height == es[i].height
  }

  /** The slot at `j` belongs to the proposal at `i`. */
  predicate SlotOfGroup(es: seq<Emitted>, i: nat, j: nat) {
    i < j < |es| && es[i].event.Proposed? && es[j].event.ReceiverSlot? && es[i].event.hash == es[j].event.hash
    && j <= i + |es[i].event.hash.receivers|
  }

  predicate ChangeBehindExecution(es: seq<Emitted>, j: nat)
    requires j < |es|
  {
    j > 0 && es[j - 1].event.Execution? && EditsOwners(es[j - 1].event.txType) && es[j - 1].height == es[j].height
  }

  predicate GroupedAt(es: seq<Emitted>, i: nat)
    requires i < |es|
  {
    match es[i].event
    case Proposed(_, _) => ProposeGroup(es, i)
    case ReceiverSlot(_, _, _) => exists k: nat :: k < i && SlotOfGroup(es, k, i)
    case Approval(_, _, count, _, _) => count < EXECUTED_MARKER
    case OwnerChange(_, _, _, _, _, _) => ChangeBehindExecution(es, i)
    case Execution(_, t, _) => EditsOwners(t) ==> i + 1 < |es| && es[i + 1].event.OwnerChange?
    case _ => true
  }

  predicate InGroups(es: seq<Emitted>) { forall i :: 0 <= i < |es| ==> GroupedAt(es, i) }

  lemma {:induction false} EarlierStays(es: seq<Emitted>, more: seq<Emitted>, i: nat)
    requires i < |es| && GroupedAt(es, i)
    ensures GroupedAt(es + more, i)
  {
    if es[i].event.ReceiverSlot? {
      var k: nat :| k < i && SlotOfGroup(es, k, i);
      assert SlotOfGroup(es + more, k, i);
    }
  }

  lemma {:induction false} LaterStays(es: seq<Emitted>, more: seq<Emitted>, i: nat)
    requires i < |more| && GroupedAt(more, i)
    ensures GroupedAt(es + more, |es| + i)
  {
    var all := es + more;
    assert all[|es| + i] == more[i];
    match more[i].event
    case Proposed(h, _) =>
      forall k | 0 <= k < |h.receivers|
        ensures all[|es| + i + 1 + k] == Emitted(ReceiverEvents(h)[k], all[|es| + i].height) {
        assert all[|es| + i + 1 + k] == more[i + 1 + k];
      }
      assert all[|es| + i + 1 + |h.receivers|] == more[i + 1 + |h.receivers|];
    case ReceiverSlot(_, _, _) =>
      var k: nat :| k < i && SlotOfGroup(more, k, i);
      assert SlotOfGroup(all, |es| + k, |es| + i);
    case OwnerChange(_, _, _, _, _, _) => assert all[|es| + i - 1] == more[i - 1];
    case Execution(_, t, _) => if EditsOwners(t) { assert all[|es| + i + 1] == more[i + 1]; }
    case _ =>
  }

  lemma {:induction false} GroupedConcat(es: seq<Emitted>, more: seq<Emitted>)
    requires InGroups(es) && InGroups(more)
    ensures InGroups(es + more)
  {
    forall i | 0 <= i < |es + more| ensures GroupedAt(es + more, i) {
      if i < |es| { EarlierStays(es, more, i); } else { LaterStays(es, more, i - |es|); }
    }
  }

  // ---- one call ----

  lemma ProposeGrouped(h: Proposal, voter: PublicKey, approval: Event, height: nat)
    requires approval.Approval? && approval.hash == h && approval.approver == voter
             && approval.approvalCount < EXECUTED_MARKER
    ensures InGroups(Stamp([Proposed(h, voter)] + ReceiverEvents(h) + [approval], height))
  {
    var more := [Proposed(h, voter)] + ReceiverEvents(h) + [approval];
    var es := Stamp(more, height);
    forall i | 0 <= i < |es| ensures GroupedAt(es, i) {
      if 0 < i < |es| - 1 {
        assert es[i].event == ReceiverEvents(h)[i - 1];
        assert SlotOfGroup(es, 0, i);
      } else if i == 0 {
        forall k | 0 <= k < |h.receivers| ensures es[1 + k] == Emitted(ReceiverEvents(h)[k], height) {
          assert more[1 + k] == ReceiverEvents(h)[k];
        }
      }
    }
  }

  lemma VoteGrouped(w: World, a: PublicKey, c: Call)
    requires Allowed(w, a, c) && IsVote(c) && VoteCount(w, a, c) < EXECUTED_MARKER
    ensures InGroups(Stamp(NewEvents(w, a, c), w.height))
  {
    if c.DoPropose? {
      var approval := NewEvents(w, a, c)[1 + |c.p.receivers|];
      ProposeGrouped(c.p, c.voter, approval, w.height);
    }
  }

  predicate Ungrouped(e: Event) {
    !e.Proposed? && !e.ReceiverSlot? && !e.Approval? && !e.OwnerChange? && (e.Execution? ==> !EditsOwners(e.txType))
  }

  lemma UngroupedBatch(more: seq<Event>, height: nat)
    requires forall i :: 0 <= i < |more| ==> Ungrouped(more[i])
    ensures InGroups(Stamp(more, height))
  {
    var es := Stamp(more, height);
    forall i | 0 <= i < |es| ensures GroupedAt(es, i) { assert Ungrouped(es[i].event); }
  }

  lemma OtherUngrouped(w: World, a: PublicKey, c: Call)
    requires Allowed(w, a, c) && !IsVote(c) && !c.DoOwnerChange?
    ensures forall i :: 0 <= i < |NewEvents(w, a, c)| ==> Ungrouped(NewEvents(w, a, c)[i])
  {
  }

  lemma ChangeGrouped(w: World, a: PublicKey, c: Call)
    requires Allowed(w, a, c) && c.DoOwnerChange?
    ensures InGroups(Stamp(NewEvents(w, a, c), w.height))
  {
    var es := Stamp(NewEvents(w, a, c), w.height);
    assert |es| == 2 && es[0].event.Execution? && es[1].event.OwnerChange?;
  }

  lemma CallGrouped(w: World, a: PublicKey, c: Call)
    requires Allowed(w, a, c) && GuardInv(a, Read(w, a))
    ensures InGroups(Stamp(NewEvents(w, a, c), w.height))
  {
    if IsVote(c) {
      VoteCallShape(w, a, c);
      CountValue(a, Read(w, a), c.p, c.voter, VoteCount(w, a, c));
      VoteGrouped(w, a, c);
    } else if c.DoOwnerChange? {
      ChangeGrouped(w, a, c);
    } else {
      OtherUngrouped(w, a, c);
      UngroupedBatch(NewEvents(w, a, c), w.height);
    }
  }

  // ---- every run ----

  lemma StepGrouped(w: World, act: Action, a: PublicKey)
    requires Inv(w) && a in w.guards && InGroups(w.guards[a].events)
    ensures a in Step(w, act).guards && InGroups(Step(w, act).guards[a].events)
  {
    if Can(w, act) && act.Invoke? && act.at == a {
      GuardInvOf(w, a);
      CallGrouped(w, a, act.call);
      CallEmits(w, a, act.call);
      GroupedConcat(w.guards[a].events, Stamp(NewEvents(w, a, act.call), w.height));
      Called(w, act, a);
    } else {
      Uncalled(w, act, a);
    }
  }

  lemma Called(w: World, act: Action, a: PublicKey)
    requires Can(w, act) && act.Invoke? && act.at == a && a in w.guards
    ensures a in Step(w, act).guards && Step(w, act).guards[a] == After(w, a, act.call) && Read(w, a) == w.guards[a]
  {
  }

  lemma Uncalled(w: World, act: Action, a: PublicKey)
    requires a in w.guards && !(Can(w, act) && act.Invoke? && act.at == a)
    ensures a in Step(w, act).guards && Step(w, act).guards[a] == w.guards[a]
  {
  }

  /** In every reachable ledger a guard's events consist of whole groups. */
  lemma {:induction false} ReachableGrouped(w: World, a: PublicKey)
    requires Reachable(w) && a in w.guards
    ensures InGroups(w.guards[a].events)
  {
    var balances, acts :| w == Run(Genesis(balances), acts);
    GenesisGrouped(balances, acts, a);
  }

  lemma {:induction false} GenesisGrouped(balances: map<PublicKey, nat>, acts: seq<Action>, a: PublicKey)
    requires a in Run(Genesis(balances), acts).guards
    ensures InGroups(Run(Genesis(balances), acts).guards[a].events)
  {
    if acts != [] {
      var init, last := acts[..|acts| - 1], acts[|acts| - 1];
      var w := Run(Genesis(balances), init);
      RunKeeps(Genesis(balances), init);
      if a in w.guards {
        GenesisGrouped(balances, init, a);
        StepGrouped(w, last, a);
      } else {
        Deployment(w, last, a);
      }
    }
  }

  lemma Deployment(w: World, act: Action, a: PublicKey)
    requires a !in w.guards && a in Step(w, act).guards
    ensures InGroups(Step(w, act).guards[a].events)
  {
    var es := Step(w, act).guards[a].events;
    assert es == [Emitted(Deployed, w.height)];
  }
}
