/**
 The two completeness theorems of event sourcing, over every run: a full replay and an incremental
 replay of any delivery of a guard's events reproduce the on-chain owner list and maps.
 */
module EventCompleteness {
  import opened Primitives
  import opened Sequences
  import opened ListCommitment
  import opened Guards
  import opened GuardInvariant
  import opened Ledger
  import opened LedgerInvariant
  import opened Executions
  import opened Storage
  import opened EventRebuild
  import opened EventSourcing
  import opened EventRoots
  import opened OwnerReplay

  // ---- the event invariant over runs ----

  ghost predicate GuardEvents(g: Guard, height: nat, order: Base58) {
    MapsInv(g) && GuardRootsInv(g) && ReplayInv(g, order) && HeightsInv(g.events, height)
  }

  lemma DeployEvents(height: nat, order: Base58)
    ensures GuardEvents(Emit(BLANK, [Deployed], height), height, order)
  {
    var g := Emit(BLANK, [Deployed], height);
    assert g.events == BLANK.events + Stamp([Deployed], height);
    assert RowsOf(BLANK.events) == [];
    QuietOwners(BLANK, [Deployed], height, g, order);
    QuietRoots(BLANK, [Deployed], height, g);
    QuietBatch(map[], map[], [Deployed], height);
    assert RowsOf(g.events) == Batch([Deployed], height);
  }

  lemma CallHeights(w: World, a: PublicKey, c: Call)
    requires Allowed(w, a, c) && HeightsInv(Read(w, a).events, w.height)
    ensures HeightsInv(After(w, a, c).events, w.height)
  {
    CallEmits(w, a, c);
  }

  lemma OwnersOfInv(self: PublicKey, g: Guard)
    requires GuardInv(self, g)
    ensures Initialized(g) ==> OwnersInv(g)
  {
  }

  lemma CallEvents(w: World, a: PublicKey, c: Call, order: Base58)
    requires Allowed(w, a, c) && RaisesLeaves(w, a, c) && GuardEvents(Read(w, a), w.height, order)
    requires Initialized(Read(w, a)) ==> OwnersInv(Read(w, a))
    ensures GuardEvents(After(w, a, c), w.height, order)
  {
    MapsStep(w, a, c);
    RootsStep(w, a, c);
    ReplayStep(w, a, c, order);
    CallHeights(w, a, c);
  }

  lemma StepEvents(w: World, act: Action, a: PublicKey, order: Base58)
    requires a in w.guards ==> GuardInv(a, w.guards[a]) && GuardEvents(w.guards[a], w.height, order)
    requires a in Step(w, act).guards
    ensures GuardEvents(Step(w, act).guards[a], Step(w, act).height, order)
  {
    if Can(w, act) && act.Deploy? && act.at == a {
      DeployEvents(w.height, order);
    } else if Can(w, act) && act.Invoke? && act.at == a {
      CallRaises(w, a, act.call);
      OwnersOfInv(a, Read(w, a));
      CallEvents(w, a, act.call, order);
    }
  }

  lemma GuardInvOf(w: World, a: PublicKey)
    requires Inv(w) && a in w.guards
    ensures GuardInv(a, w.guards[a])
  {
  }

  lemma {:induction false} RunEvents(balances: map<PublicKey, nat>, acts: seq<Action>, a: PublicKey, order: Base58)
    requires a in Run(Genesis(balances), acts).guards
    ensures GuardEvents(Run(Genesis(balances), acts).guards[a], Run(Genesis(balances), acts).height, order)
  {
    if acts != [] {
      var init := acts[..|acts| - 1];
      var w := Run(Genesis(balances), init);
      RunKeeps(Genesis(balances), init);
      if a in w.guards {
        RunEvents(balances, init, a, order);
        GuardInvOf(w, a);
      }
      StepEvents(w, acts[|acts| - 1], a, order);
    }
  }

  lemma ReachableEvents(w: World, a: PublicKey, order: Base58)
    requires Reachable(w) && a in w.guards
    ensures GuardEvents(w.guards[a], w.height, order)
  {
    var balances, acts :| w == Run(Genesis(balances), acts);
    RunEvents(balances, acts, a, order);
  }

  // ---- full replay ----

  /** Any delivery of changes with distinct nonces is put back in order. */
  lemma ChangesRestored(rows: seq<Row>, truth: seq<Row>)
    requires SameElements(rows, truth) && StrictlyAscending(Collect(truth, ChangeOf), NonceOf)
    ensures OrderedChanges(rows) == Collect(truth, ChangeOf)
  {
    var changes := Collect(truth, ChangeOf);
    CollectSame(rows, truth, ChangeOf);
    forall x, y | x in changes && y in changes && ChangeKey(x) == ChangeKey(y) ensures x == y {
      RankDetermines(changes, NonceOf, x, y);
    }
    OrderRestored(Collect(rows, ChangeOf), changes, ChangeKey, NonceOf);
  }

  lemma SlotsRestored(rows: seq<Row>, truth: seq<Row>)
    requires SameElements(rows, truth) && StrictlyAscending(Collect(truth, SlotOf), SlotIndex)
    ensures OrderedSlots(rows) == Collect(truth, SlotOf)
  {
    var slots := Collect(truth, SlotOf);
    CollectSame(rows, truth, SlotOf);
    forall x, y | x in slots && y in slots && SlotIndex(x) == SlotIndex(y) ensures x == y {
      RankDetermines(slots, SlotIndex, x, y);
    }
    OrderRestored(Collect(rows, SlotOf), slots, SlotIndex, SlotIndex);
  }

  lemma OwnersRestored(g: Guard, rows: seq<Row>, order: Base58)
    requires ReplayInv(g, order) && SameElements(rows, RowsOf(g.events))
    ensures RebuiltOwners(rows, None, order) == OwnerList(g)
  {
    SlotsRestored(rows, RowsOf(g.events));
    ChangesRestored(rows, RowsOf(g.events));
    CollectSame(rows, RowsOf(g.events), UnindexedOf);
    var unindexed := Collect(rows, UnindexedOf);
    assert unindexed != [] ==> unindexed[0] in Collect(RowsOf(g.events), UnindexedOf);
    assert unindexed == [];
    assert SetupOwners(rows, order) == OwnersOfSlots(Slots(g));
  }

  /** What the stores must hold to prove against a guard. */
  ghost predicate Reproduces(g: Guard, owners: seq<PublicKey>, approvals: map<Proposal, nat>,
                             votes: map<VoteKey, nat>) {
    owners == OwnerList(g) && approvals == g.approvals && votes == g.voteNullifiers
  }

  /**
   In every reachable ledger, any delivery of a guard's rows (permuted and repeated at will) rebuilds
   its owner list in order, its three maps, and no block diverges.
   */
  lemma {:induction false} RebuildIsComplete(w: World, a: PublicKey, rows: seq<Row>, order: Base58)
    requires Reachable(w) && a in w.guards && SameElements(rows, RowsOf(w.guards[a].events))
    ensures Reproduces(w.guards[a], RebuiltOwners(rows, None, order), RaiseAll(map[], rows, ApprovalWrite),
                       RaiseAll(map[], rows, VoteWrite))
    ensures RaiseAll(map[], rows, ChildWrite) == w.guards[a].childExecutions
    ensures forall first :: IsFirstDivergence(map[], rows, ApprovalWrite, ApprovalRootOf, first) ==> first == None
    ensures forall first :: IsFirstDivergence(map[], rows, VoteWrite, NullifierRootOf, first) ==> first == None
  {
    var g := w.guards[a];
    ReachableEvents(w, a, order);
    OwnersRestored(g, rows, order);
    RaiseAllSame(map[], rows, RowsOf(g.events), ApprovalWrite);
    RaiseAllSame(map[], rows, RowsOf(g.events), VoteWrite);
    RaiseAllSame(map[], rows, RowsOf(g.events), ChildWrite);
    forall h: int ensures !Diverges(map[], rows, ApprovalWrite, ApprovalRootOf, h)
      && !Diverges(map[], rows, VoteWrite, NullifierRootOf, h) {
      NoDivergence(g.events, w.height, rows, h, ApprovalWrite, ApprovalRootOf);
      NoDivergence(g.events, w.height, rows, h, VoteWrite, NullifierRootOf);
    }
  }

  // ---- incremental replay ----

  lemma CallSlots(w: World, a: PublicKey, c: Call)
    requires Allowed(w, a, c) && Initialized(Read(w, a))
    ensures Slots(After(w, a, c)) == Slots(Read(w, a))
  {
    CallEmits(w, a, c);
    CollectAppend(Read(w, a), NewEvents(w, a, c), w.height, After(w, a, c), SlotOf);
    InitializedEmitsNoSlot(w, a, c);
    NoSlotBatch(NewEvents(w, a, c), w.height);
  }

  lemma NoSlotBatch(more: seq<Event>, height: nat)
    requires forall i :: 0 <= i < |more| ==> !more[i].SetupOwner?
    ensures Collect(Batch(more, height), SlotOf) == []
  {
    var rows := Batch(more, height);
    forall i | 0 <= i < |rows| ensures SlotOf(rows[i]) == None {
      assert rows[i] == Row(PayloadOf(more[i]), Some(height));
    }
    CollectNone(rows, SlotOf);
  }

  lemma InitializedEmitsNoSlot(w: World, a: PublicKey, c: Call)
    requires Allowed(w, a, c) && Initialized(Read(w, a))
    ensures forall i :: 0 <= i < |NewEvents(w, a, c)| ==> !NewEvents(w, a, c)[i].SetupOwner?
  {
    if IsLocalExecution(c) || IsRemoteExecution(c) { NoticesQuiet(w, a, c); }
  }

  /** Setup happens once: the slots of an initialized guard are final. */
  lemma {:induction false} SlotsFinal(w: World, acts: seq<Action>, a: PublicKey)
    requires Reachable(w) && a in w.guards && Initialized(w.guards[a])
    ensures Slots(Read(Run(w, acts), a)) == Slots(w.guards[a])
  {
    if acts != [] {
      var init, last := acts[..|acts| - 1], acts[|acts| - 1];
      SlotsFinal(w, init, a);
      ParentIsForever(w, init, a);
      var mid := Run(w, init);
      GuardEvolves(w, init, a);
      if Can(mid, last) && last.Invoke? && last.at == a { CallSlots(mid, a, last.call); }
    }
  }

  lemma {:induction false} ReplayConcat(s: seq<PublicKey>, first: seq<Change>, second: seq<Change>, order: Base58)
    ensures ReplayAll(s, first + second, order) == ReplayAll(ReplayAll(s, first, order), second, order)
    decreases |second|
  {
    if second == [] {
      assert first + second == first;
    } else {
      assert (first + second)[..|first + second| - 1] == first + second[..|second| - 1];
      ReplayConcat(s, first, second[..|second| - 1], order);
    }
  }

  lemma AscendingTail<T>(first: seq<T>, second: seq<T>, rank: T -> int)
    requires StrictlyAscending(first + second, rank)
    ensures StrictlyAscending(second, rank)
  {
    forall i, j | 0 <= i < j < |second| ensures rank(second[i]) < rank(second[j]) {
      assert (first + second)[|first| + i] == second[i] && (first + second)[|first| + j] == second[j];
    }
  }

  lemma OwnersAdvanced(g: Guard, g': Guard, rows: seq<Row>, order: Base58)
    requires ReplayInv(g, order) && ReplayInv(g', order) && g.events <= g'.events && Slots(g') == Slots(g)
    requires SameElements(rows, RowsOf(g'.events[|g.events|..]))
    ensures RebuiltOwners(rows, Some(OwnerList(g)), order) == OwnerList(g')
  {
    var late := g'.events[|g.events|..];
    assert g'.events == g.events + late;
    RowsConcat(g.events, late);
    CollectConcat(RowsOf(g.events), RowsOf(late), ChangeOf);
    AscendingTail(Changes(g), Collect(RowsOf(late), ChangeOf), NonceOf);
    ChangesRestored(rows, RowsOf(late));
    ReplayConcat(OwnersOfSlots(Slots(g)), Changes(g), Collect(RowsOf(late), ChangeOf), order);
  }

  lemma MapAdvanced<K(!new)>(es: seq<Emitted>, all: seq<Emitted>, rows: seq<Row>, write: Row -> Option<Write<K>>)
    requires es <= all && SameElements(rows, RowsOf(all[|es|..]))
    ensures RaiseAll(RaiseAll(map[], RowsOf(es), write), rows, write) == RaiseAll(map[], RowsOf(all), write)
  {
    var late := all[|es|..];
    assert all == es + late;
    RowsConcat(es, late);
    RaiseAllConcat(map[], RowsOf(es), rows, write);
    assert SameElements(RowsOf(es) + rows, RowsOf(es) + RowsOf(late));
    RaiseAllSame(map[], RowsOf(es) + rows, RowsOf(es) + RowsOf(late), write);
  }

  function EmittedSince(g: Guard, g': Guard): (es: seq<Emitted>)
  {
    if |g.events| <= |g'.events| then g'.events[|g.events|..] else []
  }

  /**
   Stores that reproduce an initialized guard, advanced by any delivery of the rows emitted since,
   reproduce the guard in every later state of the run: the incremental replay equals the full one.
   */
  lemma {:induction false} IncrementalIsComplete(w: World, acts: seq<Action>, a: PublicKey, rows: seq<Row>,
                                                 order: Base58)
    requires Reachable(w) && a in w.guards && Initialized(w.guards[a])
    requires SameElements(rows, RowsOf(EmittedSince(w.guards[a], Read(Run(w, acts), a))))
    ensures var g, g' := w.guards[a], Read(Run(w, acts), a);
            && g.events + EmittedSince(g, g') == g'.events
            && Reproduces(g', RebuiltOwners(rows, Some(OwnerList(g)), order),
                          RaiseAll(g.approvals, rows, ApprovalWrite), RaiseAll(g.voteNullifiers, rows, VoteWrite))
  {
    GuardEvolves(w, acts, a);
    var g, g' := w.guards[a], Run(w, acts).guards[a];
    ReachableEvents(w, a, order);
    ReachableRun(w, acts);
    ReachableEvents(Run(w, acts), a, order);
    SlotsFinal(w, acts, a);
    OwnersAdvanced(g, g', rows, order);
    MapAdvanced(g.events, g'.events, rows, ApprovalWrite);
    MapAdvanced(g.events, g'.events, rows, VoteWrite);
  }
}
