/**
 Owner lists from events: setup slots hold the initial list, and replaying the owner changes in
 configNonce order, each add placed by the emitted commitment, tracks the on-chain list.
 */
module OwnerReplay {
  import opened Primitives
  import opened Sequences
  import opened ListCommitment
  import opened Guards
  import opened GuardInvariant
  import opened Ledger
  import opened LedgerInvariant
  import opened Storage
  import opened EventRebuild
  import opened EventSourcing

  function Slots(g: Guard): seq<SetupSlot> { Collect(RowsOf(g.events), SlotOf) }

  function Changes(g: Guard): seq<Change> { Collect(RowsOf(g.events), ChangeOf) }

  ghost predicate ReplayInv(g: Guard, order: Base58) {
    && Collect(RowsOf(g.events), UnindexedOf) == []
    && StrictlyAscending(Slots(g), SlotIndex)
    && StrictlyAscending(Changes(g), NonceOf)
    && (forall c :: c in Changes(g) ==> NonceOf(c) <= g.configNonce)
    && ReplayAll(OwnersOfSlots(Slots(g)), Changes(g), order) == OwnerList(g)
    && EMPTY_KEY !in OwnerList(g)
    && (!Initialized(g) ==> Slots(g) == [] && Changes(g) == [] && OwnerList(g) == [])
  }

  lemma CollectAppend<U>(g: Guard, more: seq<Event>, height: nat, g': Guard, f: Row -> Option<U>)
    requires g'.events == g.events + Stamp(more, height)
    ensures Collect(RowsOf(g'.events), f) == Collect(RowsOf(g.events), f) + Collect(Batch(more, height), f)
  {
    RowsConcat(g.events, Stamp(more, height));
    CollectConcat(RowsOf(g.events), Batch(more, height), f);
  }

  predicate NoOwnerEvents(more: seq<Event>) {
    forall i :: 0 <= i < |more| ==> !more[i].SetupOwner? && !more[i].OwnerChange?
  }

  /** Rows of other events carry no slot, no unindexed key and no change. */
  lemma SilentBatch(more: seq<Event>, height: nat)
    requires NoOwnerEvents(more)
    ensures Collect(Batch(more, height), SlotOf) == []
    ensures Collect(Batch(more, height), ChangeOf) == []
  {
    var rows := Batch(more, height);
    forall i | 0 <= i < |rows| ensures SlotOf(rows[i]) == None && ChangeOf(rows[i]) == None {
      assert rows[i] == Row(PayloadOf(more[i]), Some(height));
    }
    CollectNone(rows, SlotOf);
    CollectNone(rows, ChangeOf);
  }

  /** The contract always emits the slot index. */
  lemma IndexedBatch(more: seq<Event>, height: nat)
    ensures Collect(Batch(more, height), UnindexedOf) == []
  {
    var rows := Batch(more, height);
    forall i | 0 <= i < |rows| ensures UnindexedOf(rows[i]) == None {
      assert rows[i] == Row(PayloadOf(more[i]), Some(height));
    }
    CollectNone(rows, UnindexedOf);
  }

  lemma QuietOwners(g: Guard, more: seq<Event>, height: nat, g': Guard, order: Base58)
    requires ReplayInv(g, order) && g'.events == g.events + Stamp(more, height) && NoOwnerEvents(more)
    requires OwnerList(g') == OwnerList(g) && g'.configNonce >= g.configNonce && (Initialized(g) ==> Initialized(g'))
    ensures ReplayInv(g', order)
  {
    CollectAppend(g, more, height, g', SlotOf);
    CollectAppend(g, more, height, g', ChangeOf);
    CollectAppend(g, more, height, g', UnindexedOf);
    SilentBatch(more, height);
    IndexedBatch(more, height);
    assert Slots(g') == Slots(g) && Changes(g') == Changes(g);
  }

  // ---- setup ----

  function Slotted(owners: seq<PublicKey>): (slots: seq<SetupSlot>)
    ensures |slots| == |owners| && forall i :: 0 <= i < |owners| ==> slots[i] == SetupSlot(i, owners[i])
  {
    seq(|owners|, i requires 0 <= i < |owners| => SetupSlot(i, owners[i]))
  }

  lemma SlottedSnoc(owners: seq<PublicKey>, k: nat)
    requires 0 < k <= |owners|
    ensures Slotted(owners[..k]) == Slotted(owners[..k - 1]) + [SetupSlot(k - 1, owners[k - 1])]
  {
  }

  /** The decodable setup rows are the active owners; the padding does not decode. */
  lemma {:induction false} SetupSlots(owners: seq<PublicKey>, numOwners: nat, height: nat, k: nat)
    requires Coherent(owners, numOwners) && numOwners <= |owners| && k <= |owners|
    ensures Collect(Batch(SetupOwnerEvents(owners, numOwners)[..k], height), SlotOf)
            == Slotted(owners[..if k < numOwners then k else numOwners])
  {
    if k > 0 {
      var es := SetupOwnerEvents(owners, numOwners);
      SetupSlots(owners, numOwners, height, k - 1);
      var before, now := Batch(es[..k - 1], height), Batch(es[..k], height);
      assert now[..k - 1] == before;
      assert SlotOf(now[k - 1]) == if k - 1 < numOwners then Some(SetupSlot(k - 1, owners[k - 1])) else None;
      if k <= numOwners { SlottedSnoc(owners, k); }
    }
  }

  lemma UnchangedBatch(more: seq<Event>, height: nat)
    requires forall i :: 0 <= i < |more| ==> !more[i].OwnerChange?
    ensures Collect(Batch(more, height), ChangeOf) == []
  {
    var rows := Batch(more, height);
    forall i | 0 <= i < |rows| ensures ChangeOf(rows[i]) == None {
      assert rows[i] == Row(PayloadOf(more[i]), Some(height));
    }
    CollectNone(rows, ChangeOf);
  }

  lemma SetupBatch(head: Event, owners: seq<PublicKey>, numOwners: nat, tail: seq<Event>, height: nat)
    requires Coherent(owners, numOwners) && numOwners <= |owners|
    requires NoOwnerEvents([head]) && NoOwnerEvents(tail)
    ensures Collect(Batch([head] + SetupOwnerEvents(owners, numOwners) + tail, height), SlotOf)
            == Slotted(owners[..numOwners])
  {
    var es := SetupOwnerEvents(owners, numOwners);
    SetupSlots(owners, numOwners, height, |owners|);
    assert es[..|owners|] == es;
    BatchConcat([head] + es, tail, height);
    BatchConcat([head], es, height);
    CollectConcat(Batch([head] + es, height), Batch(tail, height), SlotOf);
    CollectConcat(Batch([head], height), Batch(es, height), SlotOf);
    SilentBatch([head], height);
    SilentBatch(tail, height);
  }

  lemma SetupOwnersReplay(g: Guard, head: Event, owners: seq<PublicKey>, numOwners: nat, tail: seq<Event>, height: nat,
                          g': Guard, order: Base58)
    requires ReplayInv(g, order) && !Initialized(g) && Coherent(owners, numOwners) && numOwners <= |owners|
    requires NoOwnerEvents([head]) && NoOwnerEvents(tail)
    requires g'.events == g.events + Stamp([head] + SetupOwnerEvents(owners, numOwners) + tail, height)
    requires Initialized(g') && OwnerList(g') == owners[..numOwners]
    ensures ReplayInv(g', order)
  {
    var more := [head] + SetupOwnerEvents(owners, numOwners) + tail;
    CollectAppend(g, more, height, g', SlotOf);
    CollectAppend(g, more, height, g', ChangeOf);
    CollectAppend(g, more, height, g', UnindexedOf);
    SetupBatch(head, owners, numOwners, tail, height);
    UnchangedBatch(more, height);
    IndexedBatch(more, height);
    assert OwnersOfSlots(Slotted(owners[..numOwners])) == owners[..numOwners];
  }

  // ---- owner changes ----

  function ChangeOfEvent(e: Event): Change
    requires e.OwnerChange?
  {
    Change(Known(e.configNonce), Decoded(e.owner), e.added, Some(OwnersHash(e.newOwners)))
  }

  lemma ChangeReplay(g: Guard, executed: Event, e: Event, height: nat, g': Guard, order: Base58)
    requires ReplayInv(g, order) && executed.Execution? && e.OwnerChange? && Initialized(g')
    requires g'.events == g.events + Stamp([executed, e], height)
    requires e.configNonce == g'.configNonce == g.configNonce + 1
    requires Replayed(OwnerList(g), ChangeOfEvent(e), order) == OwnerList(g') && EMPTY_KEY !in OwnerList(g')
    ensures ReplayInv(g', order)
  {
    ChangeAppended(g, executed, e, height, g');
    var changes, c := Changes(g), ChangeOfEvent(e);
    AscendingSnoc(changes, c, NonceOf);
    assert (changes + [c])[..|changes|] == changes;
  }

  lemma AscendingSnoc<T>(s: seq<T>, x: T, rank: T -> int)
    requires StrictlyAscending(s, rank) && forall y :: y in s ==> rank(y) < rank(x)
    ensures StrictlyAscending(s + [x], rank)
  {
  }

  lemma ChangeAppended(g: Guard, executed: Event, e: Event, height: nat, g': Guard)
    requires executed.Execution? && e.OwnerChange? && g'.events == g.events + Stamp([executed, e], height)
    ensures Slots(g') == Slots(g) && Changes(g') == Changes(g) + [ChangeOfEvent(e)]
    ensures Collect(RowsOf(g'.events), UnindexedOf) == Collect(RowsOf(g.events), UnindexedOf)
  {
    var more := [executed, e];
    CollectAppend(g, more, height, g', SlotOf);
    CollectAppend(g, more, height, g', ChangeOf);
    CollectAppend(g, more, height, g', UnindexedOf);
    IndexedBatch(more, height);
    ChangeBatch(executed, e, height);
  }

  lemma ChangeBatch(executed: Event, e: Event, height: nat)
    requires executed.Execution? && e.OwnerChange?
    ensures Collect(Batch([executed, e], height), ChangeOf) == [ChangeOfEvent(e)]
    ensures Collect(Batch([executed, e], height), SlotOf) == []
  {
    var rows := Batch([executed, e], height);
    assert rows[..1] == [rows[0]];
    CollectNone(rows[..1], ChangeOf);
    CollectNone(rows, SlotOf);
  }

  /** Replaying the emitted change does to the list what the contract did to it. */
  lemma {:induction false} ReplayedAsExecuted(g: Guard, p: Proposal, self: PublicKey, insertAfter: Option<PublicKey>,
                                              slot: nat, order: Base58)
    requires CanChangeOwner(self, g, p, insertAfter, slot) && XDistinct(OwnerList(g)) && EMPTY_KEY !in OwnerList(g)
             && Target(p) != EMPTY_KEY
    ensures var s := ChangedOwners(g, p, insertAfter);
            && Replayed(OwnerList(g), Change(Known(g.configNonce + 1), Decoded(Target(p)), p.txType == ADD_OWNER,
                                             Some(OwnersHash(s))), order) == s
            && EMPTY_KEY !in s
  {
    if p.txType == ADD_OWNER { AddReplayed(OwnerList(g), Target(p), insertAfter); }
  }

  /** An accepted addition is an insertion, so the emitted commitment names its result. */
  lemma AddReplayed(s: seq<PublicKey>, owner: PublicKey, insertAfter: Option<PublicKey>)
    requires XDistinct(s) && AddAccepted(s, owner, insertAfter)
    ensures IsInsertion(s, owner, Insert(s, owner, insertAfter))
    ensures forall pk :: pk in Insert(s, owner, insertAfter) ==> pk in s || pk == owner
  {
    var at := AddInsertsOnce(s, owner, insertAfter);
    assert Insert(s, owner, insertAfter) == InsertAt(s, owner, at);
  }

  // ---- every call ----

  lemma OwnerChangeCall(w: World, a: PublicKey, c: Call, order: Base58)
    requires Allowed(w, a, c) && c.DoOwnerChange? && ReplayInv(Read(w, a), order)
    requires XDistinct(OwnerList(Read(w, a))) && Target(c.p) != EMPTY_KEY
    ensures ReplayInv(After(w, a, c), order)
  {
    var g, g' := Read(w, a), After(w, a, c);
    CallEmits(w, a, c);
    ReplayedAsExecuted(g, c.p, a, c.insertAfter, w.slot, order);
    assert NewEvents(w, a, c) == [NewEvents(w, a, c)[0], NewEvents(w, a, c)[1]];
    ChangeReplay(g, NewEvents(w, a, c)[0], NewEvents(w, a, c)[1], w.height, g', order);
  }

  lemma SetupCall(w: World, a: PublicKey, c: Call, order: Base58)
    requires Allowed(w, a, c) && (c.DoSetup? || c.DoSetupChild?) && ReplayInv(Read(w, a), order)
    ensures ReplayInv(After(w, a, c), order)
  {
    CallEmits(w, a, c);
    var n := NewEvents(w, a, c);
    var tail := n[1 + |c.owners|..];
    assert n == [n[0]] + SetupOwnerEvents(c.owners, c.numOwners) + tail;
    SetupOwnersReplay(Read(w, a), n[0], c.owners, c.numOwners, tail, w.height, After(w, a, c), order);
  }

  lemma OtherCallEvents(w: World, a: PublicKey, c: Call)
    requires Allowed(w, a, c) && !c.DoSetup? && !c.DoSetupChild? && !c.DoOwnerChange?
    ensures NoOwnerEvents(NewEvents(w, a, c))
  {
  }

  lemma OtherCallOwners(w: World, a: PublicKey, c: Call)
    requires Allowed(w, a, c) && !c.DoSetup? && !c.DoSetupChild? && !c.DoOwnerChange?
    ensures var g, g' := Read(w, a), After(w, a, c);
            OwnerList(g') == OwnerList(g) && g'.configNonce >= g.configNonce && (Initialized(g) ==> Initialized(g'))
  {
  }

  lemma ReplayStep(w: World, a: PublicKey, c: Call, order: Base58)
    requires Allowed(w, a, c) && ReplayInv(Read(w, a), order) && RaisesLeaves(w, a, c)
    requires Initialized(Read(w, a)) ==> OwnersInv(Read(w, a))
    ensures ReplayInv(After(w, a, c), order)
  {
    if c.DoOwnerChange? { OwnerChangeCall(w, a, c, order); }
    else if c.DoSetup? || c.DoSetupChild? { SetupCall(w, a, c, order); }
    else {
      CallEmits(w, a, c);
      OtherCallEvents(w, a, c);
      OtherCallOwners(w, a, c);
      QuietOwners(Read(w, a), NewEvents(w, a, c), w.height, After(w, a, c), order);
    }
  }
}
