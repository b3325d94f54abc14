/**
 A proposal's receiver rows: rows are appended in apply order without an explicit index, so their order is
 right only because apply order restores slot order and no two non-empty slots of a proposal are equal.
 */
module ReceiverRows {
  import opened Primitives
  import opened Sequences
  import opened Guards
  import opened EventOrder
  import opened IndexTables
  import opened Reorg

  /** The receiver a slot event of `h` stands for; padding stands for none. */
  function SlotReceiver(e: Event, h: Proposal): Option<Receiver> {
    if e.ReceiverSlot? && e.hash == h && e.receiver != EMPTY_KEY then Some(Receiver(e.receiver, e.amount)) else None
  }

  function ReceiverIn(h: Proposal): ChainEvent -> Option<Receiver> { (e: ChainEvent) => SlotReceiver(e.event, h) }

  /** The receivers of `h` in the order of the events. */
  function ReceiversIn(c: seq<ChainEvent>, h: Proposal): seq<Receiver> { Collect(c, ReceiverIn(h)) }

  /** The proposal is delivered, in one block with its slots, and its non-empty slots differ from each other. */
  predicate Delivered(c: seq<ChainEvent>, h: Proposal, height: nat) {
    && (exists k :: 0 <= k < |c| && c[k].event.Proposed? && c[k].event.hash == h)
    && (forall i :: 0 <= i < |c| && (c[i].event.Proposed? || c[i].event.ReceiverSlot?) && c[i].event.hash == h ==>
          c[i].height == height)
    && (forall i, j :: 0 <= i < j < |c| && SlotReceiver(c[i].event, h).Some? ==>
          FingerprintOf(c[i]) != FingerprintOf(c[j]))
  }

  /** Some event among the first `n` proposes `h`. */
  predicate ProposedBefore(c: seq<ChainEvent>, n: nat, h: Proposal) {
    exists k :: 0 <= k < n <= |c| && c[k].event.Proposed? && c[k].event.hash == h
  }

  /** In apply order no slot precedes its proposal. */
  lemma SlotsFollowProposal(c: seq<ChainEvent>, h: Proposal, height: nat, n: nat)
    requires InApplyOrder(c) && Delivered(c, h, height) && n < |c| && c[n].event.ReceiverSlot? && c[n].event.hash == h
    ensures ProposedBefore(c, n, h)
  {
    var k :| 0 <= k < |c| && c[k].event.Proposed? && c[k].event.hash == h;
    assert !(n < k);
  }

  /** The tables hold exactly the receivers among the first `n` events. */
  predicate HoldsRows(t: Tables, c: seq<ChainEvent>, n: nat, h: Proposal)
    requires n <= |c|
  {
    && (h in t.proposals <==> ProposedBefore(c, n, h))
    && ReceiversIn(c[..n], h) == if h in t.proposals then t.proposals[h].receivers else []
  }

  /** After any prefix, the proposal's rows are the receivers delivered so far. */
  lemma {:induction false} RowsSoFar(c: seq<ChainEvent>, h: Proposal, height: nat, n: nat)
    requires InApplyOrder(c) && Delivered(c, h, height) && n <= |c|
    ensures HoldsRows(Indexed(c[..n]), c, n, h)
  {
    if n > 0 {
      var e := c[n - 1];
      RowsSoFar(c, h, height, n - 1);
      IndexedSnoc(c, n - 1);
      if e.event.ReceiverSlot? && e.event.hash == h { SlotsFollowProposal(c, h, height, n - 1); }
      if FingerprintOf(e) in Indexed(c[..n - 1]).raw { RepeatedIsSkipped(c, h, height, n - 1); }
      RowsNext(Indexed(c[..n - 1]), c, n - 1, h);
    }
  }

  lemma RowsNext(t: Tables, c: seq<ChainEvent>, n: nat, h: Proposal)
    requires n < |c| && HoldsRows(t, c, n, h)
    requires c[n].event.ReceiverSlot? && c[n].event.hash == h ==> ProposedBefore(c, n, h)
    requires FingerprintOf(c[n]) in t.raw ==>
               SlotReceiver(c[n].event, h) == None
                 && (c[n].event.Proposed? && c[n].event.hash == h ==> ProposedBefore(c, n, h))
    ensures HoldsRows(Ingest(t, c[n], n), c, n + 1, h)
  {
    ReceiversSnoc(c, n, h);
    ProposedSnoc(c, n, h);
    RowStep(t, c[n], n, h);
  }

  lemma ReceiversSnoc(c: seq<ChainEvent>, n: nat, h: Proposal)
    requires n < |c|
    ensures var r := SlotReceiver(c[n].event, h);
            ReceiversIn(c[..n + 1], h) == ReceiversIn(c[..n], h) + (if r.Some? then [r.value] else [])
  {
    assert c[..n + 1][..n] == c[..n];
  }

  lemma ProposedSnoc(c: seq<ChainEvent>, n: nat, h: Proposal)
    requires n < |c|
    ensures ProposedBefore(c, n + 1, h) <==> ProposedBefore(c, n, h) || (c[n].event.Proposed? && c[n].event.hash == h)
  {
  }

  lemma RepeatedIsSkipped(c: seq<ChainEvent>, h: Proposal, height: nat, n: nat)
    requires Delivered(c, h, height) && n < |c| && FingerprintOf(c[n]) in Indexed(c[..n]).raw
    ensures SlotReceiver(c[n].event, h) == None
    ensures c[n].event.Proposed? && c[n].event.hash == h ==> ProposedBefore(c, n, h)
  {
    RawGrows(EMPTY_TABLES, c[..n], 0, FingerprintOf(c[n]));
    var i :| 0 <= i < n && FingerprintOf(c[..n][i]) == FingerprintOf(c[n]);
    assert c[i].event == c[n].event;
  }

  function NewReceivers(t: Tables, e: ChainEvent, h: Proposal): seq<Receiver> {
    if FingerprintOf(e) !in t.raw && SlotReceiver(e.event, h).Some? then [SlotReceiver(e.event, h).value] else []
  }

  /** One event: a new proposal starts without receivers, a new non-empty slot appends one. */
  lemma RowStep(t: Tables, e: ChainEvent, order: nat, h: Proposal)
    ensures var r := Ingest(t, e, order);
            && (h in r.proposals
                <==> h in t.proposals || (FingerprintOf(e) !in t.raw && e.event.Proposed? && e.event.hash == h))
            && (h in t.proposals ==> r.proposals[h].receivers == t.proposals[h].receivers + NewReceivers(t, e, h))
            && (h !in t.proposals && h in r.proposals ==> r.proposals[h].receivers == [])
  {
  }

  /** The indexed rows of a proposal are its receivers in apply order. */
  lemma RowsFollowApplyOrder(c: seq<ChainEvent>, h: Proposal, height: nat)
    requires InApplyOrder(c) && Delivered(c, h, height)
    ensures h in Indexed(c).proposals && Indexed(c).proposals[h].receivers == ReceiversIn(c, h)
  {
    assert c[..|c|] == c;
    RowsSoFar(c, h, height, |c|);
    assert ProposedBefore(c, |c|, h);
  }

  // ---- slot order ----

  /** Receivers are found among the receiver events of the proposal's transaction. */
  lemma {:induction false} ReceiversOfTx(c: seq<ChainEvent>, h: Proposal, tx: nat)
    requires forall i :: 0 <= i < |c| && SlotReceiver(c[i].event, h).Some? ==> c[i].txHash == Some(tx)
    ensures ReceiversIn(OfTxAndType(c, tx, 5), h) == ReceiversIn(c, h)
  {
    if c != [] {
      var init, last := c[..|c| - 1], c[|c| - 1];
      ReceiversOfTx(init, h, tx);
      var picked := OfTxAndType(init, tx, 5);
      if last.txHash == Some(tx) && TypeRank(last.event) == 5 {
        assert (picked + [last])[..|picked|] == picked;
      }
    }
  }

  /** The non-empty receivers of a proposal, in slot order. */
  function SlotOrder(h: Proposal, n: nat): (rs: seq<Receiver>)
    requires n <= |h.receivers|
  {
    if n == 0 then []
    else if h.receivers[n - 1].address == EMPTY_KEY then SlotOrder(h, n - 1)
    else SlotOrder(h, n - 1) + [h.receivers[n - 1]]
  }

  /** These events hold the slots of `h` at `at`, and no other receiver of `h`. */
  predicate ReceiverGroup(emitted: seq<ChainEvent>, at: nat, h: Proposal) {
    && at + |h.receivers| <= |emitted|
    && (forall i :: at <= i < at + |h.receivers| ==> emitted[i].event == ReceiverEvents(h)[i - at])
    && (forall i :: 0 <= i < |emitted| && !(at <= i < at + |h.receivers|) ==> SlotReceiver(emitted[i].event, h) == None)
  }

  /** The transaction that emitted these events proposed `h`, among other calls. */
  predicate EmittedByPropose(emitted: seq<ChainEvent>, h: Proposal) {
    exists at: nat :: at <= |emitted| && ReceiverGroup(emitted, at, h)
  }

  function Within(n: nat, at: nat, most: nat): (k: nat)
    ensures k <= most
  {
    if n <= at then 0 else if n - at <= most then n - at else most
  }

  /** The receivers among the first `n` events are those of the slots reached. */
  lemma {:induction false} GroupSoFar(emitted: seq<ChainEvent>, at: nat, h: Proposal, n: nat)
    requires ReceiverGroup(emitted, at, h) && n <= |emitted|
    ensures ReceiversIn(emitted[..n], h) == SlotOrder(h, Within(n, at, |h.receivers|))
  {
    if n > 0 {
      GroupSoFar(emitted, at, h, n - 1);
      ReceiversSnoc(emitted, n - 1, h);
      if at < n <= at + |h.receivers| { assert emitted[n - 1].event == ReceiverEvents(h)[n - 1 - at]; }
    }
  }

  lemma EmittedReceivers(emitted: seq<ChainEvent>, h: Proposal)
    requires EmittedByPropose(emitted, h)
    ensures ReceiversIn(emitted, h) == SlotOrder(h, |h.receivers|)
  {
    var at: nat :| at <= |emitted| && ReceiverGroup(emitted, at, h);
    GroupSoFar(emitted, at, h, |emitted|);
    assert emitted[..|emitted|] == emitted;
  }

  // ---- repeated receivers ----

  predicate Different(rs: seq<Receiver>) { forall i, j :: 0 <= i < j < |rs| ==> rs[i] != rs[j] }

  /** Every event of `h`'s proposal and slots is in one block, and its slots are in one transaction. */
  predicate InOneTx(c: seq<ChainEvent>, h: Proposal, tx: nat, height: nat) {
    && (forall i :: 0 <= i < |c| && (c[i].event.Proposed? || c[i].event.ReceiverSlot?) && c[i].event.hash == h ==>
          c[i].height == height)
    && (forall i :: 0 <= i < |c| && SlotReceiver(c[i].event, h).Some? ==> c[i].txHash == Some(tx))
  }

  predicate ProposedIn(c: seq<ChainEvent>, h: Proposal) { ProposedBefore(c, |c|, h) }

  lemma {:induction false} ReceiversGrow(c: seq<ChainEvent>, h: Proposal, n: nat)
    requires n <= |c|
    ensures ReceiversIn(c[..n], h) <= ReceiversIn(c, h)
    decreases |c| - n
  {
    if n == |c| {
      assert c[..n] == c;
    } else {
      ReceiversSnoc(c, n, h);
      ReceiversGrow(c, h, n + 1);
    }
  }

  /** Two equal slots put their receiver twice among the receivers. */
  lemma EqualSlotsRepeat(c: seq<ChainEvent>, h: Proposal, i: nat, j: nat)
    requires i < j < |c| && SlotReceiver(c[i].event, h).Some?
             && SlotReceiver(c[i].event, h) == SlotReceiver(c[j].event, h)
    ensures !Different(ReceiversIn(c, h))
  {
    var r := SlotReceiver(c[i].event, h).value;
    var early := ReceiversIn(c[..j], h);
    assert c[..j][i] == c[i] && ReceiverIn(h)(c[i]) == Some(r);
    CollectMember(c[..j], ReceiverIn(h), r);
    ReceiversSnoc(c, j, h);
    ReceiversGrow(c, h, j + 1);
    var k :| 0 <= k < |early| && early[k] == r;
    assert ReceiversIn(c, h)[k] == r && ReceiversIn(c, h)[|early|] == r;
  }

  /** Without equal receivers the delivery is as the rows need it. */
  lemma DifferentDelivered(c: seq<ChainEvent>, h: Proposal, tx: nat, height: nat)
    requires InOneTx(c, h, tx, height) && ProposedIn(c, h) && Different(ReceiversIn(c, h))
    ensures Delivered(c, h, height)
  {
    forall i, j | 0 <= i < j < |c| && SlotReceiver(c[i].event, h).Some?
      ensures FingerprintOf(c[i]) != FingerprintOf(c[j]) {
      if FingerprintOf(c[i]) == FingerprintOf(c[j]) { EqualSlotsRepeat(c, h, i, j); }
    }
  }

  function RowsOfProposal(t: Tables, h: Proposal): seq<Receiver> {
    if h in t.proposals then t.proposals[h].receivers else []
  }

  /** Each row was recorded with its own marker, so no two rows are equal. */
  predicate RowsMarked(t: Tables, h: Proposal, tx: nat, height: nat) {
    var rows := RowsOfProposal(t, h);
    Different(rows) && forall r ::
      r in rows ==> Fingerprint(ReceiverSlot(h, r.address, r.amount), height, Some(tx)) in t.raw
  }

  lemma {:induction false} RowsStayMarked(c: seq<ChainEvent>, h: Proposal, tx: nat, height: nat, n: nat)
    requires InOneTx(c, h, tx, height) && n <= |c|
    ensures RowsMarked(Indexed(c[..n]), h, tx, height)
  {
    if n > 0 {
      RowsStayMarked(c, h, tx, height, n - 1);
      IndexedSnoc(c, n - 1);
      MarkedNext(Indexed(c[..n - 1]), c[n - 1], n - 1, h, tx, height);
    }
  }

  lemma MarkedNext(t: Tables, e: ChainEvent, order: nat, h: Proposal, tx: nat, height: nat)
    requires RowsMarked(t, h, tx, height)
    requires SlotReceiver(e.event, h).Some? ==> e.height == height && e.txHash == Some(tx)
    ensures RowsMarked(Ingest(t, e, order), h, tx, height)
  {
    RowStep(t, e, order, h);
    MarkersKept(t, e, order);
    var more := NewReceivers(t, e, h);
    if more != [] {
      assert FingerprintOf(e) == Fingerprint(ReceiverSlot(h, more[0].address, more[0].amount), height, Some(tx));
      assert more[0] !in RowsOfProposal(t, h);
    }
  }

  lemma MarkersKept(t: Tables, e: ChainEvent, order: nat)
    ensures t.raw + {FingerprintOf(e)} == Ingest(t, e, order).raw
  {
  }

  /**
   From the archive's answer for a chain in which one transaction proposed, whatever else it called, the index
   ends with the proposal's non-empty receivers in the contract's slot order exactly when no two of them are equal.
   */
  lemma {:induction false} RowsFollowSlotOrder(raw: seq<ChainEvent>, emitted: seq<ChainEvent>, h: Proposal, tx: nat,
                                               height: nat)
    requires OfTx(raw, tx) == Reversed(emitted) && EmittedByPropose(emitted, h)
    requires forall e :: e in raw && e.txHash == Some(tx) ==> e.height == height
    requires forall e :: e in emitted ==> e.txHash == Some(tx)
    requires InOneTx(raw, h, tx, height) && ProposedIn(raw, h)
    ensures var rows := RowsOfProposal(Indexed(OrderForApply(ReverseWithinEachTx(raw))), h);
            rows == SlotOrder(h, |h.receivers|) <==> Different(SlotOrder(h, |h.receivers|))
  {
    var applied := OrderForApply(ReverseWithinEachTx(raw));
    AppliedFacts(raw, tx, height, emitted);
    AppliedInOneTx(raw, applied, h, tx, height);
    ReceiversApplied(raw, applied, emitted, h, tx);
    EmittedReceivers(emitted, h);
    RowsExactly(applied, h, tx, height);
  }

  lemma RowsExactly(c: seq<ChainEvent>, h: Proposal, tx: nat, height: nat)
    requires InApplyOrder(c) && InOneTx(c, h, tx, height) && ProposedIn(c, h)
    ensures RowsOfProposal(Indexed(c), h) == ReceiversIn(c, h) <==> Different(ReceiversIn(c, h))
  {
    assert c[..|c|] == c;
    RowsStayMarked(c, h, tx, height, |c|);
    if Different(ReceiversIn(c, h)) {
      DifferentDelivered(c, h, tx, height);
      RowsFollowApplyOrder(c, h, height);
    }
  }

  lemma AppliedInOneTx(raw: seq<ChainEvent>, applied: seq<ChainEvent>, h: Proposal, tx: nat, height: nat)
    requires SameElements(applied, raw) && InOneTx(raw, h, tx, height) && ProposedIn(raw, h)
    ensures InOneTx(applied, h, tx, height) && ProposedIn(applied, h)
  {
    forall i | 0 <= i < |applied| ensures exists j :: 0 <= j < |raw| && raw[j] == applied[i] {
      assert applied[i] in raw;
    }
    var k :| 0 <= k < |raw| && raw[k].event.Proposed? && raw[k].event.hash == h;
    assert raw[k] in applied;
    var j :| 0 <= j < |applied| && applied[j] == raw[k];
    assert applied[j].event.Proposed?;
  }

  lemma ReceiversApplied(raw: seq<ChainEvent>, applied: seq<ChainEvent>, emitted: seq<ChainEvent>, h: Proposal, tx: nat)
    requires SameElements(applied, raw) && OfTxAndType(applied, tx, 5) == OfTxAndType(emitted, tx, 5)
    requires forall i :: 0 <= i < |raw| && SlotReceiver(raw[i].event, h).Some? ==> raw[i].txHash == Some(tx)
    requires forall e :: e in emitted ==> e.txHash == Some(tx)
    ensures ReceiversIn(applied, h) == ReceiversIn(emitted, h)
  {
    forall i | 0 <= i < |applied| && SlotReceiver(applied[i].event, h).Some? ensures applied[i].txHash == Some(tx) {
      assert applied[i] in raw;
    }
    ReceiversOfTx(applied, h, tx);
    ReceiversOfTx(emitted, h, tx);
  }

  lemma AppliedFacts(raw: seq<ChainEvent>, tx: nat, height: nat, emitted: seq<ChainEvent>)
    requires OfTx(raw, tx) == Reversed(emitted)
    requires forall e :: e in raw && e.txHash == Some(tx) ==> e.height == height
    ensures var applied := OrderForApply(ReverseWithinEachTx(raw));
            SameElements(applied, raw) && InApplyOrder(applied)
              && OfTxAndType(applied, tx, 5) == OfTxAndType(emitted, tx, 5)
  {
    ApplyOrderRestored(raw, tx, 5, height, emitted);
    PermutationSame(OrderForApply(ReverseWithinEachTx(raw)), raw);
  }
}
