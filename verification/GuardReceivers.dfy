/**
 The receiver rows of a reachable guard's proposals: what the contract emits for a proposal meets what the
 rows need, so only equal receivers can make them differ from the proposal's slots.
 */
module GuardReceivers {
  import opened Primitives
  import opened Sequences
  import opened Guards
  import opened Ledger
  import opened EventOrder
  import opened IndexTables
  import opened Reorg
  import opened HonestEvents
  import opened CallGroups
  import opened ReceiverRows

  /** The events among the first `n` that were emitted in a transaction, in emission order. */
  function InTx(es: seq<Emitted>, n: nat, tx: nat -> Option<nat>, t: nat): (r: seq<Emitted>)
    requires n <= |es|
  {
    if n == 0 then []
    else if tx(n - 1) == Some(t) then InTx(es, n - 1, tx, t) + [es[n - 1]]
    else InTx(es, n - 1, tx, t)
  }

  /** Each selected event was emitted at an index of the transaction, on the same side of `m` as its position says. */
  lemma {:induction false} InTxIndex(es: seq<Emitted>, n: nat, tx: nat -> Option<nat>, t: nat, m: nat, p: nat)
    returns (j: nat)
    requires m <= n <= |es| && p < |InTx(es, n, tx, t)|
    ensures |InTx(es, m, tx, t)| <= |InTx(es, n, tx, t)|
    ensures j < n && tx(j) == Some(t) && InTx(es, n, tx, t)[p] == es[j] && (j < m <==> p < |InTx(es, m, tx, t)|)
  {
    InTxGrows(es, n, tx, t, m);
    if tx(n - 1) == Some(t) && p == |InTx(es, n - 1, tx, t)| {
      j := n - 1;
      if m < n { InTxGrows(es, n - 1, tx, t, m); }
    } else if m < n {
      j := InTxIndex(es, n - 1, tx, t, m, p);
    } else {
      j := InTxIndex(es, n - 1, tx, t, n - 1, p);
    }
  }

  lemma {:induction false} InTxGrows(es: seq<Emitted>, n: nat, tx: nat -> Option<nat>, t: nat, m: nat)
    requires m <= n <= |es|
    ensures InTx(es, m, tx, t) <= InTx(es, n, tx, t)
  {
    if m < n { InTxGrows(es, n - 1, tx, t, m); }
  }

  lemma {:induction false} InTxRun(es: seq<Emitted>, tx: nat -> Option<nat>, t: nat, m: nat, k: nat)
    requires m + k <= |es| && forall i :: m <= i < m + k ==> tx(i) == Some(t)
    ensures InTx(es, m + k, tx, t) == InTx(es, m, tx, t) + es[m..m + k]
  {
    if k > 0 {
      InTxRun(es, tx, t, m, k - 1);
      assert es[m..m + k] == es[m..m + k - 1] + [es[m + k - 1]];
    }
  }

  /** The call that proposed at `k` ran in transaction `t`, all of which is in one block. */
  predicate ProposedInTx(es: seq<Emitted>, k: nat, tx: nat -> Option<nat>, t: nat) {
    && k < |es| && es[k].event.Proposed?
    && (forall i :: k <= i <= k + |es[k].event.hash.receivers| ==> tx(i) == Some(t))
    && (forall i :: 0 <= i < |es| && tx(i) == Some(t) ==> es[i].height == es[k].height)
  }

  /** Chain events that are these emitted events. */
  predicate SameEvents(emitted: seq<ChainEvent>, es: seq<Emitted>) {
    |emitted| == |es| && forall i ::
    0 <= i < |es| ==> emitted[i].event == es[i].event && emitted[i].height == es[i].height
  }

  /** A slot of the proposal made at `k` was emitted directly behind it. */
  lemma SlotIndex(es: seq<Emitted>, k: nat, i: nat)
    requires InGroups(es) && NoRepeats(es) && k < |es| && es[k].event.Proposed? && i < |es|
    requires es[i].event.ReceiverSlot? && es[i].event.hash == es[k].event.hash
    ensures k < i <= k + |es[k].event.hash.receivers|
  {
    assert GroupedAt(es, i);
    var p: nat :| p < i && SlotOfGroup(es, p, i);
    OneIndex(es, p, k);
  }

  lemma GroupInTx(es: seq<Emitted>, k: nat, tx: nat -> Option<nat>, t: nat)
    requires InGroups(es) && ProposedInTx(es, k, tx, t)
    ensures var n := |es[k].event.hash.receivers|; var at := |InTx(es, k + 1, tx, t)|; var all := InTx(es, |es|, tx, t);
            && k + 1 + n < |es| && at + n <= |all|
            && forall i :: at <= i < at + n ==> all[i].event == ReceiverEvents(es[k].event.hash)[i - at]
  {
    var h := es[k].event.hash;
    var n, at := |h.receivers|, |InTx(es, k + 1, tx, t)|;
    assert GroupedAt(es, k);
    InTxRun(es, tx, t, k + 1, n);
    InTxGrows(es, |es|, tx, t, k + 1 + n);
    forall i | at <= i < at + n ensures InTx(es, |es|, tx, t)[i].event == ReceiverEvents(h)[i - at] {
      assert InTx(es, k + 1 + n, tx, t)[i] == es[k + 1 + (i - at)];
    }
  }

  /** The transaction's events hold the proposal's slots together, and no other slot of it. */
  lemma EmittedTogether(es: seq<Emitted>, k: nat, tx: nat -> Option<nat>, t: nat, emitted: seq<ChainEvent>)
    requires InGroups(es) && NoRepeats(es) && ProposedInTx(es, k, tx, t) && SameEvents(emitted, InTx(es, |es|, tx, t))
    ensures EmittedByPropose(emitted, es[k].event.hash)
  {
    var h, at := es[k].event.hash, |InTx(es, k + 1, tx, t)|;
    GroupInTx(es, k, tx, t);
    forall i | 0 <= i < |emitted| && !(at <= i < at + |h.receivers|) ensures SlotReceiver(emitted[i].event, h) == None {
      NoSlotElsewhere(es, k, tx, t, i);
    }
    assert ReceiverGroup(emitted, at, h);
  }

  lemma NoSlotElsewhere(es: seq<Emitted>, k: nat, tx: nat -> Option<nat>, t: nat, i: nat)
    requires InGroups(es) && NoRepeats(es) && ProposedInTx(es, k, tx, t) && i < |InTx(es, |es|, tx, t)|
    requires var at := |InTx(es, k + 1, tx, t)|; !(at <= i < at + |es[k].event.hash.receivers|)
    ensures SlotReceiver(InTx(es, |es|, tx, t)[i].event, es[k].event.hash) == None
  {
    var n := |es[k].event.hash.receivers|;
    assert GroupedAt(es, k);
    InTxRun(es, tx, t, k + 1, n);
    var j := InTxIndex(es, |es|, tx, t, k + 1, i);
    var j' := InTxIndex(es, |es|, tx, t, k + 1 + n, i);
    if SlotReceiver(es[j].event, es[k].event.hash).Some? {
      SlotIndex(es, k, j);
      SlotIndex(es, k, j');
    }
  }

  lemma DeliveredInOneTx(raw: seq<ChainEvent>, es: seq<Emitted>, at: seq<nat>, k: nat, tx: nat -> Option<nat>, t: nat)
    requires InGroups(es) && NoRepeats(es) && Delivers(raw, es, at, tx) && ProposedInTx(es, k, tx, t)
    ensures InOneTx(raw, es[k].event.hash, t, es[k].height)
    ensures forall e :: e in raw && e.txHash == Some(t) ==> e.height == es[k].height
  {
    var h := es[k].event.hash;
    forall i | 0 <= i < |raw| && (raw[i].event.Proposed? || raw[i].event.ReceiverSlot?) && raw[i].event.hash == h
      ensures raw[i].height == es[k].height && raw[i].txHash == Some(t)
    {
      if raw[i].event.Proposed? { OneIndex(es, at[i], k); } else { SlotIndex(es, k, at[i]); }
    }
  }

  lemma {:induction false} OfTxMember(c: seq<ChainEvent>, tx: nat, e: ChainEvent)
    ensures e in OfTx(c, tx) <==> e in c && e.txHash == Some(tx)
  {
    if c != [] {
      assert c == c[..|c| - 1] + [c[|c| - 1]];
      OfTxMember(c[..|c| - 1], tx, e);
    }
  }

  lemma {:induction false} ReversedMember(c: seq<ChainEvent>, e: ChainEvent)
    ensures e in Reversed(c) <==> e in c
  {
    if c != [] {
      assert c == c[..|c| - 1] + [c[|c| - 1]];
      ReversedMember(c[..|c| - 1], e);
    }
  }

  lemma TxFacts(raw: seq<ChainEvent>, es: seq<Emitted>, k: nat, tx: nat -> Option<nat>, t: nat,
                emitted: seq<ChainEvent>)
    requires ProposedInTx(es, k, tx, t) && SameEvents(emitted, InTx(es, |es|, tx, t))
             && OfTx(raw, t) == Reversed(emitted)
    ensures ProposedIn(raw, es[k].event.hash) && forall e :: e in emitted ==> e.txHash == Some(t)
  {
    forall e | e in emitted ensures e.txHash == Some(t) && e in raw {
      ReversedMember(emitted, e);
      OfTxMember(raw, t, e);
    }
    InTxGrows(es, |es|, tx, t, k + 1);
    var p := |InTx(es, k, tx, t)|;
    assert InTx(es, k + 1, tx, t)[p] == es[k];
    assert emitted[p] in raw;
    var i :| 0 <= i < |raw| && raw[i] == emitted[p];
    assert raw[i].event.Proposed?;
  }

  /**
   Whatever else a reachable guard's chain and the proposing transaction hold, a proposal's receiver rows are
   its non-empty receivers in slot order exactly when no two of them are equal.
   */
  lemma {:induction false} ReceiversOfGuard(w: World, a: PublicKey, raw: seq<ChainEvent>, at: seq<nat>,
                                            tx: nat -> Option<nat>, t: nat,
                                            k: nat, emitted: seq<ChainEvent>)
    requires Reachable(w) && a in w.guards && Delivers(raw, w.guards[a].events, at, tx)
             && ProposedInTx(w.guards[a].events, k, tx, t)
    requires SameEvents(emitted, InTx(w.guards[a].events, |w.guards[a].events|, tx, t))
             && OfTx(raw, t) == Reversed(emitted)
    ensures var h := w.guards[a].events[k].event.hash;
            var rows := RowsOfProposal(Indexed(OrderForApply(ReverseWithinEachTx(raw))), h);
            rows == SlotOrder(h, |h.receivers|) <==> Different(SlotOrder(h, |h.receivers|))
  {
    var es := w.guards[a].events;
    ReachableGrouped(w, a);
    ReachableSubjects(w, a);
    EmittedTogether(es, k, tx, t, emitted);
    DeliveredInOneTx(raw, es, at, k, tx, t);
    TxFacts(raw, es, k, tx, t, emitted);
    RowsFollowSlotOrder(raw, emitted, es[k].event.hash, t, es[k].height);
  }
}
