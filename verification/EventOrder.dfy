/**
 The order in which the indexer applies events: per-transaction groups reversed back to emission
 order, then block height, then lifecycle rank, ties in input order.
 */
module EventOrder {
  import opened Primitives
  import opened Sequences
  import opened Guards

  /** An event as fetched from the archive. */
  datatype ChainEvent = ChainEvent(event: Event, height: nat, blockHash: Option<nat>, txHash: Option<nat>,
                                   memo: Option<string>)

  // ---- restoring emission order inside each transaction ----

  /** Events without a transaction hash are kept apart under a key of their own. */
  datatype GroupKey = Tx(hash: nat) | NoTx(n: nat)

  datatype Group = Group(key: GroupKey, events: seq<ChainEvent>)

  function HasKey(gs: seq<Group>, key: GroupKey): bool { exists i :: 0 <= i < |gs| && gs[i].key == key }

  function Push(gs: seq<Group>, key: GroupKey, e: ChainEvent): (r: seq<Group>)
  {
    if gs == [] then []
    else if gs[|gs| - 1].key == key then Push(gs[..|gs| - 1], key, e) + [Group(key, gs[|gs| - 1].events + [e])]
    else Push(gs[..|gs| - 1], key, e) + [gs[|gs| - 1]]
  }

  function KeyOf(e: ChainEvent, groups: nat): GroupKey { if e.txHash.Some? then Tx(e.txHash.value) else NoTx(groups) }

  function AddToGroup(gs: seq<Group>, e: ChainEvent): (r: seq<Group>)
  {
    var key := KeyOf(e, |gs|);
    if HasKey(gs, key) then Push(gs, key, e) else gs + [Group(key, [e])]
  }

  /** Groups in order of first appearance. */
  function Grouped(es: seq<ChainEvent>): (gs: seq<Group>)
  {
    if es == [] then [] else AddToGroup(Grouped(es[..|es| - 1]), es[|es| - 1])
  }

  function Reversed(es: seq<ChainEvent>): (r: seq<ChainEvent>)
  {
    if es == [] then [] else [es[|es| - 1]] + Reversed(es[..|es| - 1])
  }

  function Flatten(gs: seq<Group>): (r: seq<ChainEvent>)
  {
    if gs == [] then [] else Flatten(gs[..|gs| - 1]) + Reversed(gs[|gs| - 1].events)
  }

  function ReverseWithinEachTx(es: seq<ChainEvent>): (r: seq<ChainEvent>) { Flatten(Grouped(es)) }

  method ReverseEventsWithinEachTx(es: seq<ChainEvent>) returns (r: seq<ChainEvent>)
    ensures r == ReverseWithinEachTx(es)
  {
    var gs: seq<Group> := [];
    for i := 0 to |es|
      invariant gs == Grouped(es[..i])
    {
      assert es[..i + 1][..i] == es[..i];
      gs := AddToGroup(gs, es[i]);
    }
    assert es[..|es|] == es;
    r := [];
    for i := 0 to |gs|
      invariant r == Flatten(gs[..i])
    {
      assert gs[..i + 1][..i] == gs[..i];
      r := r + Reversed(gs[i].events);
    }
    assert gs[..|gs|] == gs;
  }

  /** The events of one transaction, in order. */
  function OfTx(es: seq<ChainEvent>, tx: nat): (r: seq<ChainEvent>)
  {
    if es == [] then []
    else if es[|es| - 1].txHash == Some(tx) then OfTx(es[..|es| - 1], tx) + [es[|es| - 1]]
    else OfTx(es[..|es| - 1], tx)
  }

  lemma {:induction false} OfTxConcat(es: seq<ChainEvent>, more: seq<ChainEvent>, tx: nat)
    ensures OfTx(es + more, tx) == OfTx(es, tx) + OfTx(more, tx)
    decreases |more|
  {
    if more == [] {
      assert es + more == es;
    } else {
      assert (es + more)[..|es + more| - 1] == es + more[..|more| - 1];
      OfTxConcat(es, more[..|more| - 1], tx);
    }
  }

  lemma {:induction false} ReversedPermutes(es: seq<ChainEvent>)
    ensures multiset(Reversed(es)) == multiset(es)
  {
    if es != [] {
      ReversedPermutes(es[..|es| - 1]);
      assert es == es[..|es| - 1] + [es[|es| - 1]];
    }
  }

  lemma {:induction false} ReversedOfTx(es: seq<ChainEvent>, tx: nat)
    ensures OfTx(Reversed(es), tx) == Reversed(OfTx(es, tx))
  {
    if es != [] {
      var init, last := es[..|es| - 1], es[|es| - 1];
      ReversedOfTx(init, tx);
      OfTxConcat([last], Reversed(init), tx);
      assert [last][..0] == [];
      if last.txHash == Some(tx) {
        assert (OfTx(init, tx) + [last])[..|OfTx(init, tx)|] == OfTx(init, tx);
      }
    }
  }

  /** Group keys are distinct and a transaction's group holds that transaction's events only. */
  predicate GroupsByTx(gs: seq<Group>) {
    && (forall i, j :: 0 <= i < j < |gs| ==> gs[i].key != gs[j].key)
    && (forall i, k :: 0 <= i < |gs| && 0 <= k < |gs[i].events| ==>
          gs[i].events[k].txHash == if gs[i].key.Tx? then Some(gs[i].key.hash) else None)
  }

  predicate GroupsInv(gs: seq<Group>) {
    GroupsByTx(gs) && forall i :: 0 <= i < |gs| && gs[i].key.NoTx? ==> gs[i].key.n < |gs|
  }

  lemma {:induction false} PushKeys(gs: seq<Group>, key: GroupKey, e: ChainEvent)
    ensures |Push(gs, key, e)| == |gs|
    ensures forall i ::
              0 <= i < |gs| ==> Push(gs, key, e)[i] == if gs[i].key == key then Group(key, gs[i].events + [e])
              else gs[i]
  {
    if gs != [] { PushKeys(gs[..|gs| - 1], key, e); }
  }

  lemma {:induction false} GroupedInv(es: seq<ChainEvent>)
    ensures GroupsInv(Grouped(es))
  {
    if es != [] {
      var gs, e := Grouped(es[..|es| - 1]), es[|es| - 1];
      GroupedInv(es[..|es| - 1]);
      AddKeeps(gs, e);
    }
  }

  lemma AddKeeps(gs: seq<Group>, e: ChainEvent)
    requires GroupsInv(gs)
    ensures GroupsInv(AddToGroup(gs, e))
  {
    PushKeys(gs, KeyOf(e, |gs|), e);
  }

  /** What a group contributes to the events of one transaction. */
  lemma {:induction false} FlattenOfTx(gs: seq<Group>, tx: nat)
    requires GroupsByTx(gs)
    ensures forall i :: 0 <= i < |gs| && gs[i].key == Tx(tx) ==> OfTx(Flatten(gs), tx) == Reversed(gs[i].events)
    ensures !HasKey(gs, Tx(tx)) ==> OfTx(Flatten(gs), tx) == []
  {
    if gs != [] {
      var init, last := gs[..|gs| - 1], gs[|gs| - 1];
      FlattenOfTx(init, tx);
      OfTxConcat(Flatten(init), Reversed(last.events), tx);
      ReversedOfTx(last.events, tx);
      if last.key == Tx(tx) {
        OfTxAll(last.events, tx);
        assert !HasKey(init, Tx(tx));
      } else {
        OfTxNone(last.events, tx);
        assert HasKey(init, Tx(tx)) ==> HasKey(gs, Tx(tx)) by {
          if i :| 0 <= i < |init| && init[i].key == Tx(tx) { assert gs[i].key == Tx(tx); }
        }
        if i :| 0 <= i < |gs| && gs[i].key == Tx(tx) { assert init[i].key == Tx(tx); }
      }
    }
  }

  lemma {:induction false} OfTxAll(es: seq<ChainEvent>, tx: nat)
    requires forall i :: 0 <= i < |es| ==> es[i].txHash == Some(tx)
    ensures OfTx(es, tx) == es
  {
    if es != [] {
      OfTxAll(es[..|es| - 1], tx);
      assert es == es[..|es| - 1] + [es[|es| - 1]];
    }
  }

  lemma {:induction false} OfTxNone(es: seq<ChainEvent>, tx: nat)
    requires forall i :: 0 <= i < |es| ==> es[i].txHash != Some(tx)
    ensures OfTx(es, tx) == []
  {
    if es != [] { OfTxNone(es[..|es| - 1], tx); }
  }

  /** The group of a transaction collects its events in input order. */
  lemma {:induction false} GroupCollects(es: seq<ChainEvent>, tx: nat)
    ensures forall i :: 0 <= i < |Grouped(es)| && Grouped(es)[i].key == Tx(tx) ==> Grouped(es)[i].events == OfTx(es, tx)
    ensures !HasKey(Grouped(es), Tx(tx)) ==> OfTx(es, tx) == []
  {
    if es != [] {
      var init, e := es[..|es| - 1], es[|es| - 1];
      var gs := Grouped(init);
      GroupCollects(init, tx);
      var key := KeyOf(e, |gs|);
      var r := Grouped(es);
      PushKeys(gs, key, e);
      if HasKey(gs, key) {
        assert forall i :: 0 <= i < |gs| ==> r[i].key == gs[i].key;
        if i :| 0 <= i < |gs| && gs[i].key == Tx(tx) { assert r[i].key == Tx(tx); }
        if !HasKey(r, Tx(tx)) { assert key != Tx(tx); }
      } else {
        assert r[|gs|] == Group(key, [e]);
        if i :| 0 <= i < |gs| && gs[i].key == Tx(tx) { assert r[i].key == Tx(tx); }
      }
    }
  }

  lemma {:induction false} FlattenPermutes(es: seq<ChainEvent>)
    ensures multiset(Flatten(Grouped(es))) == multiset(es)
  {
    if es != [] {
      var init, e := es[..|es| - 1], es[|es| - 1];
      assert es == init + [e];
      var gs := Grouped(init);
      FlattenPermutes(init);
      GroupedInv(init);
      var key := KeyOf(e, |gs|);
      if HasKey(gs, key) {
        PushPermutes(gs, key, e);
      } else {
        assert (gs + [Group(key, [e])])[..|gs|] == gs;
        assert Reversed([e]) == [e] + Reversed([e][..0]);
      }
    }
  }

  lemma {:induction false} PushAbsent(gs: seq<Group>, key: GroupKey, e: ChainEvent)
    requires !HasKey(gs, key)
    ensures Push(gs, key, e) == gs
  {
    PushKeys(gs, key, e);
  }

  lemma {:induction false} PushPermutes(gs: seq<Group>, key: GroupKey, e: ChainEvent)
    requires HasKey(gs, key) && forall i, j :: 0 <= i < j < |gs| ==> gs[i].key != gs[j].key
    ensures multiset(Flatten(Push(gs, key, e))) == multiset(Flatten(gs)) + multiset{e}
  {
    var init, last := gs[..|gs| - 1], gs[|gs| - 1];
    assert gs == init + [last];
    if last.key == key {
      assert !HasKey(init, key);
      PushAbsent(init, key, e);
      assert Push(gs, key, e) == init + [Group(last.key, last.events + [e])];
      LastGrows(init, last, e);
    } else {
      assert HasKey(init, key) by {
        var i :| 0 <= i < |gs| && gs[i].key == key;
        assert init[i].key == key;
      }
      PushPermutes(init, key, e);
      assert Push(gs, key, e) == Push(init, key, e) + [last];
      EarlierGrows(init, Push(init, key, e), last, e);
    }
  }

  lemma EarlierGrows(init: seq<Group>, grown: seq<Group>, last: Group, e: ChainEvent)
    requires multiset(Flatten(grown)) == multiset(Flatten(init)) + multiset{e}
    ensures multiset(Flatten(grown + [last])) == multiset(Flatten(init + [last])) + multiset{e}
  {
    FlattenLast(init, last);
    FlattenLast(grown, last);
  }

  lemma LastGrows(init: seq<Group>, last: Group, e: ChainEvent)
    ensures multiset(Flatten(init + [Group(last.key, last.events + [e])]))
            == multiset(Flatten(init + [last])) + multiset{e}
  {
    FlattenLast(init, Group(last.key, last.events + [e]));
    FlattenLast(init, last);
    assert (last.events + [e])[..|last.events|] == last.events;
    assert Reversed(last.events + [e]) == [e] + Reversed(last.events);
    assert multiset(Reversed(last.events + [e])) == multiset{e} + multiset(Reversed(last.events));
  }

  lemma {:induction false} FlattenLast(gs: seq<Group>, g: Group)
    ensures Flatten(gs + [g]) == Flatten(gs) + Reversed(g.events)
    ensures multiset(Flatten(gs + [g])) == multiset(Flatten(gs)) + multiset(Reversed(g.events))
  {
    assert (gs + [g])[..|gs|] == gs;
  }

  /** The restored list is a permutation in which every transaction's events are reversed. */
  lemma {:induction false} ReverseRestores(es: seq<ChainEvent>, tx: nat)
    ensures multiset(ReverseWithinEachTx(es)) == multiset(es)
    ensures OfTx(ReverseWithinEachTx(es), tx) == Reversed(OfTx(es, tx))
  {
    FlattenPermutes(es);
    GroupedInv(es);
    GroupCollects(es, tx);
    FlattenOfTx(Grouped(es), tx);
    if HasKey(Grouped(es), Tx(tx)) {
      var i :| 0 <= i < |Grouped(es)| && Grouped(es)[i].key == Tx(tx);
    }
  }

  // ---- canonical order ----

  function TypeRank(e: Event): (n: nat)
    ensures n < 100
  {
    match e
    case Deployed => 0
    case Setup(_, _, _, _) => 1
    case SetupOwner(_, _) => 2
    case Proposed(_, _) => 3
    case Approval(_, _, _, _, _) => 4
    case ReceiverSlot(_, _, _) => 5
    case Execution(_, _, _) => 6
    case OwnerChange(_, _, _, _, _, _) => 7
    case ThresholdChange(_, _, _, _) => 8
    case Delegate(_, _) => 9
    case CreateChild(_, _) => 10
    case ReclaimChild(_, _, _) => 11
    case EnableChildMultiSig(_, _, _, _) => 12
    case CreateChildConfig(_, _, _, _, _) => 13
    case CreateChildOwner(_, _, _) => 14
  }

  /** Height first, lifecycle rank second. */
  function ApplyRank(e: ChainEvent): int { e.height * 100 + TypeRank(e.event) }

  function OrderForApply(es: seq<ChainEvent>): (r: seq<ChainEvent>) { SortBy(es, ApplyRank) }

  predicate InApplyOrder(es: seq<ChainEvent>) {
    forall i, j :: 0 <= i < j < |es| ==>
      es[i].height < es[j].height || (es[i].height == es[j].height && TypeRank(es[i].event) <= TypeRank(es[j].event))
  }

  lemma RankOrders(es: seq<ChainEvent>)
    ensures Ascending(es, ApplyRank) <==> InApplyOrder(es)
  {
  }

  /** The events of one transaction and one type, in order. */
  function OfTxAndType(es: seq<ChainEvent>, tx: nat, t: nat): (r: seq<ChainEvent>)
  {
    if es == [] then []
    else
      var init, last := OfTxAndType(es[..|es| - 1], tx, t), es[|es| - 1];
      if last.txHash == Some(tx) && TypeRank(last.event) == t then init + [last] else init
  }

  /** Selecting a transaction commutes with selecting a type. */
  lemma {:induction false} TypeOfTx(es: seq<ChainEvent>, tx: nat, t: nat)
    ensures OfTxAndType(OfTx(es, tx), tx, t) == OfTxAndType(es, tx, t)
  {
    if es != [] {
      var init, last := es[..|es| - 1], es[|es| - 1];
      TypeOfTx(init, tx, t);
      if last.txHash == Some(tx) {
        assert (OfTx(init, tx) + [last])[..|OfTx(init, tx)|] == OfTx(init, tx);
      }
    }
  }

  /** Within one block, a transaction's events of one type all have one rank. */
  lemma {:induction false} RankOfTx(es: seq<ChainEvent>, tx: nat, t: nat, height: nat)
    requires forall e :: e in es && e.txHash == Some(tx) ==> e.height == height
    requires t < 100
    ensures OfTxAndType(OfRank(es, ApplyRank, height * 100 + t), tx, t) == OfTxAndType(es, tx, t)
  {
    if es != [] {
      var init, last := es[..|es| - 1], es[|es| - 1];
      assert es == init + [last];
      RankOfTx(init, tx, t, height);
      var picked := OfRank(init, ApplyRank, height * 100 + t);
      if ApplyRank(last) == height * 100 + t {
        assert (picked + [last])[..|picked|] == picked;
      }
    }
  }

  /**
   From what the archive returns, newest first inside each transaction, the indexer applies a
   permutation sorted by height and lifecycle rank in which the events of one type of one
   transaction are in emission order.
   */
  lemma {:induction false} ApplyOrderRestored(raw: seq<ChainEvent>, tx: nat, t: nat, height: nat,
                                              emitted: seq<ChainEvent>)
    requires OfTx(raw, tx) == Reversed(emitted)
    requires forall e :: e in raw && e.txHash == Some(tx) ==> e.height == height
    requires t < 100
    ensures var applied := OrderForApply(ReverseWithinEachTx(raw));
            && multiset(applied) == multiset(raw)
            && InApplyOrder(applied)
            && OfTxAndType(applied, tx, t) == OfTxAndType(emitted, tx, t)
  {
    ReverseRestores(raw, tx);
    SortBySorts(ReverseWithinEachTx(raw), ApplyRank);
    RankOrders(OrderForApply(ReverseWithinEachTx(raw)));
    RestoredTx(raw, tx, t, emitted);
    PermutationSame(ReverseWithinEachTx(raw), raw);
    TxKeepsOrder(ReverseWithinEachTx(raw), tx, t, height);
  }

  lemma RestoredTx(raw: seq<ChainEvent>, tx: nat, t: nat, emitted: seq<ChainEvent>)
    requires OfTx(raw, tx) == Reversed(emitted)
    ensures OfTxAndType(ReverseWithinEachTx(raw), tx, t) == OfTxAndType(emitted, tx, t)
  {
    ReverseRestores(raw, tx);
    ReversedTwice(emitted);
    TypeOfTx(ReverseWithinEachTx(raw), tx, t);
  }

  /** Sorting keeps the order among the events of one type of one transaction. */
  lemma TxKeepsOrder(es: seq<ChainEvent>, tx: nat, t: nat, height: nat)
    requires forall e :: e in es && e.txHash == Some(tx) ==> e.height == height
    requires t < 100
    ensures OfTxAndType(OrderForApply(es), tx, t) == OfTxAndType(es, tx, t)
  {
    var applied, rank := OrderForApply(es), height * 100 + t;
    OrderKeepsElements(es);
    assert forall e :: e in applied && e.txHash == Some(tx) ==> e.height == height;
    SortByStable(es, ApplyRank, rank);
    assert OfRank(applied, ApplyRank, rank) == OfRank(es, ApplyRank, rank);
    RankOfTx(es, tx, t, height);
    RankOfTx(applied, tx, t, height);
  }

  lemma OrderKeepsElements(es: seq<ChainEvent>)
    ensures SameElements(OrderForApply(es), es)
  {
    SortBySorts(es, ApplyRank);
    PermutationSame(OrderForApply(es), es);
  }

  lemma {:induction false} ReversedSnoc(es: seq<ChainEvent>, e: ChainEvent)
    ensures Reversed([e] + es) == Reversed(es) + [e]
  {
    if es == [] {
      assert [e] + es == [e];
      assert [e][..0] == [];
    } else {
      assert ([e] + es)[..|es|] == [e] + es[..|es| - 1];
      ReversedSnoc(es[..|es| - 1], e);
    }
  }

  lemma {:induction false} ReversedTwice(es: seq<ChainEvent>)
    ensures Reversed(Reversed(es)) == es
  {
    if es != [] {
      ReversedTwice(es[..|es| - 1]);
      ReversedSnoc(Reversed(es[..|es| - 1]), es[|es| - 1]);
    }
  }
}
