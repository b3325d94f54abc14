/**
 From the archive's answer to chain order: an answer lists transactions in chain order, each newest event first.
 Restoring each transaction gives back the events as they were emitted, whatever the transactions hold.
 */
module ArchiveOrder {
  import opened Primitives
  import opened Sequences
  import opened EventOrder

  /** The events of the transactions, one transaction after the other. */
  function Joined(txs: seq<seq<ChainEvent>>): (c: seq<ChainEvent>)
  {
    if txs == [] then [] else Joined(txs[..|txs| - 1]) + txs[|txs| - 1]
  }

  /** The same with each transaction newest first. */
  function Answered(txs: seq<seq<ChainEvent>>): (c: seq<ChainEvent>)
  {
    if txs == [] then [] else Answered(txs[..|txs| - 1]) + Reversed(txs[|txs| - 1])
  }

  /** Non-empty transactions, each with a hash of its own. */
  predicate ByTx(txs: seq<seq<ChainEvent>>, hash: nat -> nat) {
    && (forall i, k :: 0 <= i < |txs| && 0 <= k < |txs[i]| ==> txs[i][k].txHash == Some(hash(i)))
    && (forall i, j :: 0 <= i < j < |txs| ==> hash(i) != hash(j))
    && (forall i :: 0 <= i < |txs| ==> txs[i] != [])
  }

  /** One group per transaction, in order. */
  function TxGroups(txs: seq<seq<ChainEvent>>, hash: nat -> nat): (gs: seq<Group>)
    ensures |gs| == |txs| && forall i :: 0 <= i < |gs| ==> gs[i] == Group(Tx(hash(i)), Reversed(txs[i]))
  {
    seq(|txs|, i requires 0 <= i < |txs| => Group(Tx(hash(i)), Reversed(txs[i])))
  }

  lemma {:induction false} ReversedMembers(es: seq<ChainEvent>, h: Option<nat>)
    requires forall k :: 0 <= k < |es| ==> es[k].txHash == h
    ensures |Reversed(es)| == |es| && forall k :: 0 <= k < |es| ==> Reversed(es)[k].txHash == h
  {
    if es != [] { ReversedMembers(es[..|es| - 1], h); }
  }

  lemma {:induction false} AddToLast(gs: seq<Group>, h: nat, init: seq<ChainEvent>, e: ChainEvent)
    requires !HasKey(gs, Tx(h)) && e.txHash == Some(h)
    ensures AddToGroup(gs + [Group(Tx(h), init)], e) == gs + [Group(Tx(h), init + [e])]
  {
    var grown := gs + [Group(Tx(h), init)];
    assert grown[|gs|].key == Tx(h) && grown[..|gs|] == gs;
    PushAbsent(gs, Tx(h), e);
  }

  /** Events of a new transaction, added one by one, become its group at the end. */
  lemma {:induction false} GroupsGrow(es: seq<ChainEvent>, more: seq<ChainEvent>, h: nat)
    requires !HasKey(Grouped(es), Tx(h)) && more != []
    requires forall k :: 0 <= k < |more| ==> more[k].txHash == Some(h)
    ensures Grouped(es + more) == Grouped(es) + [Group(Tx(h), more)]
  {
    var init, last := more[..|more| - 1], more[|more| - 1];
    assert (es + more)[..|es + more| - 1] == es + init;
    assert more == init + [last];
    if init == [] {
      assert es + init == es;
    } else {
      GroupsGrow(es, init, h);
      AddToLast(Grouped(es), h, init, last);
    }
  }

  lemma {:induction false} NewKey(txs: seq<seq<ChainEvent>>, hash: nat -> nat)
    requires ByTx(txs, hash) && txs != []
    ensures ByTx(txs[..|txs| - 1], hash) && !HasKey(TxGroups(txs[..|txs| - 1], hash), Tx(hash(|txs| - 1)))
    ensures TxGroups(txs, hash)
            == TxGroups(txs[..|txs| - 1], hash) + [Group(Tx(hash(|txs| - 1)), Reversed(txs[|txs| - 1]))]
  {
  }

  lemma {:induction false} AnsweredGroups(txs: seq<seq<ChainEvent>>, hash: nat -> nat)
    requires ByTx(txs, hash)
    ensures Grouped(Answered(txs)) == TxGroups(txs, hash)
  {
    if txs != [] {
      var init, last := txs[..|txs| - 1], txs[|txs| - 1];
      NewKey(txs, hash);
      AnsweredGroups(init, hash);
      ReversedMembers(last, Some(hash(|init|)));
      GroupsGrow(Answered(init), Reversed(last), hash(|init|));
    }
  }

  lemma {:induction false} FlattenRestores(txs: seq<seq<ChainEvent>>, hash: nat -> nat)
    ensures Flatten(TxGroups(txs, hash)) == Joined(txs)
  {
    if txs != [] {
      var init, last := txs[..|txs| - 1], txs[|txs| - 1];
      FlattenRestores(init, hash);
      assert TxGroups(txs, hash)[..|init|] == TxGroups(init, hash);
      ReversedTwice(last);
    }
  }

  /** Restoring the archive's answer gives the events transaction by transaction, each in emission order. */
  lemma {:induction false} ChainOrderRestored(txs: seq<seq<ChainEvent>>, hash: nat -> nat)
    requires ByTx(txs, hash)
    ensures ReverseWithinEachTx(Answered(txs)) == Joined(txs)
  {
    AnsweredGroups(txs, hash);
    FlattenRestores(txs, hash);
  }
}
