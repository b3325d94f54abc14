/**
 The rebuild outside its happy path: rows with missing or unreadable fields, legacy setup rows without a slot, and
 deliveries that lack something. What is missing writes nothing, and a missing vote or execution is reported.
 */
module RebuildEdges {
  import opened Primitives
  import opened Sequences
  import opened Guards
  import opened Storage
  import opened EventRebuild
  import opened EventSourcing
  import opened EventRoots

  // ---- unreadable nonces ----

  /**
   A change whose nonce is missing is replayed as the zeroth, one with an unreadable nonce behind all readable ones.
   */
  lemma {:induction false} UnreadableNonces(rows: seq<Row>, i: nat, j: nat)
    requires i < j < |OrderedChanges(rows)|
    ensures var cs := OrderedChanges(rows);
            && (cs[j].configNonce == Missing ==> cs[i].configNonce == Missing || cs[i].configNonce == Known(0))
            && (cs[i].configNonce.NotANumber? ==>
                  cs[j].configNonce.NotANumber?
                  || (cs[j].configNonce.Known? && cs[j].configNonce.n >= 9007199254740991))
  {
    SortBySorts(FirstPer(Collect(rows, ChangeOf), ChangeKey), NonceOf);
    assert NonceOf(OrderedChanges(rows)[i]) <= NonceOf(OrderedChanges(rows)[j]);
  }

  // ---- legacy setups ----

  /** Sorted by base58 form, ties aside. */
  predicate InBase58Order(s: seq<PublicKey>, order: Base58) {
    forall i, j :: 0 <= i < j < |s| ==> order(s[i]) <= order(s[j])
  }

  lemma {:induction false} InsertInOrder(s: seq<PublicKey>, owner: PublicKey, order: Base58, at: nat)
    requires InBase58Order(s, order) && at <= |s| && (forall j :: 0 <= j < at ==> order(s[j]) <= order(owner))
    requires at < |s| ==> order(s[at]) > order(owner)
    ensures InBase58Order(InsertAt(s, owner, at), order)
  {
    var r := InsertAt(s, owner, at);
    forall i, j | 0 <= i < j < |r| ensures order(r[i]) <= order(r[j]) {
      assert r[i] == if i < at then s[i] else if i == at then owner else s[i - 1];
      assert r[j] == if j < at then s[j] else if j == at then owner else s[j - 1];
      assert j > at ==> order(s[at]) <= order(s[j - 1]);
    }
  }

  lemma {:induction false} InsertOnce(s: seq<PublicKey>, owner: PublicKey, at: nat)
    requires at <= |s|
    ensures multiset(InsertAt(s, owner, at)) == multiset(s) + multiset{owner}
  {
    assert s == s[..at] + s[at..];
  }

  lemma {:induction false} AddAllInOrder(more: seq<PublicKey>, order: Base58)
    ensures InBase58Order(AddAllSorted([], more, order), order)
    ensures multiset(AddAllSorted([], more, order)) == multiset(more)
  {
    if more != [] {
      var init, last := more[..|more| - 1], more[|more| - 1];
      AddAllInOrder(init, order);
      var sorted := AddAllSorted([], init, order);
      InsertInOrder(sorted, last, order, SortedIndex(sorted, last, order));
      InsertOnce(sorted, last, SortedIndex(sorted, last, order));
      assert more == init + [last];
    }
  }

  /** Without any slot the owners are the keys of the setup rows, each as often as it was delivered, in base58 order. */
  lemma {:induction false} LegacySetup(rows: seq<Row>, order: Base58)
    requires Collect(rows, SlotOf) == []
    ensures InBase58Order(SetupOwners(rows, order), order)
    ensures multiset(SetupOwners(rows, order)) == multiset(Collect(rows, UnindexedOf))
  {
    AddAllInOrder(Collect(rows, UnindexedOf), order);
  }

  // ---- missing fields ----

  /** A row says nothing about a map unless it carries every field the map needs. */
  lemma {:induction false} MissingFieldsWriteNothing(m: map<Proposal, nat>, v: map<VoteKey, nat>, r: Row)
    ensures r.payload.ApprovalRow? && (r.payload.hash.None? || r.payload.count.None?) ==>
              Raise(m, ApprovalWrite(r)) == m
    ensures r.payload.ApprovalRow? && (r.payload.hash.None? || r.payload.approver.None?) ==> VoteWrite(r) == None
    ensures r.payload.ProposalRow? && (r.payload.hash.None? || r.payload.proposer.None?) ==> VoteWrite(r) == None
    ensures (r.payload.ProposalRow? || r.payload.ExecutionRow?) && r.payload.hash.None? ==> ApprovalWrite(r) == None
    ensures r.payload.ExecutionRow? && (r.payload.hash.None? || r.payload.txType.None?) ==> ChildWrite(r) == None
    ensures r.payload.SetupOwnerRow? || r.payload.OwnerChangeRow? || r.payload.OtherRow? ==>
              ApprovalWrite(r) == None && VoteWrite(r) == None && ChildWrite(r) == None
  {
  }

  // ---- missing rows ----

  /** Everything delivered was emitted, but nothing delivered writes `k`. */
  ghost predicate Lacks<K(!new)>(rows: seq<Row>, es: seq<Emitted>, write: Row -> Option<Write<K>>, k: K) {
    forall r :: r in rows ==> r in RowsOf(es) && (write(r).Some? ==> write(r).value.key != k)
  }

  lemma {:induction false} NeverWritten<K(!new)>(rows: seq<Row>, write: Row -> Option<Write<K>>, k: K)
    requires forall r :: r in rows && write(r).Some? ==> write(r).value.key != k
    ensures Leaf(RaiseAll(map[], rows, write), k) == 0
  {
    if rows != [] {
      var init, last := rows[..|rows| - 1], rows[|rows| - 1];
      assert rows == init + [last] && last in rows;
      NeverWritten(init, write, k);
    }
  }

  /** Any later block that delivers a root diverges from a delivery that lacks a write. */
  lemma {:induction false} LackingDiverges<K(!new)>(es: seq<Emitted>, now: nat, rows: seq<Row>,
                                                    write: Row -> Option<Write<K>>,
                                                    root: Row -> Option<map<K, nat>>, k: K, j: nat, height: nat)
    requires HeightsInv(es, now) && RootsInv(es, write, root) && Lacks(rows, es, write, k)
    requires j < |es| && es[j].height < height
    requires write(RowOf(es[j])).Some? && write(RowOf(es[j])).value.key == k && write(RowOf(es[j])).value.value > 0
    requires exists r :: InBlock(rows, height, r) && root(r).Some?
    ensures Diverges(map[], rows, write, root, height)
  {
    var fold := RaiseAll(map[], UpTo(rows, height), write);
    forall r | r in UpTo(rows, height) && write(r).Some? ensures write(r).value.key != k {
      UpToMember(rows, height, r);
    }
    NeverWritten(UpTo(rows, height), write, k);
    forall r | InBlock(rows, height, r) ensures root(r) != Some(fold) {
      if root(r).Some? { LaterRootHolds(es, now, r, write, root, j, height); }
    }
  }

  lemma HigherIsLater(es: seq<Emitted>, now: nat, j: nat, i: nat)
    requires HeightsInv(es, now) && j < |es| && i < |es| && es[j].height < es[i].height
    ensures j < i
  {
  }

  /** Every root of a later block holds what was written before. */
  lemma {:induction false} LaterRootHolds<K(!new)>(es: seq<Emitted>, now: nat, r: Row, write: Row -> Option<Write<K>>,
                                                   root: Row -> Option<map<K, nat>>, j: nat, height: nat)
    requires HeightsInv(es, now) && RootsInv(es, write, root) && r in RowsOf(es) && r.height == Some(height)
    requires j < |es| && es[j].height < height && write(RowOf(es[j])).Some? && root(r).Some?
    ensures Leaf(root(r).value, write(RowOf(es[j])).value.key) >= write(RowOf(es[j])).value.value
  {
    var i :| 0 <= i < |es| && RowsOf(es)[i] == r;
    HigherIsLater(es, now, j, i);
    assert RootAt(es, i, write, root);
    var prefix := es[..i + 1];
    assert prefix[j] == es[j] && RowsOf(prefix)[j] in RowsOf(prefix);
    RaisedLeaf(map[], RowsOf(prefix), write, write(RowOf(es[j])).value.key);
  }

  /** The reported divergence is never later than a block that diverges. */
  lemma {:induction false} DivergenceIsReported<K(!new)>(rows: seq<Row>, write: Row -> Option<Write<K>>,
                                                         root: Row -> Option<map<K, nat>>, height: int,
                                                         first: Option<int>)
    requires AllPlaced(rows) && Diverges(map[], rows, write, root, height)
    requires IsFirstDivergence(map[], rows, write, root, first)
    ensures first.Some? && first.value <= height
  {
  }
}
