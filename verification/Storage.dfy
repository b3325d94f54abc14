/**
 The off-chain stores of storage.ts: the owner list, the approval leaves with their tracked keys,
 and the vote nullifiers.
 */
module Storage {
  import opened Primitives
  import opened Sequences
  import opened ListCommitment
  import opened Guards

  /** Base58 encodings of keys have one length, so comparing them compares numbers. */
  type Base58 = PublicKey -> nat

  // ---- owner lists ----

  function InsertAt(s: seq<PublicKey>, owner: PublicKey, i: nat): (r: seq<PublicKey>)
    requires i <= |s|
  {
    s[..i] + [owner] + s[i..]
  }

  /** The first position whose key sorts behind `owner`, or the end. */
  function SortedIndex(s: seq<PublicKey>, owner: PublicKey, order: Base58): (i: nat)
    ensures i <= |s|
    ensures forall j :: 0 <= j < i ==> order(s[j]) <= order(owner)
    ensures i < |s| ==> order(s[i]) > order(owner)
  {
    if s == [] || order(s[0]) > order(owner) then 0 else 1 + SortedIndex(s[1..], owner, order)
  }

  function SortedInsert(s: seq<PublicKey>, owner: PublicKey, order: Base58): (r: seq<PublicKey>)
  {
    InsertAt(s, owner, SortedIndex(s, owner, order))
  }

  /** The last listed key that sorts before `owner`. */
  function Predecessor(s: seq<PublicKey>, owner: PublicKey, order: Base58): (r: Option<PublicKey>)
  {
    if s == [] then None
    else if order(s[|s| - 1]) < order(owner) then Some(s[|s| - 1])
    else Predecessor(s[..|s| - 1], owner, order)
  }

  predicate SortedList(s: seq<PublicKey>, order: Base58) {
    forall i, j :: 0 <= i < j < |s| ==> order(s[i]) < order(s[j])
  }

  lemma {:induction false} PredecessorOfSorted(s: seq<PublicKey>, owner: PublicKey, order: Base58, i: nat)
    requires SortedList(s, order) && i <= |s|
    requires forall j :: 0 <= j < i ==> order(s[j]) < order(owner)
    requires forall j :: i <= j < |s| ==> order(s[j]) > order(owner)
    ensures Predecessor(s, owner, order) == if i == 0 then None else Some(s[i - 1])
  {
    if i < |s| { PredecessorOfSorted(s[..|s| - 1], owner, order, i); }
  }

  /**
   What the app does to add an owner is what the circuit accepts: on a sorted list of distinct
   keyholders, inserting behind the sorted predecessor is accepted and yields the sorted insertion,
   which is sorted again.
   */
  lemma {:induction false} SortedAddAccepted(s: seq<PublicKey>, owner: PublicKey, order: Base58)
    requires SortedList(s, order) && XDistinct(s) && !HasX(s, owner.x)
    requires forall pk :: pk in s && order(pk) == order(owner) ==> pk == owner
    ensures AddAccepted(s, owner, Predecessor(s, owner, order))
    ensures Insert(s, owner, Predecessor(s, owner, order)) == SortedInsert(s, owner, order)
    ensures SortedList(SortedInsert(s, owner, order), order)
  {
    var i := SortedIndex(s, owner, order);
    SortedIndexSplits(s, owner, order);
    PredecessorOfSorted(s, owner, order, i);
    if i > 0 { InsertBehindAt(s, owner, i); }
    SortedInsertKeepsSorted(s, owner, order, i);
  }

  lemma SortedIndexSplits(s: seq<PublicKey>, owner: PublicKey, order: Base58)
    requires SortedList(s, order) && !HasX(s, owner.x)
    requires forall pk :: pk in s && order(pk) == order(owner) ==> pk == owner
    ensures forall j :: 0 <= j < SortedIndex(s, owner, order) ==> order(s[j]) < order(owner)
    ensures forall j :: SortedIndex(s, owner, order) <= j < |s| ==> order(s[j]) > order(owner)
  {
    var i := SortedIndex(s, owner, order);
    forall j | 0 <= j < i ensures order(s[j]) < order(owner) {
      assert s[j] in s && s[j].x != owner.x;
    }
    forall j | i <= j < |s| ensures order(s[j]) > order(owner) {
      assert order(s[i]) <= order(s[j]);
    }
  }

  lemma InsertBehindAt(s: seq<PublicKey>, owner: PublicKey, i: nat)
    requires XDistinct(s) && 0 < i <= |s|
    ensures s[i - 1] in s && InsertBehind(s, owner, s[i - 1]) == InsertAt(s, owner, i)
  {
    var at := BehindPosition(s, owner, s[i - 1]);
    assert at == i;
  }

  lemma SortedInsertKeepsSorted(s: seq<PublicKey>, owner: PublicKey, order: Base58, at: nat)
    requires SortedList(s, order) && at <= |s|
    requires forall j :: 0 <= j < at ==> order(s[j]) < order(owner)
    requires at < |s| ==> order(s[at]) > order(owner)
    ensures SortedList(InsertAt(s, owner, at), order)
  {
    var r := InsertAt(s, owner, at);
    forall i, j | 0 <= i < j < |r| ensures order(r[i]) < order(r[j]) {
      assert r[i] == if i < at then s[i] else if i == at then owner else s[i - 1];
      assert r[j] == if j < at then s[j] else if j == at then owner else s[j - 1];
      assert j > at ==> order(s[at]) <= order(s[j - 1]);
    }
  }

  class OwnerStore {
    var owners: seq<PublicKey>

    constructor ()
      ensures owners == []
    {
      owners := [];
    }

    /** findIndex of the first key behind `owner`, or the length. */
    method SortedPosition(owner: PublicKey, order: Base58) returns (at: nat)
      ensures at == SortedIndex(owners, owner, order)
    {
      at := 0;
      while at < |owners| && order(owners[at]) <= order(owner)
        invariant at <= |owners|
        invariant SortedIndex(owners, owner, order) == at + SortedIndex(owners[at..], owner, order)
      {
        assert owners[at..][1..] == owners[at + 1..];
        at := at + 1;
      }
    }

    method AddSorted(owner: PublicKey, order: Base58)
      modifies this
      ensures owners == SortedInsert(old(owners), owner, order)
    {
      var at := SortedPosition(owner, order);
      owners := owners[..at] + [owner] + owners[at..];
    }

    method SortedPredecessor(target: PublicKey, order: Base58) returns (pred: Option<PublicKey>)
      ensures pred == Predecessor(owners, target, order)
    {
      pred := None;
      for i := 0 to |owners|
        invariant pred == Predecessor(owners[..i], target, order)
      {
        assert owners[..i + 1][..i] == owners[..i];
        if order(owners[i]) < order(target) { pred := Some(owners[i]); }
      }
      assert owners[..|owners|] == owners;
    }

    /** Inserts behind the first occurrence of the given key, or at the front; refuses a missing key. */
    method InsertAfter(owner: PublicKey, after: Option<PublicKey>) returns (ok: bool)
      modifies this
      ensures ok <==> after.None? || after.value in old(owners)
      ensures !ok ==> owners == old(owners)
      ensures ok && XDistinct(old(owners)) ==> owners == Insert(old(owners), owner, after)
    {
      if after.None? {
        owners := [owner] + owners;
        return true;
      }
      var i := 0;
      while i < |owners| && owners[i] != after.value
        invariant i <= |owners| && after.value !in owners[..i]
      {
        i := i + 1;
      }
      ok := i < |owners|;
      if ok {
        if XDistinct(owners) { var at := BehindPosition(owners, owner, after.value); }
        owners := owners[..i + 1] + [owner] + owners[i + 1..];
      } else {
        assert owners[..i] == owners;
      }
    }

    method Remove(owner: PublicKey)
      modifies this
      ensures owners == Without(old(owners), owner)
    {
      var list, kept: seq<PublicKey> := owners, [];
      for i := 0 to |list|
        invariant kept == Without(list[..i], owner)
      {
        assert list[..i + 1] == list[..i] + [list[i]];
        WithoutSnoc(list[..i], list[i], owner);
        if list[i] != owner { kept := kept + [list[i]]; }
      }
      assert list[..|list|] == list;
      owners := kept;
    }

    method GetCommitment() returns (commitment: Field)
      ensures commitment == OwnersHash(owners)
    {
      commitment := ComputeOwnerChain(owners);
    }

    method Matches(owner: PublicKey, target: Field, i: nat) returns (yes: bool)
      requires i <= |owners|
      ensures yes <==> target == OwnersHash(InsertAt(owners, owner, i))
    {
      var commitment := ComputeOwnerChain(owners[..i] + [owner] + owners[i..]);
      yes := commitment == target;
    }

    /** A position at which inserting `owner` reproduces the commitment, or -1 exactly when there is none. */
    method InsertPositionFor(owner: PublicKey, target: Field, order: Base58) returns (at: int)
      ensures -1 <= at <= |owners|
      ensures at >= 0 ==> target == OwnersHash(InsertAt(owners, owner, at))
      ensures at == -1 ==> forall i :: 0 <= i <= |owners| ==> target != OwnersHash(InsertAt(owners, owner, i))
    {
      var preferred := SortedPosition(owner, order);
      var found := Matches(owner, target, preferred);
      if found { return preferred; }
      for i := 0 to |owners| + 1
        invariant forall j :: 0 <= j < i ==> target != OwnersHash(InsertAt(owners, owner, j))
      {
        if i != preferred {
          var yes := Matches(owner, target, i);
          if yes { return i; }
        }
      }
      return -1;
    }

    /** The commitment of the sorted addition, on a copy. */
    method CommitmentWithSortedAdd(owner: PublicKey, order: Base58) returns (commitment: Field)
      ensures commitment == OwnersHash(SortedInsert(owners, owner, order))
    {
      var copy := new OwnerStore();
      copy.owners := owners;
      copy.AddSorted(owner, order);
      commitment := copy.GetCommitment();
    }

    /** A circuit witness whose fold is this list, padded to the circuit's size. */
    method GetWitness() returns (ws: seq<Slot>)
      ensures Compact(ws) == owners
      ensures |owners| <= MAX_OWNERS ==> |ws| == MAX_OWNERS
    {
      ws := [];
      for i := 0 to |owners|
        invariant |ws| == i && Compact(ws) == owners[..i]
      {
        ghost var before := ws;
        ws := ws + [Slot(true, owners[i])];
        assert ws[..|before|] == before;
      }
      while |ws| < MAX_OWNERS
        invariant Compact(ws) == owners
        invariant |owners| <= MAX_OWNERS ==> |ws| <= MAX_OWNERS
      {
        ghost var before := ws;
        ws := ws + [Slot(false, EMPTY_KEY)];
        assert ws[..|before|] == before;
      }
    }
  }

  // ---- approval leaves ----

  datatype Entry = Entry(key: Proposal, value: nat)

  /** The leaves written by a list of entries, later ones last. */
  function Written(es: seq<Entry>): (m: map<Proposal, nat>)
    ensures Canonical(m)
  {
    if es == [] then map[] else Put(Written(es[..|es| - 1]), es[|es| - 1].key, es[|es| - 1].value)
  }

  predicate EntriesOf(es: seq<Entry>, leaves: map<Proposal, nat>) {
    forall i :: 0 <= i < |es| ==> es[i].value == Leaf(leaves, es[i].key)
  }

  lemma {:induction false} WrittenLeaf(es: seq<Entry>, leaves: map<Proposal, nat>, k: Proposal)
    requires EntriesOf(es, leaves)
    ensures Leaf(Written(es), k) == if exists i :: 0 <= i < |es| && es[i].key == k then Leaf(leaves, k) else 0
  {
    if es != [] {
      var init, last := es[..|es| - 1], es[|es| - 1];
      WrittenLeaf(init, leaves, k);
      if last.key == k {
        assert es[|es| - 1].key == k;
      } else if i :| 0 <= i < |init| && init[i].key == k {
        assert es[i].key == k;
      }
    }
  }

  /** Rewriting the tracked leaves, in whatever order the format lists them, restores the map. */
  lemma {:induction false} WrittenRestores(es: seq<Entry>, leaves: map<Proposal, nat>)
    requires Canonical(leaves) && EntriesOf(es, leaves)
    requires forall k :: k in leaves ==> exists i :: 0 <= i < |es| && es[i].key == k
    ensures Written(es) == leaves
  {
    forall k ensures Leaf(Written(es), k) == Leaf(leaves, k) { WrittenLeaf(es, leaves, k); }
    SameLeaves(Written(es), leaves);
  }

  class ApprovalStore {
    var leaves: map<Proposal, nat>
    var keys: seq<Proposal>

    /** Every non-empty leaf has its key tracked. */
    ghost predicate Valid()
      reads this
    {
      Canonical(leaves) && forall k :: k in leaves ==> k in keys
    }

    constructor ()
      ensures Valid() && leaves == map[] && keys == []
    {
      leaves, keys := map[], [];
    }

    method GetCount(hash: Proposal) returns (count: nat)
      ensures count == Leaf(leaves, hash)
    {
      count := Leaf(leaves, hash);
    }

    method SetCount(hash: Proposal, count: nat)
      requires Valid()
      modifies this
      ensures Valid() && leaves == Put(old(leaves), hash, count)
      ensures keys == if hash in old(keys) then old(keys) else old(keys) + [hash]
    {
      leaves := Put(leaves, hash, count);
      if hash !in keys { keys := keys + [hash]; }
    }

    /** raiseTo: a leaf only ever grows. */
    method RaiseTo(hash: Proposal, value: nat)
      requires Valid()
      modifies this
      ensures Valid() && leaves == Raise(old(leaves), Some(Write(hash, value)))
    {
      var current := GetCount(hash);
      if value > current { SetCount(hash, value); }
    }

    method Serialize() returns (es: seq<Entry>)
      requires Valid()
      ensures EntriesOf(es, leaves) && |es| == |keys| && forall i :: 0 <= i < |es| ==> es[i].key == keys[i]
      ensures Written(es) == leaves
    {
      es := [];
      for i := 0 to |keys|
        invariant |es| == i && EntriesOf(es, leaves) && forall j :: 0 <= j < i ==> es[j].key == keys[j]
      {
        var count := GetCount(keys[i]);
        es := es + [Entry(keys[i], count)];
      }
      forall k | k in leaves ensures exists i :: 0 <= i < |es| && es[i].key == k {
        var i :| 0 <= i < |keys| && keys[i] == k;
        assert es[i].key == k;
      }
      WrittenRestores(es, leaves);
    }

    /** Rebuilds the tree from its leaves; nothing else of the serialized form is trusted. */
    static method Deserialize(es: seq<Entry>) returns (store: ApprovalStore)
      ensures fresh(store) && store.Valid() && store.leaves == Written(es)
      ensures |store.keys| == |es| && forall i :: 0 <= i < |es| ==> store.keys[i] == es[i].key
    {
      store := new ApprovalStore();
      for i := 0 to |es|
        invariant fresh(store) && store.leaves == Written(es[..i])
        invariant |store.keys| == i && forall j :: 0 <= j < i ==> store.keys[j] == es[j].key
        invariant store.Valid()
      {
        assert es[..i + 1][..i] == es[..i];
        ghost var before := store.leaves;
        store.leaves := Put(store.leaves, es[i].key, es[i].value);
        store.keys := store.keys + [es[i].key];
        assert forall k :: k in store.leaves ==> k in before || k == es[i].key;
      }
      assert es[..|es|] == es;
    }

    method Clone() returns (copy: ApprovalStore)
      requires Valid()
      ensures fresh(copy) && copy.Valid() && copy.leaves == leaves && copy.keys == keys
    {
      copy := new ApprovalStore();
      copy.leaves, copy.keys := leaves, keys;
    }
  }

  // ---- vote nullifiers ----

  function Nullified(keys: set<VoteKey>): (m: map<VoteKey, nat>) { map k | k in keys :: 1 }

  class VoteNullifierStore {
    var leaves: map<VoteKey, nat>
    var keys: set<VoteKey>

    /** The tracked keys are exactly the nullified leaves. */
    ghost predicate Valid()
      reads this
    {
      leaves == Nullified(keys)
    }

    constructor ()
      ensures Valid() && leaves == map[] && keys == {}
    {
      leaves, keys := map[], {};
    }

    method Nullify(hash: Proposal, voter: PublicKey)
      requires Valid()
      modifies this
      ensures Valid() && leaves == Raise(old(leaves), Some(Write(VoteKey(hash, voter), 1)))
    {
      var key := VoteKey(hash, voter);
      if key in keys { return; }
      leaves := Put(leaves, key, 1);
      keys := keys + {key};
    }

    method Serialize() returns (ks: seq<VoteKey>)
      requires Valid()
      ensures (forall i, j :: 0 <= i < j < |ks| ==> ks[i] != ks[j]) && forall k :: k in ks <==> k in keys
    {
      ks := [];
      var rest := keys;
      while rest != {}
        invariant forall i, j :: 0 <= i < j < |ks| ==> ks[i] != ks[j]
        invariant forall k :: k in keys <==> k in ks || k in rest
        invariant forall k :: k in ks ==> k !in rest
        decreases |rest|
      {
        var k :| k in rest;
        ks, rest := ks + [k], rest - {k};
      }
    }

    /** Refuses a repeated key. */
    static method Deserialize(ks: seq<VoteKey>) returns (store: Option<VoteNullifierStore>)
      ensures store.Some? <==> forall i, j :: 0 <= i < j < |ks| ==> ks[i] != ks[j]
      ensures store.Some? ==> fresh(store.value) && store.value.Valid() && store.value.keys == set k | k in ks
    {
      var s := new VoteNullifierStore();
      for i := 0 to |ks|
        invariant fresh(s) && s.Valid() && s.keys == set k | k in ks[..i]
        invariant forall j, l :: 0 <= j < l < i ==> ks[j] != ks[l]
      {
        if ks[i] in s.keys { return None; }
        s.leaves := Put(s.leaves, ks[i], 1);
        s.keys := s.keys + {ks[i]};
        assert ks[..i + 1] == ks[..i] + [ks[i]];
      }
      assert ks[..|ks|] == ks;
      return Some(s);
    }

    method Clone() returns (copy: VoteNullifierStore)
      requires Valid()
      ensures fresh(copy) && copy.Valid() && copy.leaves == leaves && copy.keys == keys
    {
      copy := new VoteNullifierStore();
      copy.leaves, copy.keys := leaves, keys;
    }
  }
}
