/**
 The in-circuit owner-list operations of list-commitment.ts.

 A circuit never sees the owner list, only its hash chain and a prover-supplied array of
 `MAX_OWNERS` optional keys with arbitrary gaps. Every loop folds chains slot by slot; each
 contract below states the list operation that the fold performs.
 */
module ListCommitment {
  import opened Primitives

  /** One slot of an OwnerWitness. A slot that is not `isSome` still carries some key. */
  datatype Slot = Slot(isSome: bool, value: PublicKey)

  /** The list a gapped witness denotes. */
  function Compact(ws: seq<Slot>): (s: seq<PublicKey>)
  {
    if ws == [] then []
    else if ws[|ws| - 1].isSome then Compact(ws[..|ws| - 1]) + [ws[|ws| - 1].value]
    else Compact(ws[..|ws| - 1])
  }

  lemma {:induction false} CompactStep(ws: seq<Slot>, i: nat)
    requires i < |ws|
    ensures Compact(ws[..i + 1]) ==
            if ws[i].isSome then Compact(ws[..i]) + [ws[i].value] else Compact(ws[..i])
  {
    assert ws[..i + 1][..i] == ws[..i];
  }

  // ---- setup lists ----

  method ComputeOwnerChain(owners: seq<PublicKey>) returns (commitment: Field)
    ensures commitment == OwnersHash(owners)
  {
    var chain := Start;
    for i := 0 to |owners|
      invariant chain == ChainOf(owners[..i])
    {
      chain := Link(chain, owners[i]);
      ChainSnoc(owners[..i], owners[i]);
      assert owners[..i + 1] == owners[..i] + [owners[i]];
    }
    assert owners[..|owners|] == owners;
    DigestOfChain(owners);
    commitment := Digest(chain);
  }

  /** The active part of a fixed-size setup array. */
  function Active(owners: seq<PublicKey>, numOwners: nat): (s: seq<PublicKey>)
  {
    if numOwners <= |owners| then owners[..numOwners] else owners
  }

  method ComputeSetupOwnersChain(owners: seq<PublicKey>, numOwners: nat) returns (commitment: Field)
    ensures commitment == OwnersHash(Active(owners, numOwners))
  {
    var chain := Start;
    for i := 0 to |owners|
      invariant chain == ChainOf(Active(owners[..i], numOwners))
    {
      if i < numOwners {
        chain := Link(chain, owners[i]);
        ChainSnoc(owners[..i], owners[i]);
        assert Active(owners[..i + 1], numOwners) == owners[..i] + [owners[i]];
      } else {
        assert owners[..i + 1][..numOwners] == owners[..i][..numOwners];
      }
    }
    assert owners[..|owners|] == owners;
    DigestOfChain(Active(owners, numOwners));
    commitment := Digest(chain);
  }

  /** What assertCoherentSetupOwners enforces, stated on the list it protects. */
  predicate Coherent(owners: seq<PublicKey>, numOwners: nat) {
    && (forall i :: 0 <= i < |owners| ==> (i < numOwners <==> owners[i] != EMPTY_KEY))
    && XDistinct(Active(owners, numOwners))
  }

  method CoherentSetupOwners(owners: seq<PublicKey>, numOwners: nat) returns (ok: bool)
    ensures ok == Coherent(owners, numOwners)
  {
    ok := true;
    for i := 0 to |owners|
      invariant ok <==> && (forall k :: 0 <= k < i ==> (k < numOwners <==> owners[k] != EMPTY_KEY))
                        && (forall k, j :: 0 <= k < i && k < j < |owners| && j < numOwners ==>
                              owners[k].x != owners[j].x)
    {
      var isEmpty := owners[i] == EMPTY_KEY;
      if !(i < numOwners || isEmpty) || (i < numOwners && isEmpty) {
        ok := false;
      }
      var clean := true;
      for j := i + 1 to |owners|
        invariant clean <==> forall k :: i < k < j && k < numOwners ==> owners[i].x != owners[k].x
      {
        if owners[i].x == owners[j].x && i < numOwners && j < numOwners {
          clean := false;
        }
      }
      ok := ok && clean;
    }
    ghost var act := Active(owners, numOwners);
    assert XDistinct(act) <==>
           forall k, j :: 0 <= k < j < |owners| && j < numOwners ==> owners[k].x != owners[j].x by {
      assert forall k :: 0 <= k < |act| ==> act[k] == owners[k];
    }
  }

  // ---- membership ----

  method AssertOwnerMembership(commitment: Field, claimed: PublicKey, ws: seq<Slot>) returns (ok: bool)
    ensures ok <==> commitment == OwnersHash(Compact(ws)) && claimed in Compact(ws)
  {
    var found := false;
    var chain := Start;
    for i := 0 to |ws|
      invariant chain == ChainOf(Compact(ws[..i]))
      invariant found <==> claimed in Compact(ws[..i])
    {
      CompactStep(ws, i);
      if ws[i].isSome {
        ChainSnoc(Compact(ws[..i]), ws[i].value);
        chain := Link(chain, ws[i].value);
      }
      if claimed == ws[i].value && ws[i].isSome {
        found := true;
      }
    }
    assert ws[..|ws|] == ws;
    DigestOfChain(Compact(ws));
    ok := found && Digest(chain) == commitment;
  }

  // ---- adding an owner ----

  /** The list after inserting `owner` behind every occurrence of `after`. */
  function InsertBehind(s: seq<PublicKey>, owner: PublicKey, after: PublicKey): (r: seq<PublicKey>)
  {
    if s == [] then []
    else
      var init, last := InsertBehind(s[..|s| - 1], owner, after), s[|s| - 1];
      if last == after then init + [last, owner] else init + [last]
  }

  function Insert(s: seq<PublicKey>, owner: PublicKey, insertAfter: Option<PublicKey>): (r: seq<PublicKey>)
  {
    match insertAfter
    case None => [owner] + s
    case Some(after) => InsertBehind(s, owner, after)
  }

  predicate HasX(s: seq<PublicKey>, x: nat) {
    exists i :: 0 <= i < |s| && s[i].x == x
  }

  /** Exactly when the circuit accepts an addition. */
  predicate AddAccepted(s: seq<PublicKey>, owner: PublicKey, insertAfter: Option<PublicKey>) {
    !HasX(s, owner.x) && (insertAfter.Some? ==> insertAfter.value in s)
  }

  lemma {:induction false} InsertSnoc(s: seq<PublicKey>, pk: PublicKey, owner: PublicKey,
                                      insertAfter: Option<PublicKey>)
    ensures Insert(s + [pk], owner, insertAfter) ==
            if insertAfter == Some(pk) then Insert(s, owner, insertAfter) + [pk, owner]
            else Insert(s, owner, insertAfter) + [pk]
  {
    assert (s + [pk])[..|s|] == s;
    assert [owner] + (s + [pk]) == [owner] + s + [pk];
  }

  lemma {:induction false} HasXSnoc(s: seq<PublicKey>, pk: PublicKey, x: nat)
    ensures HasX(s + [pk], x) <==> HasX(s, x) || pk.x == x
  {
    assert (s + [pk])[|s|] == pk;
    if HasX(s, x) {
      var k :| 0 <= k < |s| && s[k].x == x;
      assert (s + [pk])[k].x == x;
    }
  }

  /** One slot of the fold: the rebuilt chain grows by the slot's key and, at the position, by the owner. */
  lemma {:induction false} InsertStep(s: seq<PublicKey>, pk: PublicKey, owner: PublicKey,
                                      insertAfter: Option<PublicKey>)
    ensures ChainOf(Insert(s + [pk], owner, insertAfter)) ==
            var extended := Link(ChainOf(Insert(s, owner, insertAfter)), pk);
            if insertAfter == Some(pk) then Link(extended, owner) else extended
  {
    var r := Insert(s, owner, insertAfter);
    InsertSnoc(s, pk, owner, insertAfter);
    ChainSnoc(r, pk);
    if insertAfter == Some(pk) {
      ChainSnoc(r + [pk], owner);
      assert r + [pk] + [owner] == r + [pk, owner];
    }
  }

  method AddOwnerToCommitment(commitment: Field, owner: PublicKey, ws: seq<Slot>, insertAfter: Option<PublicKey>)
    returns (newCommitment: Field, valid: bool)
    ensures newCommitment == OwnersHash(Insert(Compact(ws), owner, insertAfter))
    ensures valid <==> commitment == OwnersHash(Compact(ws)) && AddAccepted(Compact(ws), owner, insertAfter)
  {
    var currentChain := Start;
    var newChain := Start;
    var foundOwner := false;
    var prepend := insertAfter.None?;
    if prepend {
      newChain := Link(newChain, owner);
      ChainSnoc([], owner);
      assert [] + [owner] == [owner];
    }
    var foundPosition := prepend;
    for i := 0 to |ws|
      invariant currentChain == ChainOf(Compact(ws[..i]))
      invariant newChain == ChainOf(Insert(Compact(ws[..i]), owner, insertAfter))
      invariant foundOwner <==> HasX(Compact(ws[..i]), owner.x)
      invariant foundPosition <==> insertAfter.None? || insertAfter.value in Compact(ws[..i])
    {
      CompactStep(ws, i);
      if ws[i].isSome {
        ChainSnoc(Compact(ws[..i]), ws[i].value);
        InsertStep(Compact(ws[..i]), ws[i].value, owner, insertAfter);
        HasXSnoc(Compact(ws[..i]), ws[i].value, owner.x);
        currentChain := Link(currentChain, ws[i].value);
        newChain := Link(newChain, ws[i].value);
      }
      var isPosition := insertAfter.Some? && ws[i].value == insertAfter.value && ws[i].isSome;
      if isPosition {
        foundPosition := true;
        newChain := Link(newChain, owner);
      }
      if ws[i].value.x == owner.x && ws[i].isSome {
        foundOwner := true;
      }
    }
    assert ws[..|ws|] == ws;
    DigestOfChain(Compact(ws));
    DigestOfChain(Insert(Compact(ws), owner, insertAfter));
    newCommitment := Digest(newChain);
    valid := !foundOwner && foundPosition && Digest(currentChain) == commitment;
  }

  /** On a list of distinct keyholders, an accepted addition lands exactly once, at the named place. */
  lemma {:induction false} AddInsertsOnce(s: seq<PublicKey>, owner: PublicKey, insertAfter: Option<PublicKey>)
    returns (at: nat)
    requires XDistinct(s) && AddAccepted(s, owner, insertAfter)
    ensures at <= |s| && Insert(s, owner, insertAfter) == s[..at] + [owner] + s[at..]
    ensures if insertAfter.None? then at == 0 else at > 0 && s[at - 1] == insertAfter.value
    ensures XDistinct(Insert(s, owner, insertAfter))
  {
    if insertAfter.None? {
      at := 0;
      assert [owner] + s == s[..0] + [owner] + s[0..];
    } else {
      at := BehindPosition(s, owner, insertAfter.value);
    }
    InsertAtKeepsDistinct(s, owner, at);
  }

  lemma InsertAtKeepsDistinct(s: seq<PublicKey>, owner: PublicKey, at: nat)
    requires XDistinct(s) && !HasX(s, owner.x) && at <= |s|
    ensures XDistinct(s[..at] + [owner] + s[at..])
  {
    var r := s[..at] + [owner] + s[at..];
    forall i, j | 0 <= i < j < |r| ensures r[i].x != r[j].x {
      assert r[i] == if i < at then s[i] else if i == at then owner else s[i - 1];
      assert r[j] == if j < at then s[j] else if j == at then owner else s[j - 1];
    }
  }

  /** Dropping the last of distinct keyholders leaves distinct keyholders without it. */
  lemma DistinctInit(s: seq<PublicKey>)
    requires XDistinct(s) && s != []
    ensures XDistinct(s[..|s| - 1]) && s[|s| - 1] !in s[..|s| - 1]
  {
  }

  lemma {:induction false} BehindAbsent(s: seq<PublicKey>, owner: PublicKey, after: PublicKey)
    requires after !in s
    ensures InsertBehind(s, owner, after) == s
  {
    if s != [] {
      assert s == s[..|s| - 1] + [s[|s| - 1]];
      BehindAbsent(s[..|s| - 1], owner, after);
    }
  }

  lemma {:induction false} BehindPosition(s: seq<PublicKey>, owner: PublicKey, after: PublicKey) returns (at: nat)
    requires XDistinct(s) && after in s
    ensures 0 < at <= |s| && s[at - 1] == after
    ensures InsertBehind(s, owner, after) == s[..at] + [owner] + s[at..]
  {
    var init, last := s[..|s| - 1], s[|s| - 1];
    DistinctInit(s);
    if last == after {
      at := |s|;
      BehindAbsent(init, owner, after);
      assert init + [last, owner] == s[..at] + [owner] + s[at..];
    } else {
      at := BehindPosition(init, owner, after);
      assert init[..at] + [owner] + init[at..] + [last] == s[..at] + [owner] + s[at..];
    }
  }

  // ---- removing an owner ----

  function Without(s: seq<PublicKey>, owner: PublicKey): (r: seq<PublicKey>)
    ensures owner !in r
    ensures forall pk :: pk in r ==> pk in s
  {
    if s == [] then []
    else if s[|s| - 1] == owner then Without(s[..|s| - 1], owner)
    else Without(s[..|s| - 1], owner) + [s[|s| - 1]]
  }

  lemma {:induction false} WithoutSnoc(s: seq<PublicKey>, pk: PublicKey, owner: PublicKey)
    ensures Without(s + [pk], owner) == if pk == owner then Without(s, owner) else Without(s, owner) + [pk]
  {
    assert (s + [pk])[..|s|] == s;
  }

  method RemoveOwnerFromCommitment(commitment: Field, owner: PublicKey, ws: seq<Slot>)
    returns (newCommitment: Field, valid: bool)
    ensures newCommitment == OwnersHash(Without(Compact(ws), owner))
    ensures valid <==> && commitment == OwnersHash(Compact(ws)) && owner in Compact(ws)
                       && Without(Compact(ws), owner) != []
  {
    var currentChain := Start;
    var newChain := Start;
    var foundOwner := false;
    var remaining := 0;
    for i := 0 to |ws|
      invariant currentChain == ChainOf(Compact(ws[..i]))
      invariant newChain == ChainOf(Without(Compact(ws[..i]), owner))
      invariant foundOwner <==> owner in Compact(ws[..i])
      invariant remaining == |Without(Compact(ws[..i]), owner)|
    {
      CompactStep(ws, i);
      var isPosition := ws[i].value == owner && ws[i].isSome;
      if ws[i].isSome {
        ghost var s := Compact(ws[..i]);
        ChainSnoc(s, ws[i].value);
        WithoutSnoc(s, ws[i].value, owner);
        ChainSnoc(Without(s, owner), ws[i].value);
        currentChain := Link(currentChain, ws[i].value);
      }
      if ws[i].isSome && !isPosition {
        remaining := remaining + 1;
        newChain := Link(newChain, ws[i].value);
      }
      if isPosition {
        foundOwner := true;
      }
    }
    assert ws[..|ws|] == ws;
    DigestOfChain(Compact(ws));
    DigestOfChain(Without(Compact(ws), owner));
    newCommitment := Digest(newChain);
    valid := foundOwner && Digest(currentChain) == commitment && remaining > 0;
  }

  lemma {:induction false} WithoutAbsent(s: seq<PublicKey>, owner: PublicKey)
    requires owner !in s
    ensures Without(s, owner) == s
  {
    if s != [] {
      assert s == s[..|s| - 1] + [s[|s| - 1]];
      WithoutAbsent(s[..|s| - 1], owner);
    }
  }

  lemma {:induction false} WithoutPosition(s: seq<PublicKey>, owner: PublicKey) returns (at: nat)
    requires XDistinct(s) && owner in s
    ensures at < |s| && s[at] == owner && Without(s, owner) == s[..at] + s[at + 1..]
  {
    var init, last := s[..|s| - 1], s[|s| - 1];
    DistinctInit(s);
    if last == owner {
      at := |s| - 1;
      WithoutAbsent(init, owner);
      assert s[..at] + s[at + 1..] == init;
    } else {
      at := WithoutPosition(init, owner);
      assert init[..at] + init[at + 1..] + [last] == s[..at] + s[at + 1..];
    }
  }

  /** On a list of distinct keyholders, a removal takes out exactly the named key. */
  lemma {:induction false} RemoveTakesOne(s: seq<PublicKey>, owner: PublicKey) returns (at: nat)
    requires XDistinct(s) && owner in s
    ensures at < |s| && s[at] == owner && Without(s, owner) == s[..at] + s[at + 1..]
    ensures XDistinct(Without(s, owner))
  {
    at := WithoutPosition(s, owner);
    var r := s[..at] + s[at + 1..];
    forall i, j | 0 <= i < j < |r| ensures r[i].x != r[j].x {
      assert r[i] == s[if i < at then i else i + 1] && r[j] == s[if j < at then j else j + 1];
    }
  }
}
