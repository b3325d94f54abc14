/**
 Rebuilding a guard's stores from its indexed events: event-rebuild.ts.

 Rows arrive in any order, may repeat and may miss fields. Every method is specified by a fold or a
 replay over the rows; that the result depends only on which rows arrive is a law of those folds.
 */
module EventRebuild {
  import opened Primitives
  import opened Sequences
  import opened ListCommitment
  import opened Guards
  import opened Storage

  const MAX_SAFE_INTEGER: int := 9007199254740991

  /** A numeric field of a payload: absent, a text that is not a number, or a number. */
  datatype NonceField = Missing | NotANumber(text: string) | Known(n: nat)

  datatype Change = Change(configNonce: NonceField, owner: Option<PublicKey>, added: bool, newOwners: Option<Field>)

  /** A payload with its fields decoded; a key is None when it is missing, empty or malformed. */
  datatype Payload =
    | SetupOwnerRow(owner: Option<PublicKey>, index: Option<nat>)
    | ProposalRow(hash: Option<Proposal>, proposer: Option<PublicKey>)
    | ApprovalRow(hash: Option<Proposal>, approver: Option<PublicKey>, count: Option<nat>,
                  approvalRoot: Option<map<Proposal, nat>>, voteNullifierRoot: Option<map<VoteKey, nat>>)
    | ExecutionRow(hash: Option<Proposal>, txType: Option<nat>, root: Option<map<Proposal, nat>>)
    | OwnerChangeRow(change: Change)
    | OtherRow

  datatype Row = Row(payload: Payload, height: Option<int>)

  // ---- owners ----

  datatype SetupSlot = SetupSlot(index: nat, owner: PublicKey)

  function SlotOf(r: Row): Option<SetupSlot> {
    if r.payload.SetupOwnerRow? && r.payload.owner.Some? && r.payload.index.Some?
    then Some(SetupSlot(r.payload.index.value, r.payload.owner.value)) else None
  }

  function UnindexedOf(r: Row): Option<PublicKey> {
    if r.payload.SetupOwnerRow? && r.payload.index.None? then r.payload.owner else None
  }

  function ChangeOf(r: Row): Option<Change> { if r.payload.OwnerChangeRow? then Some(r.payload.change) else None }

  function SlotIndex(s: SetupSlot): int { s.index }

  function ChangeKey(c: Change): (NonceField, Option<PublicKey>, bool) { (c.configNonce, c.owner, c.added) }

  /** A missing nonce reads as zero, an unreadable one as the largest safe integer. */
  function NonceOf(c: Change): int {
    match c.configNonce
    case Missing => 0
    case NotANumber(_) => MAX_SAFE_INTEGER
    case Known(n) => n
  }

  predicate IsInsertion(s: seq<PublicKey>, owner: PublicKey, t: seq<PublicKey>) {
    exists i :: 0 <= i <= |s| && t == InsertAt(s, owner, i)
  }

  /** One owner change: an add lands where the emitted commitment says, or in sorted order if nowhere fits. */
  function Replayed(s: seq<PublicKey>, c: Change, order: Base58): (r: seq<PublicKey>)
  {
    if c.owner.None? then s
    else if !c.added then Without(s, c.owner.value)
    else if c.newOwners.Some? && c.newOwners.value.OwnersHash?
      && IsInsertion(s, c.owner.value, c.newOwners.value.owners)
    then c.newOwners.value.owners
    else SortedInsert(s, c.owner.value, order)
  }

  function ReplayAll(s: seq<PublicKey>, cs: seq<Change>, order: Base58): (r: seq<PublicKey>)
  {
    if cs == [] then s else Replayed(ReplayAll(s, cs[..|cs| - 1], order), cs[|cs| - 1], order)
  }

  function OwnersOfSlots(slots: seq<SetupSlot>): (r: seq<PublicKey>)
    ensures |r| == |slots|
  {
    seq(|slots|, i requires 0 <= i < |slots| => slots[i].owner)
  }

  function AddAllSorted(s: seq<PublicKey>, more: seq<PublicKey>, order: Base58): (r: seq<PublicKey>)
  {
    if more == [] then s else SortedInsert(AddAllSorted(s, more[..|more| - 1], order), more[|more| - 1], order)
  }

  function OrderedSlots(rows: seq<Row>): seq<SetupSlot> {
    SortBy(FirstPer(Collect(rows, SlotOf), SlotIndex), SlotIndex)
  }

  function OrderedChanges(rows: seq<Row>): seq<Change> { SortBy(FirstPer(Collect(rows, ChangeOf), ChangeKey), NonceOf) }

  function SetupOwners(rows: seq<Row>, order: Base58): (s: seq<PublicKey>)
  {
    if OrderedSlots(rows) != [] then OwnersOfSlots(OrderedSlots(rows))
      else AddAllSorted([], Collect(rows, UnindexedOf), order)
  }

  function RebuiltOwners(rows: seq<Row>, initial: Option<seq<PublicKey>>, order: Base58): (s: seq<PublicKey>)
  {
    ReplayAll(if initial.Some? then initial.value else SetupOwners(rows, order), OrderedChanges(rows), order)
  }

  lemma CollectSnoc<T, U>(s: seq<T>, i: nat, f: T -> Option<U>)
    requires i < |s|
    ensures Collect(s[..i + 1], f) == if f(s[i]).Some? then Collect(s[..i], f) + [f(s[i]).value] else Collect(s[..i], f)
  {
    assert s[..i + 1][..i] == s[..i];
  }

  lemma FirstPerSnoc<T, K>(s: seq<T>, x: T, key: T -> K)
    ensures var r := FirstPer(s, key);
            FirstPer(s + [x], key) == if exists i :: 0 <= i < |r| && key(r[i]) == key(x) then r else r + [x]
  {
    assert (s + [x])[..|s|] == s;
  }

  /** The setup slots and the unindexed keys, in delivery order. */
  method ReadSetup(rows: seq<Row>) returns (slots: seq<SetupSlot>, unindexed: seq<PublicKey>)
    ensures slots == FirstPer(Collect(rows, SlotOf), SlotIndex)
    ensures unindexed == Collect(rows, UnindexedOf)
  {
    slots, unindexed := [], [];
    for i := 0 to |rows|
      invariant slots == FirstPer(Collect(rows[..i], SlotOf), SlotIndex)
      invariant unindexed == Collect(rows[..i], UnindexedOf)
    {
      CollectSnoc(rows, i, SlotOf);
      CollectSnoc(rows, i, UnindexedOf);
      match rows[i].payload
      case SetupOwnerRow(Some(owner), None) => unindexed := unindexed + [owner];
      case SetupOwnerRow(Some(owner), Some(index)) =>
        FirstPerSnoc(Collect(rows[..i], SlotOf), SetupSlot(index, owner), SlotIndex);
        if !(exists j :: 0 <= j < |slots| && slots[j].index == index) { slots := slots + [SetupSlot(index, owner)]; }
      case _ =>
    }
    assert rows[..|rows|] == rows;
  }

  method ReadChanges(rows: seq<Row>) returns (changes: seq<Change>)
    ensures changes == FirstPer(Collect(rows, ChangeOf), ChangeKey)
  {
    changes := [];
    for i := 0 to |rows|
      invariant changes == FirstPer(Collect(rows[..i], ChangeOf), ChangeKey)
    {
      CollectSnoc(rows, i, ChangeOf);
      if rows[i].payload.OwnerChangeRow? {
        var c := rows[i].payload.change;
        FirstPerSnoc(Collect(rows[..i], ChangeOf), c, ChangeKey);
        if !(exists j :: 0 <= j < |changes| && ChangeKey(changes[j]) == ChangeKey(c)) { changes := changes + [c]; }
      }
    }
    assert rows[..|rows|] == rows;
  }

  method ReplayChange(store: OwnerStore, c: Change, order: Base58)
    modifies store
    ensures store.owners == Replayed(old(store.owners), c, order)
  {
    if c.owner.None? { return; }
    var owner := c.owner.value;
    if !c.added {
      store.Remove(owner);
      return;
    }
    var position := -1;
    if c.newOwners.Some? { position := store.InsertPositionFor(owner, c.newOwners.value, order); }
    if position < 0 {
      store.AddSorted(owner, order);
    } else {
      store.owners := store.owners[..position] + [owner] + store.owners[position..];
      assert store.owners == InsertAt(old(store.owners), owner, position);
    }
  }

  method RebuildOwners(rows: seq<Row>, initial: Option<OwnerStore>, order: Base58) returns (store: OwnerStore)
    ensures fresh(store)
    ensures store.owners == RebuiltOwners(rows, if initial.Some? then Some(initial.value.owners) else None, order)
  {
    store := new OwnerStore();
    if initial.Some? {
      store.owners := initial.value.owners;
    } else {
      var slots, unindexed := ReadSetup(rows);
      var sorted := SortBy(slots, SlotIndex);
      if sorted != [] {
        store.owners := OwnersOfSlots(sorted);
      } else {
        for i := 0 to |unindexed|
          invariant fresh(store) && store.owners == AddAllSorted([], unindexed[..i], order)
        {
          store.AddSorted(unindexed[i], order);
          assert unindexed[..i + 1][..i] == unindexed[..i];
        }
        assert unindexed[..|unindexed|] == unindexed;
      }
    }
    var changes := ReadChanges(rows);
    var ordered := SortBy(changes, NonceOf);
    ghost var start := store.owners;
    for i := 0 to |ordered|
      invariant fresh(store) && store.owners == ReplayAll(start, ordered[..i], order)
    {
      ReplayChange(store, ordered[i], order);
      assert ordered[..i + 1][..i] == ordered[..i];
    }
    assert ordered[..|ordered|] == ordered;
  }

  // ---- approval and nullifier maps ----

  /** An execution that does not mark the guard's own approval map. */
  predicate ExecutesForParent(txType: Option<nat>) { txType.Some? && RemoteType(txType.value) }

  function ApprovalWrite(r: Row): Option<Write<Proposal>> {
    match r.payload
    case ProposalRow(Some(h), _) => Some(Write(h, PROPOSED_MARKER + 1))
    case ApprovalRow(Some(h), _, count, _, _) => Some(Write(h, if count.Some? then count.value else 0))
    case ExecutionRow(Some(h), t, _) => if ExecutesForParent(t) then None else Some(Write(h, EXECUTED_MARKER))
    case _ => None
  }

  function VoteWrite(r: Row): Option<Write<VoteKey>> {
    match r.payload
    case ProposalRow(Some(h), Some(v)) => Some(Write(VoteKey(h, v), 1))
    case ApprovalRow(Some(h), Some(v), _, _, _) => Some(Write(VoteKey(h, v), 1))
    case _ => None
  }

  function ChildWrite(r: Row): Option<Write<Proposal>> {
    match r.payload
    case ExecutionRow(Some(h), Some(t), _) => if LifecycleType(t) then Some(Write(h, EXECUTED_MARKER)) else None
    case _ => None
  }

  function ApprovalRootOf(r: Row): Option<map<Proposal, nat>> {
    match r.payload
    case ApprovalRow(_, _, _, root, _) => root
    case ExecutionRow(_, t, root) => if ExecutesForParent(t) then None else root
    case _ => None
  }

  function NullifierRootOf(r: Row): Option<map<VoteKey, nat>> {
    match r.payload
    case ApprovalRow(_, _, _, _, root) => root
    case _ => None
  }

  method ApplyMapEvent(r: Row, approvals: ApprovalStore, nullifiers: VoteNullifierStore)
    requires approvals.Valid() && nullifiers.Valid()
    modifies approvals, nullifiers
    ensures approvals.Valid() && approvals.leaves == Raise(old(approvals.leaves), ApprovalWrite(r))
    ensures nullifiers.Valid() && nullifiers.leaves == Raise(old(nullifiers.leaves), VoteWrite(r))
  {
    match r.payload
    case ProposalRow(Some(h), voter) =>
      approvals.RaiseTo(h, PROPOSED_MARKER + 1);
      if voter.Some? { nullifiers.Nullify(h, voter.value); }
    case ApprovalRow(Some(h), voter, count, _, _) =>
      approvals.RaiseTo(h, if count.Some? then count.value else 0);
      if voter.Some? { nullifiers.Nullify(h, voter.value); }
    case ExecutionRow(Some(h), t, _) =>
      if !ExecutesForParent(t) { approvals.RaiseTo(h, EXECUTED_MARKER); }
    case _ =>
  }

  method ApplyMapEvents(rows: seq<Row>, approvals: ApprovalStore, nullifiers: VoteNullifierStore)
    requires approvals.Valid() && nullifiers.Valid()
    modifies approvals, nullifiers
    ensures approvals.Valid() && approvals.leaves == RaiseAll(old(approvals.leaves), rows, ApprovalWrite)
    ensures nullifiers.Valid() && nullifiers.leaves == RaiseAll(old(nullifiers.leaves), rows, VoteWrite)
  {
    for i := 0 to |rows|
      invariant approvals.Valid() && approvals.leaves == RaiseAll(old(approvals.leaves), rows[..i], ApprovalWrite)
      invariant nullifiers.Valid() && nullifiers.leaves == RaiseAll(old(nullifiers.leaves), rows[..i], VoteWrite)
    {
      ApplyMapEvent(rows[i], approvals, nullifiers);
      assert rows[..i + 1][..i] == rows[..i];
    }
    assert rows[..|rows|] == rows;
  }

  function Members<T(==)>(s: seq<T>): (r: set<T>) { set x | x in s }

  /** The roots emitted by the rows of one block, per map. */
  method EmittedRoots(block: seq<Row>) returns (approval: set<map<Proposal, nat>>, nullifier: set<map<VoteKey, nat>>)
    ensures approval == Members(Collect(block, ApprovalRootOf))
    ensures nullifier == Members(Collect(block, NullifierRootOf))
  {
    approval, nullifier := {}, {};
    for i := 0 to |block|
      invariant approval == Members(Collect(block[..i], ApprovalRootOf))
      invariant nullifier == Members(Collect(block[..i], NullifierRootOf))
    {
      CollectSnoc(block, i, ApprovalRootOf);
      CollectSnoc(block, i, NullifierRootOf);
      match block[i].payload
      case ApprovalRow(_, _, _, a, n) =>
        if a.Some? { approval := approval + {a.value}; }
        if n.Some? { nullifier := nullifier + {n.value}; }
      case ExecutionRow(_, t, root) =>
        if !ExecutesForParent(t) && root.Some? { approval := approval + {root.value}; }
      case _ =>
    }
    assert block[..|block|] == block;
  }

  // ---- per-block diagnostics ----

  predicate AllPlaced(rows: seq<Row>) { forall r :: r in rows ==> r.height.Some? }

  function AtOrBelow(height: int): Row -> Option<Row> {
    (r: Row) => if r.height.Some? && r.height.value <= height then Some(r) else None
  }

  /** The rows of blocks up to a height. */
  function UpTo(rows: seq<Row>, height: int): (s: seq<Row>) { Collect(rows, AtOrBelow(height)) }

  lemma UpToMember(rows: seq<Row>, height: int, r: Row)
    ensures r in UpTo(rows, height) <==> r in rows && r.height.Some? && r.height.value <= height
  {
    CollectMember(rows, AtOrBelow(height), r);
  }

  predicate InBlock(rows: seq<Row>, height: int, r: Row) { r in rows && r.height == Some(height) }

  /** A block that emitted roots, none of which is the map after that block. */
  ghost predicate Diverges<K(!new)>(m: map<K, nat>, rows: seq<Row>, write: Row -> Option<Write<K>>,
                                    root: Row -> Option<map<K, nat>>, height: int) {
    && (exists r :: InBlock(rows, height, r) && root(r).Some?)
    && (forall r :: InBlock(rows, height, r) ==> root(r) != Some(RaiseAll(m, UpTo(rows, height), write)))
  }

  /** `first` is the first such block, and there is none to report when some row carries no height. */
  ghost predicate IsFirstDivergence<K(!new)>(m: map<K, nat>, rows: seq<Row>, write: Row -> Option<Write<K>>,
                                             root: Row -> Option<map<K, nat>>, first: Option<int>) {
    if !AllPlaced(rows) then first.None?
    else if first.Some? then Diverges(m, rows, write, root, first.value) && forall h ::
      h < first.value ==> !Diverges(m, rows, write, root, h)
    else forall h :: !Diverges(m, rows, write, root, h)
  }

  datatype Divergence = Divergence(approval: Option<int>, nullifier: Option<int>)

  datatype RebuiltStores = RebuiltStores(ownerStore: OwnerStore, approvalStore: ApprovalStore,
                                         nullifierStore: VoteNullifierStore, divergence: Divergence)

  /** Rows by block, with the block heights in order of first appearance. */
  method GroupByBlock(rows: seq<Row>) returns (heights: seq<int>, blocks: map<int, seq<Row>>, unplaced: seq<Row>)
    ensures forall r :: r in unplaced <==> r in rows && r.height.None?
    ensures forall h :: h in heights <==> h in blocks
    ensures forall i, j :: 0 <= i < j < |heights| ==> heights[i] != heights[j]
    ensures forall r :: r in rows && r.height.Some? ==> r.height.value in heights
    ensures forall h, r :: h in blocks ==> (r in blocks[h] <==> InBlock(rows, h, r))
  {
    heights, blocks, unplaced := [], map[], [];
    for i := 0 to |rows|
      invariant forall r :: r in unplaced <==> r in rows[..i] && r.height.None?
      invariant forall h :: h in heights <==> h in blocks
      invariant forall i, j :: 0 <= i < j < |heights| ==> heights[i] != heights[j]
      invariant forall r :: r in rows[..i] && r.height.Some? ==> r.height.value in heights
      invariant forall h, r :: h in blocks ==> (r in blocks[h] <==> InBlock(rows[..i], h, r))
    {
      var r := rows[i];
      assert rows[..i + 1] == rows[..i] + [r];
      if r.height.None? {
        unplaced := unplaced + [r];
      } else {
        var h := r.height.value;
        var list := if h in blocks then blocks[h] else [];
        if h !in blocks { heights := heights + [h]; }
        blocks := blocks[h := list + [r]];
      }
    }
    assert rows[..|rows|] == rows;
  }

  /** What applying the blocks up to `height` amounts to. */
  lemma AppliedUpTo<K(!new)>(m: map<K, nat>, rows: seq<Row>, applied: seq<Row>, height: int,
                             write: Row -> Option<Write<K>>)
    requires Canonical(m) && forall r :: r in applied <==> r in rows && r.height.Some? && r.height.value <= height
    ensures RaiseAll(m, applied, write) == RaiseAll(m, UpTo(rows, height), write)
  {
    forall r ensures r in applied <==> r in UpTo(rows, height) { UpToMember(rows, height, r); }
    RaiseAllSame(m, applied, UpTo(rows, height), write);
  }

  /** The check of one block against one map, as a statement about all rows. */
  lemma BlockDiverges<K(!new)>(m: map<K, nat>, rows: seq<Row>, block: seq<Row>, height: int,
                               write: Row -> Option<Write<K>>,
                               root: Row -> Option<map<K, nat>>, roots: set<map<K, nat>>, current: map<K, nat>)
    requires forall r :: r in block <==> InBlock(rows, height, r)
    requires roots == Members(Collect(block, root))
    requires current == RaiseAll(m, UpTo(rows, height), write)
    ensures (roots != {} && current !in roots) <==> Diverges(m, rows, write, root, height)
  {
    forall x ensures x in roots <==> exists r :: InBlock(rows, height, r) && root(r) == Some(x) {
      CollectMember(block, root, x);
      if r :| r in block && root(r) == Some(x) { assert InBlock(rows, height, r); }
      if r :| InBlock(rows, height, r) && root(r) == Some(x) { assert r in block; }
    }
    if roots != {} {
      var x :| x in roots;
      var r :| InBlock(rows, height, r) && root(r) == Some(x);
    }
    if r :| InBlock(rows, height, r) && root(r).Some? { assert root(r).value in roots; }
  }

  /** Extends the verdict over the blocks before `height` by the verdict on `height`. */
  ghost predicate DivergenceSoFar<K(!new)>(m: map<K, nat>, rows: seq<Row>, write: Row -> Option<Write<K>>,
                                           root: Row -> Option<map<K, nat>>,
                                     done: seq<int>, first: Option<int>) {
    if first.Some?
    then first.value in done && Diverges(m, rows, write, root, first.value)
         && forall h :: h in done && h < first.value ==> !Diverges(m, rows, write, root, h)
    else forall h :: h in done ==> !Diverges(m, rows, write, root, h)
  }

  lemma DivergenceDecided<K(!new)>(m: map<K, nat>, rows: seq<Row>, write: Row -> Option<Write<K>>,
                                   root: Row -> Option<map<K, nat>>,
                                   heights: seq<int>, first: Option<int>)
    requires AllPlaced(rows) && DivergenceSoFar(m, rows, write, root, heights, first)
    requires forall r :: r in rows && r.height.Some? ==> r.height.value in heights
    ensures IsFirstDivergence(m, rows, write, root, first)
  {
    forall h | Diverges(m, rows, write, root, h) ensures h in heights {
      var r :| InBlock(rows, h, r) && root(r).Some?;
    }
  }

  /**
   Rebuilds the stores, or applies rows to given stores. The maps are raised in place, block by
   block; each block's emitted roots are compared with the map after the block.
   */
  method RebuildStores(rows: seq<Row>, initial: Option<RebuiltStores>, order: Base58) returns (r: RebuiltStores)
    requires initial.Some? ==> initial.value.approvalStore.Valid() && initial.value.nullifierStore.Valid()
    modifies if initial.Some? then {initial.value.approvalStore, initial.value.nullifierStore} else {}
    ensures if initial.Some?
              then r.approvalStore == initial.value.approvalStore && r.nullifierStore == initial.value.nullifierStore
            else fresh(r.approvalStore) && fresh(r.nullifierStore)
    ensures fresh(r.ownerStore) && r.approvalStore.Valid() && r.nullifierStore.Valid()
    ensures r.ownerStore.owners
            == RebuiltOwners(rows, if initial.Some? then Some(old(initial.value.ownerStore.owners)) else None, order)
    ensures var m := if initial.Some? then old(initial.value.approvalStore.leaves) else map[];
            && r.approvalStore.leaves == RaiseAll(m, rows, ApprovalWrite)
            && IsFirstDivergence(m, rows, ApprovalWrite, ApprovalRootOf, r.divergence.approval)
    ensures var m := if initial.Some? then old(initial.value.nullifierStore.leaves) else map[];
            && r.nullifierStore.leaves == RaiseAll(m, rows, VoteWrite)
            && IsFirstDivergence(m, rows, VoteWrite, NullifierRootOf, r.divergence.nullifier)
  {
    var ownerStore := RebuildOwners(rows, if initial.Some? then Some(initial.value.ownerStore) else None, order);
    var approvals, nullifiers;
    if initial.Some? {
      approvals, nullifiers := initial.value.approvalStore, initial.value.nullifierStore;
    } else {
      approvals := new ApprovalStore();
      nullifiers := new VoteNullifierStore();
    }
    var divergence := FoldBlocks(rows, approvals, nullifiers);
    r := RebuiltStores(ownerStore, approvals, nullifiers, divergence);
  }

  function Itself(h: int): int { h }

  lemma SortedHeights(heights: seq<int>)
    requires forall i, j :: 0 <= i < j < |heights| ==> heights[i] != heights[j]
    ensures StrictlyAscending(SortBy(heights, Itself), Itself) && SameElements(SortBy(heights, Itself), heights)
  {
    forall x | x in heights ensures multiset(heights)[x] <= 1 { OnceCounted(heights, Itself, x); }
    SortedStrictly(heights, Itself);
    SortBySorts(heights, Itself);
    PermutationSame(SortBy(heights, Itself), heights);
  }

  lemma PrefixIsBelow(sorted: seq<int>, i: nat, h: int)
    requires StrictlyAscending(sorted, Itself) && i < |sorted|
    ensures h in sorted[..i + 1] <==> h in sorted && h <= sorted[i]
  {
    if h in sorted {
      var j :| 0 <= j < |sorted| && sorted[j] == h;
      assert j <= i ==> sorted[..i + 1][j] == h;
      assert i < j ==> Itself(sorted[i]) < Itself(sorted[j]);
      assert j < i ==> Itself(sorted[j]) < Itself(sorted[i]);
    }
    if h in sorted[..i + 1] {
      var j :| 0 <= j <= i && sorted[j] == h;
      assert j < i ==> Itself(sorted[j]) < Itself(sorted[i]);
    }
  }

  /** Compares the maps after a block with the roots the block emitted, remembering the first mismatch. */
  method CheckBlock(block: seq<Row>, height: int, approvals: ApprovalStore, nullifiers: VoteNullifierStore,
                    before: Divergence,
                    ghost rows: seq<Row>, ghost m: map<Proposal, nat>, ghost n: map<VoteKey, nat>, ghost done: seq<int>)
                    returns (d: Divergence)
    requires forall r :: r in block <==> InBlock(rows, height, r)
    requires approvals.leaves == RaiseAll(m, UpTo(rows, height), ApprovalWrite)
    requires nullifiers.leaves == RaiseAll(n, UpTo(rows, height), VoteWrite)
    requires forall h :: h in done ==> h < height
    requires DivergenceSoFar(m, rows, ApprovalWrite, ApprovalRootOf, done, before.approval)
    requires DivergenceSoFar(n, rows, VoteWrite, NullifierRootOf, done, before.nullifier)
    ensures DivergenceSoFar(m, rows, ApprovalWrite, ApprovalRootOf, done + [height], d.approval)
    ensures DivergenceSoFar(n, rows, VoteWrite, NullifierRootOf, done + [height], d.nullifier)
  {
    d := before;
    var approval, nullifier := EmittedRoots(block);
    BlockDiverges(m, rows, block, height, ApprovalWrite, ApprovalRootOf, approval, approvals.leaves);
    BlockDiverges(n, rows, block, height, VoteWrite, NullifierRootOf, nullifier, nullifiers.leaves);
    if d.approval.None? && approval != {} && approvals.leaves !in approval { d := d.(approval := Some(height)); }
    if d.nullifier.None? && nullifier != {} && nullifiers.leaves !in nullifier { d := d.(nullifier := Some(height)); }
  }

  /** The rows without a height and those of the given blocks. */
  ghost predicate AppliedBlocks(rows: seq<Row>, applied: seq<Row>, done: seq<int>) {
    forall r :: r in applied <==> r in rows && (r.height.None? || r.height.value in done)
  }

  lemma AppliedNext(rows: seq<Row>, applied: seq<Row>, done: seq<int>, block: seq<Row>, height: int)
    requires AppliedBlocks(rows, applied, done) && forall r :: r in block <==> InBlock(rows, height, r)
    ensures AppliedBlocks(rows, applied + block, done + [height])
  {
  }

  lemma AppliedAll(rows: seq<Row>, applied: seq<Row>, heights: seq<int>)
    requires AppliedBlocks(rows, applied, heights) && forall r ::
               r in rows && r.height.Some? ==> r.height.value in heights
    ensures SameElements(applied, rows)
  {
  }

  lemma AppliedIsAll(m: map<Proposal, nat>, n: map<VoteKey, nat>, rows: seq<Row>, applied: seq<Row>)
    requires Canonical(m) && Canonical(n) && SameElements(applied, rows)
    ensures RaiseAll(m, applied, ApprovalWrite) == RaiseAll(m, rows, ApprovalWrite)
    ensures RaiseAll(n, applied, VoteWrite) == RaiseAll(n, rows, VoteWrite)
  {
    RaiseAllSame(m, applied, rows, ApprovalWrite);
    RaiseAllSame(n, applied, rows, VoteWrite);
  }

  lemma AppliedBelow(rows: seq<Row>, applied: seq<Row>, sorted: seq<int>, i: nat)
    requires StrictlyAscending(sorted, Itself) && i < |sorted| && AllPlaced(rows)
    requires AppliedBlocks(rows, applied, sorted[..i + 1]) && forall r ::
               r in rows && r.height.Some? ==> r.height.value in sorted
    ensures forall r :: r in applied <==> r in rows && r.height.Some? && r.height.value <= sorted[i]
  {
    forall r ensures r in applied <==> r in rows && r.height.Some? && r.height.value <= sorted[i] {
      if r.height.Some? { PrefixIsBelow(sorted, i, r.height.value); }
    }
  }

  /** The stores hold the initial maps raised by the applied rows. */
  ghost predicate Folded(approvals: ApprovalStore, nullifiers: VoteNullifierStore, m: map<Proposal, nat>,
                         n: map<VoteKey, nat>, applied: seq<Row>)
    reads approvals, nullifiers
  {
    && approvals.Valid() && approvals.leaves == RaiseAll(m, applied, ApprovalWrite)
    && nullifiers.Valid() && nullifiers.leaves == RaiseAll(n, applied, VoteWrite)
  }

  method FoldBlock(block: seq<Row>, approvals: ApprovalStore, nullifiers: VoteNullifierStore,
                   ghost m: map<Proposal, nat>, ghost n: map<VoteKey, nat>, ghost applied: seq<Row>)
    requires Folded(approvals, nullifiers, m, n, applied)
    modifies approvals, nullifiers
    ensures Folded(approvals, nullifiers, m, n, applied + block)
  {
    ApplyMapEvents(block, approvals, nullifiers);
    RaiseAllConcat(m, applied, block, ApprovalWrite);
    RaiseAllConcat(n, applied, block, VoteWrite);
  }

  /** The verdicts over the blocks folded so far; none while some row has no height. */
  ghost predicate DecidedSoFar(rows: seq<Row>, m: map<Proposal, nat>, n: map<VoteKey, nat>, done: seq<int>,
                               d: Divergence) {
    if AllPlaced(rows)
    then DivergenceSoFar(m, rows, ApprovalWrite, ApprovalRootOf, done, d.approval)
      && DivergenceSoFar(n, rows, VoteWrite, NullifierRootOf, done, d.nullifier)
    else d == Divergence(None, None)
  }

  /** Block heights in ascending order, each row's height among them. */
  ghost predicate HeightsOf(rows: seq<Row>, sorted: seq<int>) {
    StrictlyAscending(sorted, Itself) && forall r :: r in rows && r.height.Some? ==> r.height.value in sorted
  }

  /** Folds the `i`-th block and, if every row is placed, checks it. */
  method NextBlock(block: seq<Row>, sorted: seq<int>, i: nat, checkpointsUsable: bool, approvals: ApprovalStore,
                   nullifiers: VoteNullifierStore, before: Divergence,
                   ghost rows: seq<Row>, ghost m: map<Proposal, nat>, ghost n: map<VoteKey, nat>,
                   ghost applied: seq<Row>) returns (d: Divergence)
    requires HeightsOf(rows, sorted) && i < |sorted| && (checkpointsUsable <==> AllPlaced(rows)) && Canonical(m)
             && Canonical(n)
    requires forall r :: r in block <==> InBlock(rows, sorted[i], r)
    requires Folded(approvals, nullifiers, m, n, applied) && AppliedBlocks(rows, applied, sorted[..i])
             && DecidedSoFar(rows, m, n, sorted[..i], before)
    modifies approvals, nullifiers
    ensures Folded(approvals, nullifiers, m, n, applied + block)
            && AppliedBlocks(rows, applied + block, sorted[..i + 1]) && DecidedSoFar(rows, m, n, sorted[..i + 1], d)
  {
    d := before;
    assert sorted[..i + 1] == sorted[..i] + [sorted[i]];
    FoldBlock(block, approvals, nullifiers, m, n, applied);
    AppliedNext(rows, applied, sorted[..i], block, sorted[i]);
    if checkpointsUsable {
      AppliedBelow(rows, applied + block, sorted, i);
      AppliedUpTo(m, rows, applied + block, sorted[i], ApprovalWrite);
      AppliedUpTo(n, rows, applied + block, sorted[i], VoteWrite);
      d := CheckBlock(block, sorted[i], approvals, nullifiers, d, rows, m, n, sorted[..i]);
    }
  }

  lemma AllDecided(rows: seq<Row>, m: map<Proposal, nat>, n: map<VoteKey, nat>, sorted: seq<int>, d: Divergence)
    requires HeightsOf(rows, sorted) && DecidedSoFar(rows, m, n, sorted, d)
    ensures IsFirstDivergence(m, rows, ApprovalWrite, ApprovalRootOf, d.approval)
            && IsFirstDivergence(n, rows, VoteWrite, NullifierRootOf, d.nullifier)
  {
    if AllPlaced(rows) {
      DivergenceDecided(m, rows, ApprovalWrite, ApprovalRootOf, sorted, d.approval);
      DivergenceDecided(n, rows, VoteWrite, NullifierRootOf, sorted, d.nullifier);
    }
  }

  method FoldBlocks(rows: seq<Row>, approvals: ApprovalStore, nullifiers: VoteNullifierStore) returns (d: Divergence)
    requires approvals.Valid() && nullifiers.Valid()
    modifies approvals, nullifiers
    ensures approvals.Valid() && approvals.leaves == RaiseAll(old(approvals.leaves), rows, ApprovalWrite)
    ensures nullifiers.Valid() && nullifiers.leaves == RaiseAll(old(nullifiers.leaves), rows, VoteWrite)
    ensures IsFirstDivergence(old(approvals.leaves), rows, ApprovalWrite, ApprovalRootOf, d.approval)
    ensures IsFirstDivergence(old(nullifiers.leaves), rows, VoteWrite, NullifierRootOf, d.nullifier)
  {
    ghost var m, n := approvals.leaves, nullifiers.leaves;
    var heights, blocks, unplaced := GroupByBlock(rows);
    ApplyMapEvents(unplaced, approvals, nullifiers);
    var checkpointsUsable := unplaced == [];
    assert checkpointsUsable <==> AllPlaced(rows) by { if unplaced != [] { assert unplaced[0] in unplaced; } }
    ghost var applied := unplaced;
    d := Divergence(None, None);
    var sorted := SortBy(heights, Itself);
    SortedHeights(heights);
    assert HeightsOf(rows, sorted);
    assert forall i :: 0 <= i < |sorted| ==> sorted[i] in heights;
    for i := 0 to |sorted|
      invariant Folded(approvals, nullifiers, m, n, applied)
      invariant AppliedBlocks(rows, applied, sorted[..i])
      invariant DecidedSoFar(rows, m, n, sorted[..i], d)
    {
      var block := blocks[sorted[i]];
      d := NextBlock(block, sorted, i, checkpointsUsable, approvals, nullifiers, d, rows, m, n, applied);
      applied := applied + block;
    }
    assert sorted[..|sorted|] == sorted;
    AppliedAll(rows, applied, sorted);
    AppliedIsAll(m, n, rows, applied);
    AllDecided(rows, m, n, sorted, d);
  }

  // ---- child executions ----

  method RebuildChildExecutionMap(rows: seq<Row>) returns (m: map<Proposal, nat>)
    ensures m == RaiseAll(map[], rows, ChildWrite)
  {
    m := map[];
    for i := 0 to |rows|
      invariant m == RaiseAll(map[], rows[..i], ChildWrite)
      invariant forall h :: h in m ==> m[h] == EXECUTED_MARKER
    {
      assert rows[..i + 1][..i] == rows[..i];
      ghost var before := m;
      match rows[i].payload
      case ExecutionRow(Some(h), Some(t), _) =>
        if LifecycleType(t) { m := Put(m, h, EXECUTED_MARKER); }
        assert m == Raise(before, ChildWrite(rows[i]));
      case _ =>
    }
    assert rows[..|rows|] == rows;
  }

  // ---- verification ----

  /** On-chain values to compare with; a value may be unknown. */
  datatype ChainState = ChainState(ownersCommitment: Option<Field>, approvalRoot: Option<map<Proposal, nat>>,
                                   voteNullifierRoot: Option<map<VoteKey, nat>>)

  predicate MatchesChain(owners: seq<PublicKey>, approvals: map<Proposal, nat>, votes: map<VoteKey, nat>,
                         chain: ChainState) {
    && (chain.ownersCommitment.Some? ==> chain.ownersCommitment.value == OwnersHash(owners))
    && (chain.approvalRoot.Some? ==> chain.approvalRoot.value == approvals)
    && (chain.voteNullifierRoot.Some? ==> chain.voteNullifierRoot.value == votes)
  }

  method AssertStoresMatchChain(stores: RebuiltStores, chain: ChainState) returns (ok: bool)
    ensures ok <==> MatchesChain(stores.ownerStore.owners, stores.approvalStore.leaves, stores.nullifierStore.leaves,
                                 chain)
  {
    if chain.ownersCommitment.Some? {
      var commitment := stores.ownerStore.GetCommitment();
      if chain.ownersCommitment.value != commitment { return false; }
    }
    if chain.approvalRoot.Some? && chain.approvalRoot.value != stores.approvalStore.leaves { return false; }
    if chain.voteNullifierRoot.Some? && chain.voteNullifierRoot.value != stores.nullifierStore.leaves { return false; }
    return true;
  }
}
