/**
 Persisted snapshots and the incremental cache of store-checkpoint.ts.

 Whatever the persisted snapshot, the cached entry or the event source holds, a load either fails or
 returns stores equal to the chain state read in that load. Answers of the source are parameters.
 */
module StoreCheckpoint {
  import opened Primitives
  import opened Sequences
  import opened Guards
  import opened Storage
  import opened EventRebuild

  const STORE_CHECKPOINT_VERSION: nat := 1
  const CACHE_SIZE: nat := 4

  datatype Network = Mainnet | Testnet
  datatype Scope = Scope(network: Network, address: PublicKey)

  /** What the stores hold, apart from diagnostics. */
  datatype Contents = Contents(owners: seq<PublicKey>, approvals: map<Proposal, nat>, votes: map<VoteKey, nat>)

  function Snapshot(r: RebuiltStores): Contents
    reads r.ownerStore, r.approvalStore, r.nullifierStore
  {
    Contents(r.ownerStore.owners, r.approvalStore.leaves, r.nullifierStore.leaves)
  }

  ghost predicate StoresValid(r: RebuiltStores)
    reads r.approvalStore, r.nullifierStore
  {
    r.approvalStore.Valid() && r.nullifierStore.Valid()
  }

  function Objects(r: RebuiltStores): set<object> { {r.ownerStore, r.approvalStore, r.nullifierStore} }

  predicate Complete(chain: ChainState) {
    chain.ownersCommitment.Some? && chain.approvalRoot.Some? && chain.voteNullifierRoot.Some?
  }

  predicate Matches(c: Contents, chain: ChainState) { MatchesChain(c.owners, c.approvals, c.votes, chain) }

  /** The chain state that exactly these contents match. */
  function RootsOf(c: Contents): ChainState { ChainState(Some(OwnersHash(c.owners)), Some(c.approvals), Some(c.votes)) }

  // ---- snapshots ----

  /** A persisted snapshot; a serialized part is None when it does not parse. */
  datatype Checkpoint = Checkpoint(version: nat, scope: Scope, throughBlock: Option<int>,
                                   owners: Option<seq<PublicKey>>,
                                   approvals: Option<seq<Entry>>, nullifiers: Option<seq<VoteKey>>, roots: ChainState)

  function Restored(cp: Checkpoint): (c: Contents)
    requires cp.owners.Some? && cp.approvals.Some? && cp.nullifiers.Some?
  {
    Contents(cp.owners.value, Written(cp.approvals.value), Nullified(set k | k in cp.nullifiers.value))
  }

  /** When a snapshot is accepted: well-formed, for this vault, and consistent with its own roots. */
  predicate Restorable(cp: Checkpoint, scope: Scope) {
    && cp.version == STORE_CHECKPOINT_VERSION && cp.scope == scope
    && (cp.throughBlock.Some? ==> cp.throughBlock.value >= 0)
    && cp.owners.Some? && |cp.owners.value| <= MAX_OWNERS && cp.approvals.Some? && cp.nullifiers.Some?
    && (forall i, j :: 0 <= i < j < |cp.nullifiers.value| ==> cp.nullifiers.value[i] != cp.nullifiers.value[j])
    && Complete(cp.roots)
    && Matches(Restored(cp), cp.roots)
  }

  /** A snapshot of stores restores to the same contents, and is accepted whenever the list fits the circuit. */
  method CheckpointStores(stores: RebuiltStores, scope: Scope, throughBlock: Option<int>) returns (cp: Checkpoint)
    requires StoresValid(stores)
    ensures cp.owners.Some? && cp.approvals.Some? && cp.nullifiers.Some?
    ensures cp.version == 1 && Restored(cp) == Snapshot(stores) && cp.throughBlock == throughBlock && cp.scope == scope
            && cp.roots == RootsOf(Snapshot(stores))
    ensures |stores.ownerStore.owners| <= MAX_OWNERS && (throughBlock.Some? ==> throughBlock.value >= 0) ==>
              Restorable(cp, scope)
  {
    var entries := stores.approvalStore.Serialize();
    var keys := stores.nullifierStore.Serialize();
    var commitment := stores.ownerStore.GetCommitment();
    assert (set k | k in keys) == stores.nullifierStore.keys;
    cp := Checkpoint(STORE_CHECKPOINT_VERSION, scope, throughBlock, Some(stores.ownerStore.owners), Some(entries),
                     Some(keys),
                     ChainState(Some(commitment), Some(stores.approvalStore.leaves),
                                Some(stores.nullifierStore.leaves)));
  }

  method RestoreStoreCheckpoint(cp: Checkpoint, scope: Scope) returns (r: Option<RebuiltStores>)
    ensures r.Some? <==> Restorable(cp, scope)
    ensures r.Some? ==>
              && cp.version == 1 && cp.scope == scope && |r.value.ownerStore.owners| <= 20
              && (cp.throughBlock.Some? ==> cp.throughBlock.value >= 0)
              && cp.roots == RootsOf(Snapshot(r.value))
    ensures r.Some? ==> fresh(Objects(r.value)) && StoresValid(r.value) && Snapshot(r.value) == Restored(cp)
  {
    if cp.version != STORE_CHECKPOINT_VERSION || cp.scope != scope
      || (cp.throughBlock.Some? && cp.throughBlock.value < 0)
       || cp.owners.None? || cp.approvals.None? || cp.nullifiers.None? { return None; }
    if |cp.owners.value| > MAX_OWNERS || !Complete(cp.roots) { return None; }
    var ownerStore := new OwnerStore();
    ownerStore.owners := cp.owners.value;
    var approvalStore := ApprovalStore.Deserialize(cp.approvals.value);
    var nullifiers := VoteNullifierStore.Deserialize(cp.nullifiers.value);
    if nullifiers.None? { return None; }
    var stores := RebuiltStores(ownerStore, approvalStore, nullifiers.value, Divergence(None, None));
    var ok := AssertStoresMatchChain(stores, cp.roots);
    if !ok { return None; }
    return Some(stores);
  }

  method CloneStores(stores: RebuiltStores) returns (r: RebuiltStores)
    requires StoresValid(stores)
    ensures fresh(Objects(r)) && StoresValid(r) && Snapshot(r) == Snapshot(stores) && r.divergence == stores.divergence
  {
    var ownerStore := new OwnerStore();
    ownerStore.owners := stores.ownerStore.owners;
    var approvalStore := stores.approvalStore.Clone();
    var nullifierStore := stores.nullifierStore.Clone();
    r := RebuiltStores(ownerStore, approvalStore, nullifierStore, stores.divergence);
  }

  // ---- one load, as a function of what it is told ----

  /** Where a load starts: contents and the last block they include, if known. */
  datatype Basis = Basis(contents: Contents, throughBlock: Option<int>)

  /** The answers of one load: None is a failed call. */
  datatype Source = Source(checkpoint: Option<Checkpoint>, since: Option<seq<Row>>, chainSince: Option<ChainState>,
                           all: Option<seq<Row>>, chainAll: Option<ChainState>)

  function RebuiltContents(rows: seq<Row>, initial: Option<Contents>, order: Base58): (c: Contents)
  {
    match initial
    case None => Contents(RebuiltOwners(rows, None, order), RaiseAll(map[], rows, ApprovalWrite),
                            RaiseAll(map[], rows, VoteWrite))
    case Some(i) => Contents(RebuiltOwners(rows, Some(i.owners), order), RaiseAll(i.approvals, rows, ApprovalWrite),
                               RaiseAll(i.votes, rows, VoteWrite))
  }

  predicate FromBlock(rows: seq<Row>, from: int) { forall r :: r in rows ==> r.height.Some? && r.height.value >= from }

  /** An attempt succeeds when every answer arrives and the rebuilt stores match the chain read with them. */
  predicate Succeeds(initial: Option<Contents>, from: int, rows: Option<seq<Row>>, chain: Option<ChainState>,
                     order: Base58) {
    && rows.Some? && (initial.Some? ==> FromBlock(rows.value, from))
    && chain.Some? && Complete(chain.value)
    && Matches(RebuiltContents(rows.value, initial, order), chain.value)
  }

  /** The block an attempt starts behind: a full attempt starts before every block. */
  function Behind(basis: Option<Basis>): (through: int) {
    if Incremental(basis) then basis.value.throughBlock.value else -1
  }

  /** The contents an attempt starts from. */
  function Initial(basis: Option<Basis>): (c: Option<Contents>) {
    if Incremental(basis) then Some(basis.value.contents) else None
  }

  /** What an attempt from a basis with a known block, or from nothing, verifies and records. */
  function AttemptResult(basis: Option<Basis>, rows: Option<seq<Row>>, chain: Option<ChainState>,
                         order: Base58): (b: Option<Basis>)
    requires basis.Some? ==> Incremental(basis)
  {
    if Succeeds(Initial(basis), Behind(basis) + 1, rows, chain, order)
    then Some(Basis(RebuiltContents(rows.value, Initial(basis), order),
                    Through(rows.value, if basis.Some? then basis.value.throughBlock else None)))
    else None
  }

  predicate Incremental(basis: Option<Basis>) { basis.Some? && basis.value.throughBlock.Some? }

  /** The incremental attempt, made only from a basis with a known block. */
  function SinceResult(basis: Option<Basis>, source: Source, order: Base58): (b: Option<Basis>)
  {
    if Incremental(basis) then AttemptResult(basis, source.since, source.chainSince, order) else None
  }

  /** What a load returns and records, or None when it throws. */
  function Outcome(basis: Option<Basis>, source: Source, order: Base58): (b: Option<Basis>)
  {
    if SinceResult(basis, source, order).Some? then SinceResult(basis, source, order)
    else AttemptResult(None, source.all, source.chainAll, order)
  }

  /** Whatever the basis and the answers, a returned result is exactly a chain state read in that load. */
  lemma OutcomeIsOnChain(basis: Option<Basis>, source: Source, order: Base58)
    requires Outcome(basis, source, order).Some?
    ensures var roots := RootsOf(Outcome(basis, source, order).value.contents);
            source.chainSince == Some(roots) || source.chainAll == Some(roots)
  {
  }

  /** A successful increment is the result, and the answers of a full attempt play no part in it. */
  lemma IncrementFirst(basis: Option<Basis>, source: Source, other: Source, order: Base58)
    requires SinceResult(basis, source, order).Some?
    requires other.since == source.since && other.chainSince == source.chainSince
    ensures Outcome(basis, other, order) == SinceResult(basis, source, order)
  {
  }

  /** Without a basis of a known block the load depends on the full answers alone. */
  lemma FullOtherwise(basis: Option<Basis>, source: Source, other: Source, order: Base58)
    requires !Incremental(basis) && other.all == source.all && other.chainAll == source.chainAll
    ensures Outcome(basis, other, order) == Outcome(None, source, order)
  {
  }

  // ---- the cache ----

  datatype Cached = Cached(key: string, stores: RebuiltStores, throughBlock: Option<int>)

  predicate KeysDistinct(entries: seq<Cached>) {
    forall i, j :: 0 <= i < j < |entries| ==> entries[i].key != entries[j].key
  }

  function Dropped(entries: seq<Cached>, key: string): (r: seq<Cached>)
  {
    if entries == [] then []
    else if entries[|entries| - 1].key == key then Dropped(entries[..|entries| - 1], key)
    else Dropped(entries[..|entries| - 1], key) + [entries[|entries| - 1]]
  }

  function Newest(entries: seq<Cached>): (r: seq<Cached>)
  {
    if |entries| > CACHE_SIZE then entries[|entries| - CACHE_SIZE..] else entries
  }

  lemma {:induction false} DroppedEntries(entries: seq<Cached>, key: string)
    ensures var r := Dropped(entries, key); forall i :: 0 <= i < |r| ==> r[i].key != key && r[i] in entries
    ensures KeysDistinct(entries) ==> KeysDistinct(Dropped(entries, key))
    ensures |Dropped(entries, key)| <= |entries|
  {
    if entries != [] {
      var init, last := entries[..|entries| - 1], entries[|entries| - 1];
      assert entries == init + [last];
      DroppedEntries(init, key);
      var r := Dropped(init, key);
      if KeysDistinct(entries) {
        forall i | 0 <= i < |r| ensures r[i].key != last.key {
          var j :| 0 <= j < |init| && init[j] == r[i];
          assert entries[j].key != entries[|entries| - 1].key;
        }
      }
    }
  }

  /** Storing an entry makes it the newest and keeps the cache bounded, with one entry per key. */
  lemma {:induction false} NewestEntries(entries: seq<Cached>, entry: Cached)
    requires KeysDistinct(entries)
    ensures var r := Newest(Dropped(entries, entry.key) + [entry]);
            && KeysDistinct(r) && 0 < |r| <= 4 && r[|r| - 1] == entry
            && forall i :: 0 <= i < |r| ==> r[i] in entries || r[i] == entry
  {
    DroppedEntries(entries, entry.key);
    var d := Dropped(entries, entry.key);
    assert KeysDistinct(d + [entry]);
  }

  class IncrementalStoreCache {
    const order: Base58
    /** In insertion order; the oldest entry is evicted first. */
    var cache: seq<Cached>

    ghost function Repr(): set<object>
      reads this
    {
      (set e <- cache :: e.stores.ownerStore as object) + (set e <- cache :: e.stores.approvalStore as object)
      + (set e <- cache :: e.stores.nullifierStore as object)
    }

    ghost predicate Valid()
      reads this, Repr()
    {
      && |cache| <= CACHE_SIZE
      && KeysDistinct(cache)
      && (forall i :: 0 <= i < |cache| ==> StoresValid(cache[i].stores))
    }

    constructor (order: Base58)
      ensures Valid() && cache == [] && this.order == order
    {
      this.order := order;
      cache := [];
    }

    /** The position of a key, or the length. */
    function IndexOf(key: string): (i: nat)
      reads this
      ensures i <= |cache| && (i < |cache| ==> cache[i].key == key)
      ensures forall j :: 0 <= j < i ==> cache[j].key != key
    {
      Find(cache, key)
    }

    static function Find(entries: seq<Cached>, key: string): (i: nat)
      ensures i <= |entries| && (i < |entries| ==> entries[i].key == key)
      ensures forall j :: 0 <= j < i ==> entries[j].key != key
    {
      if entries == [] || entries[0].key == key then 0 else 1 + Find(entries[1..], key)
    }

    /** What a load of this key starts from: the cached entry, else an acceptable snapshot. */
    ghost function BasisOf(key: string, scope: Scope, cp: Option<Checkpoint>): (s: Option<Basis>)
      reads this, Repr()
    {
      var i := IndexOf(key);
      if i < |cache| then Some(Basis(Snapshot(cache[i].stores), cache[i].throughBlock))
      else if cp.Some? && Restorable(cp.value, scope) then Some(Basis(Restored(cp.value), cp.value.throughBlock))
      else None
    }

    method Delete(key: string)
      requires Valid()
      modifies this
      ensures cache == Dropped(old(cache), key) && Valid()
      ensures forall i :: 0 <= i < |cache| ==> cache[i].key != key
    {
      DroppedEntries(cache, key);
      var kept: seq<Cached> := [];
      var entries := cache;
      for i := 0 to |entries|
        invariant kept == Dropped(entries[..i], key)
      {
        assert entries[..i + 1][..i] == entries[..i];
        if entries[i].key != key { kept := kept + [entries[i]]; }
      }
      assert entries[..|entries|] == entries;
      cache := kept;
    }

    /** Drops the oldest entries until the bound holds. */
    method Evict()
      modifies this
      ensures cache == Newest(old(cache))
    {
      ghost var all := cache;
      while |cache| > CACHE_SIZE
        invariant Newest(cache) == Newest(all)
      {
        assert cache[1..][|cache| - 1 - CACHE_SIZE..] == cache[|cache| - CACHE_SIZE..];
        cache := cache[1..];
      }
    }

    method Replace(entry: Cached)
      requires Valid()
      modifies this
      ensures cache == Newest(Dropped(old(cache), entry.key) + [entry])
    {
      Delete(entry.key);
      cache := cache + [entry];
      Evict();
    }

    /** Replaces the entry of a key and evicts the oldest entries. */
    method Store(entry: Cached)
      requires Valid() && StoresValid(entry.stores)
      modifies this
      ensures cache == Newest(Dropped(old(cache), entry.key) + [entry]) && Valid()
      ensures cache != [] && cache[|cache| - 1] == entry
    {
      NewestEntries(cache, entry);
      Replace(entry);
    }

    /** The stores are an independent copy of the newest entry, which is the one of this key. */
    ghost predicate Serves(key: string, r: RebuiltStores)
      reads this, Repr(), Objects(r)
    {
      && StoresValid(r)
      && cache != [] && cache[|cache| - 1].key == key
      && Snapshot(cache[|cache| - 1].stores) == Snapshot(r) && Objects(cache[|cache| - 1].stores) !! Objects(r)
    }

    /** What a returned result amounts to: its contents, and the block recorded with the newest entry. */
    ghost function Recorded(key: string, r: Option<RebuiltStores>): Option<Basis>
      reads this, Repr(), if r.Some? then Objects(r.value) else {}
      requires r.Some? ==> Serves(key, r.value)
    {
      if r.Some? then Some(Basis(Snapshot(r.value), cache[|cache| - 1].throughBlock)) else None
    }

    /**
     One attempt on an independent copy of the basis; on success the result is cached, on failure the entry is
     dropped.
     */
    method Attempt(key: string, basis: Option<RebuiltStores>, through: int, rows: Option<seq<Row>>,
                   chain: Option<ChainState>)
      returns (r: Option<RebuiltStores>)
      requires Valid() && (basis.Some? ==> StoresValid(basis.value)) && (basis.None? ==> through == -1)
      modifies this
      ensures Valid()
      ensures r.Some? ==> fresh(Objects(r.value)) && Serves(key, r.value)
      ensures Recorded(key, r)
              == AttemptResult(if basis.Some? then Some(Basis(old(Snapshot(basis.value)), Some(through))) else None,
                               rows, chain, order)
      ensures r.None? ==> forall i :: 0 <= i < |cache| ==> cache[i].key != key
    {
      var rebuilt := Rebuild(basis, through, rows, chain);
      if rebuilt.None? {
        Delete(key);
        return None;
      }
      var throughBlock := ThroughBlock(rows.value, if basis.Some? then Some(through) else None);
      var copy := Commit(Cached(key, rebuilt.value, throughBlock));
      return Some(copy);
    }

    /** Caches verified stores and hands out an independent copy. */
    method Commit(entry: Cached) returns (copy: RebuiltStores)
      requires Valid() && StoresValid(entry.stores)
      modifies this
      ensures Valid() && fresh(Objects(copy)) && Serves(entry.key, copy) && cache[|cache| - 1] == entry
      ensures Snapshot(copy) == old(Snapshot(entry.stores))
    {
      Store(entry);
      copy := CloneStores(entry.stores);
    }

    /** Fetch, replay and verify, without touching the cache. */
    method Rebuild(basis: Option<RebuiltStores>, through: int, rows: Option<seq<Row>>, chain: Option<ChainState>)
      returns (r: Option<RebuiltStores>)
      requires basis.Some? ==> StoresValid(basis.value)
      ensures r.Some? ==> rows.Some? && fresh(Objects(r.value)) && StoresValid(r.value)
      ensures r.Some? <==> Succeeds(if basis.Some? then Some(Snapshot(basis.value)) else None, through + 1, rows, chain,
                                    order)
      ensures r.Some? ==>
                Snapshot(r.value) == RebuiltContents(rows.value,
                                                     if basis.Some? then Some(Snapshot(basis.value)) else None, order)
    {
      r := Replay(basis, through, rows);
      if r.Some? {
        var verified := Verify(r.value, chain);
        if !verified { r := None; }
      }
    }

    /** Fetch and replay. */
    method Replay(basis: Option<RebuiltStores>, through: int, rows: Option<seq<Row>>) returns (r: Option<RebuiltStores>)
      requires basis.Some? ==> StoresValid(basis.value)
      ensures r.Some? <==> rows.Some? && (basis.Some? ==> FromBlock(rows.value, through + 1))
      ensures r.Some? ==> fresh(Objects(r.value)) && StoresValid(r.value)
      ensures r.Some? ==>
                Snapshot(r.value) == RebuiltContents(rows.value,
                                                     if basis.Some? then Some(Snapshot(basis.value)) else None, order)
    {
      if rows.None? { return None; }
      if basis.Some? {
        var inRange := CheckRange(rows.value, through + 1);
        if !inRange { return None; }
        var advanced := Advance(basis.value, rows.value);
        return Some(advanced);
      }
      var stores := RebuildStores(rows.value, None, order);
      return Some(stores);
    }

    /** Applies rows to an independent copy of the basis. */
    method Advance(basis: RebuiltStores, rows: seq<Row>) returns (r: RebuiltStores)
      requires StoresValid(basis)
      ensures fresh(Objects(r)) && StoresValid(r) && Snapshot(r) == RebuiltContents(rows, Some(Snapshot(basis)), order)
    {
      var copy := CloneStores(basis);
      r := RebuildStores(rows, Some(copy), order);
    }

    method Verify(stores: RebuiltStores, chain: Option<ChainState>) returns (ok: bool)
      ensures ok <==> chain.Some? && Complete(chain.value) && Matches(Snapshot(stores), chain.value)
    {
      if chain.None? || !Complete(chain.value) { return false; }
      ok := AssertStoresMatchChain(stores, chain.value);
    }

    /** Loads the stores of one key: at most one incremental and one full attempt. */
    method Load(key: string, scope: Scope, source: Source) returns (r: Option<RebuiltStores>, attempts: nat)
      requires Valid()
      modifies this
      ensures Valid() && 1 <= attempts <= 2
      ensures r.Some? ==> fresh(Objects(r.value)) && Serves(key, r.value)
      ensures Recorded(key, r) == Outcome(old(BasisOf(key, scope, source.checkpoint)), source, order)
      ensures r.Some? ==> forall cp :: BasisOf(key, scope, cp) == Recorded(key, r)
      ensures r.None? ==> forall cp ::
                BasisOf(key, scope, cp) == if cp.Some? && Restorable(cp.value, scope)
                                           then Some(Basis(Restored(cp.value), cp.value.throughBlock)) else None
      ensures attempts == 1 <==> !Incremental(old(BasisOf(key, scope, source.checkpoint)))
                                 || SinceResult(old(BasisOf(key, scope, source.checkpoint)), source, order).Some?
    {
      var basis, through := FindBasis(key, scope, source.checkpoint);
      r, attempts := LoadFrom(key, basis, through, source);
      if r.Some? { NewestIsFound(key, scope); }
    }

    /** The newest entry is what the next load of its key starts from, whatever snapshot is offered. */
    lemma NewestIsFound(key: string, scope: Scope)
      requires Valid() && cache != [] && cache[|cache| - 1].key == key
      ensures forall cp ::
                BasisOf(key, scope, cp) == Some(Basis(Snapshot(cache[|cache| - 1].stores),
                                                      cache[|cache| - 1].throughBlock))
    {
      assert forall i :: 0 <= i < |cache| - 1 ==> cache[i].key != cache[|cache| - 1].key;
    }

    method LoadFrom(key: string, basis: Option<RebuiltStores>, through: Option<int>, source: Source)
      returns (r: Option<RebuiltStores>, attempts: nat)
      requires Valid() && (basis.Some? ==> StoresValid(basis.value))
      modifies this
      ensures Valid() && 1 <= attempts <= 2
      ensures r.Some? ==> fresh(Objects(r.value)) && Serves(key, r.value)
      ensures var start := if basis.Some? then Some(Basis(old(Snapshot(basis.value)), through)) else None;
              Recorded(key, r) == Outcome(start, source, order)
                && (attempts == 1 <==> !Incremental(start) || SinceResult(start, source, order).Some?)
      ensures r.None? ==> forall i :: 0 <= i < |cache| ==> cache[i].key != key
    {
      attempts := 0;
      if basis.Some? && through.Some? {
        attempts := 1;
        r := Attempt(key, basis, through.value, source.since, source.chainSince);
        if r.Some? { return; }
      }
      attempts := attempts + 1;
      r := Attempt(key, None, -1, source.all, source.chainAll);
    }

    /** The cached entry, else a snapshot that restores; a corrupt snapshot counts as none. */
    method FindBasis(key: string, scope: Scope, cp: Option<Checkpoint>)
      returns (basis: Option<RebuiltStores>, through: Option<int>)
      requires Valid()
      ensures basis.Some? ==> StoresValid(basis.value)
      ensures BasisOf(key, scope, cp) == if basis.Some? then Some(Basis(Snapshot(basis.value), through)) else None
    {
      basis, through := None, None;
      var i := IndexOf(key);
      if i < |cache| {
        basis, through := Some(cache[i].stores), cache[i].throughBlock;
      } else if cp.Some? {
        basis := RestoreStoreCheckpoint(cp.value, scope);
        through := cp.value.throughBlock;
      }
    }
  }

  method CheckRange(rows: seq<Row>, from: int) returns (ok: bool)
    ensures ok == FromBlock(rows, from)
  {
    for i := 0 to |rows|
      invariant FromBlock(rows[..i], from)
    {
      if rows[i].height.None? || rows[i].height.value < from { return false; }
      assert rows[..i + 1] == rows[..i] + [rows[i]];
    }
    assert rows[..|rows|] == rows;
    return true;
  }

  // ---- the block a cached entry is complete through ----

  predicate Placed(r: Row) { r.height.Some? && r.height.value >= 0 }

  function Later(through: Option<int>, height: int): Option<int> {
    var t := if through.Some? then through.value else 0;
    Some(if height > t then height else t)
  }

  /** The latest height, or None as soon as a row has no usable height. */
  function Through(rows: seq<Row>, from: Option<int>): (t: Option<int>)
    decreases |rows|
  {
    if rows == [] then from
    else if !Placed(rows[0]) then None
    else Through(rows[1..], Later(from, rows[0].height.value))
  }

  /** A reported block is at or behind no row and never before the basis. */
  lemma {:induction false} ThroughCovers(rows: seq<Row>, from: Option<int>)
    ensures var t := Through(rows, from);
            t.Some? ==> (from.Some? ==> from.value <= t.value) && forall r ::
            r in rows ==> Placed(r) && r.height.value <= t.value
  {
    if rows != [] && Placed(rows[0]) {
      ThroughCovers(rows[1..], Later(from, rows[0].height.value));
      assert rows == [rows[0]] + rows[1..];
    }
  }

  method ThroughBlock(rows: seq<Row>, from: Option<int>) returns (t: Option<int>)
    ensures t == Through(rows, from)
  {
    t := from;
    for i := 0 to |rows|
      invariant Through(rows, from) == Through(rows[i..], t)
    {
      if !Placed(rows[i]) { return None; }
      t := Later(t, rows[i].height.value);
      assert rows[i..][1..] == rows[i + 1..];
    }
  }
}
