/**
 Detecting a reorganization from stored block headers, and the reconstruction theorem: detection,
 rollback and re-reading turn the index of one chain into the index of another.
 */
module ReorgDetection {
  import opened Primitives
  import opened Sequences
  import opened Guards
  import opened EventOrder
  import opened IndexTables
  import opened Reorg
  import opened FetchedWindows

  datatype Header = Header(height: nat, hash: nat)

  predicate Agreed(stored: map<nat, nat>, chain: map<nat, nat>, h: nat) {
    h in stored && h in chain && stored[h] == chain[h]
  }

  predicate Conflict(stored: map<nat, nat>, chain: map<nat, nat>, h: nat) {
    h in stored && h in chain && stored[h] != chain[h]
  }

  /**
   What a detection over heights `lo` to `hi` reports. Nothing, when every conflict lies below an agreed
   height. Otherwise the highest agreed height, or one below the lowest conflict if no height agrees.
   */
  ghost predicate Detected(stored: map<nat, nat>, chain: map<nat, nat>, lo: nat, hi: nat, fork: Option<int>) {
    match fork
    case None => forall h: nat ::
      lo <= h <= hi && Conflict(stored, chain, h) ==> exists g: nat :: h < g <= hi && Agreed(stored, chain, g)
    case Some(f) =>
      && lo - 1 <= f < hi
      && (exists h: nat :: f < h <= hi && lo <= h && Conflict(stored, chain, h))
      && (forall h: nat :: f < h <= hi && lo <= h ==> !Agreed(stored, chain, h))
      && (|| (f >= lo && Agreed(stored, chain, f))
          || (forall h: nat :: lo <= h <= f ==> !Conflict(stored, chain, h) && !Agreed(stored, chain, h)))
  }

  /** After the rollback to the reported fork, detection on the same headers reports nothing. */
  lemma {:induction false} SecondDetectionIsQuiet(stored: map<nat, nat>, left: map<nat, nat>, chain: map<nat, nat>,
                                                  lo: nat, hi: nat, fork: int, again: Option<int>)
    requires Detected(stored, chain, lo, hi, Some(fork)) && left == map h | h in stored && h <= fork :: stored[h]
    requires Detected(left, chain, lo, hi, again)
    ensures again == None
  {
    if again.Some? {
      var h: nat :| again.value < h <= hi && lo <= h && Conflict(left, chain, h);
      assert Conflict(stored, chain, h);
      assert Agreed(stored, chain, fork) && fork >= lo;
      assert Agreed(left, chain, fork);
    }
  }

  class Index {
    var tables: Tables
    var indexedHeight: int

    constructor (start: int)
      ensures tables == EMPTY_TABLES && indexedHeight == start
    {
      tables, indexedHeight := EMPTY_TABLES, start;
    }

    /** Restores the order of a fetched batch and ingests its events one by one. */
    method SyncEvents(fetched: seq<ChainEvent>)
      modifies this`tables
      ensures tables == IngestAll(old(tables), ApplyOrder(fetched), 0)
    {
      var restored := ReverseEventsWithinEachTx(fetched);
      var events := OrderForApply(restored);
      ghost var before := tables;
      for i := 0 to |events|
        invariant tables == Fold(before, events[..i], 0, Ingest)
      {
        IngestSnoc(before, events, i);
        tables := Ingest(tables, events[i], i);
      }
      assert events[..|events|] == events;
    }

    method RollbackAboveFork(fork: int)
      modifies this
      ensures LeftBelow(old(tables), tables, fork) && indexedHeight == fork
      ensures tables == Rollback(old(tables), fork)
    {
      RollbackLeaves(tables, fork);
      tables := Rollback(tables, fork);
      indexedHeight := fork;
    }

    /** Walks the stored headers downwards to the first agreed one, then rolls back above it. */
    method DetectAndRollbackReorg(headers: seq<Header>) returns (r: Option<int>)
      modifies this
      ensures headers == [] ==> r == None
      ensures headers != [] ==>
                Detected(old(tables.headers), ByHeight(headers), headers[0].height, headers[|headers| - 1].height, r)
      ensures r.None? ==> tables == old(tables) && indexedHeight == old(indexedHeight)
      ensures r.Some? ==> tables == Rollback(old(tables), r.value) && indexedHeight == r.value
    {
      r := None;
      if headers == [] { return; }
      var lo, hi := headers[0].height, headers[|headers| - 1].height;
      if lo > hi { return; }
      var chain := MapHeaders(headers);
      var stored := tables.headers;
      var fork: Option<int>, highest: Option<nat>, lowest: Option<nat> := None, None, None;
      var h: int := hi;
      while h >= lo && fork.None?
        invariant lo - 1 <= h <= hi
        invariant forall g: nat :: h < g <= hi && lo <= g && fork.None? ==> !Agreed(stored, chain, g)
        invariant highest.None? <==> lowest.None?
        invariant highest.None? ==> forall g: nat :: h < g <= hi && lo <= g ==> !Conflict(stored, chain, g)
        invariant lowest.Some? ==> h < lowest.value <= hi && lo <= lowest.value && Conflict(stored, chain, lowest.value)
        invariant lowest.Some? ==> forall g: nat :: h < g < lowest.value && lo <= g ==> !Conflict(stored, chain, g)
        invariant fork.Some? ==> fork.value == h && h >= lo && Agreed(stored, chain, h) && forall g: nat ::
                    h < g <= hi ==> !Agreed(stored, chain, g)
        decreases h, fork.None?
      {
        if h in stored && h in chain && stored[h] == chain[h] {
          fork := Some(h);
        } else {
          if h in stored && h in chain {
            if highest.None? { highest := Some(h); }
            lowest := Some(h);
          }
          h := h - 1;
        }
      }
      if highest.None? { return; }
      if fork.None? { fork := Some(lowest.value - 1); }
      RollbackAboveFork(fork.value);
      return fork;
    }
  }

  /** Later headers of one height win. */
  function ByHeight(headers: seq<Header>): (m: map<nat, nat>)
  {
    if headers == [] then map[]
      else ByHeight(headers[..|headers| - 1])[headers[|headers| - 1].height := headers[|headers| - 1].hash]
  }

  method MapHeaders(headers: seq<Header>) returns (m: map<nat, nat>)
    ensures m == ByHeight(headers)
  {
    m := map[];
    for i := 0 to |headers|
      invariant m == ByHeight(headers[..i])
    {
      assert headers[..i + 1][..i] == headers[..i];
      m := m[headers[i].height := headers[i].hash];
    }
    assert headers[..|headers|] == headers;
  }

  lemma IngestSnoc(t: Tables, es: seq<ChainEvent>, i: nat)
    requires i < |es|
    ensures Fold(t, es[..i + 1], 0, Ingest) == Ingest(Fold(t, es[..i], 0, Ingest), es[i], i)
  {
    assert es[..i + 1][..i] == es[..i];
  }

  // ---- reconstruction ----

  /** Every event names the block it is in, by the hash of its height on this chain. */
  predicate HashedBy(c: seq<ChainEvent>, hash: nat -> nat) {
    forall i :: 0 <= i < |c| ==> c[i].blockHash == Some(hash(c[i].height))
  }

  /** The stored headers are those of the blocks with events. */
  lemma {:induction false} HeadersIndexed(c: seq<ChainEvent>, hash: nat -> nat, h: nat)
    requires HashedBy(c, hash)
    ensures h in Indexed(c).headers <==> exists i :: 0 <= i < |c| && c[i].height == h
    ensures h in Indexed(c).headers ==> Indexed(c).headers[h] == hash(h)
  {
    if c != [] {
      var init, last := c[..|c| - 1], c[|c| - 1];
      HeadersIndexed(init, hash, h);
      var t := Indexed(init);
      if FingerprintOf(last) in t.raw {
        RawGrows(EMPTY_TABLES, init, 0, FingerprintOf(last));
        var j :| 0 <= j < |init| && FingerprintOf(init[j]) == FingerprintOf(last);
        assert init[j].height == last.height;
      }
      if i :| 0 <= i < |init| && init[i].height == h { assert c[i].height == h; }
      if last.height == h { assert c[|c| - 1].height == h; }
    }
  }

  /** Two chains with the same blocks up to `common` and different ones above, as far as the header window shows. */
  ghost predicate ForksAt(hash: nat -> nat, chain: map<nat, nat>, lo: nat, hi: nat, common: int) {
    && lo - 1 <= common <= hi
    && (forall h: nat :: lo <= h <= hi ==> h in chain && (hash(h) == chain[h] <==> h <= common))
  }

  /** No indexed event lies between the reported fork and the true one. */
  lemma ForkSeparates(a: seq<ChainEvent>, hash: nat -> nat, stored: map<nat, nat>, chain: map<nat, nat>, lo: nat,
                      hi: nat, common: int, fork: Option<int>, i: nat)
    requires HashedBy(a, hash) && stored == Indexed(a).headers && ForksAt(hash, chain, lo, hi, common)
    requires Detected(stored, chain, lo, hi, fork) && i < |a| && (fork.Some? || a[i].height <= hi)
    ensures a[i].height <= common <==> (fork.None? || a[i].height <= fork.value)
  {
    var h: nat := a[i].height;
    HeadersIndexed(a, hash, h);
    assert h in stored && stored[h] == hash(h);
    assert lo <= h <= hi ==>
      (Agreed(stored, chain, h) <==> h <= common) && (Conflict(stored, chain, h) <==> h > common);
    if fork.None? && h > common {
      var g: nat :| h < g <= hi && Agreed(stored, chain, g);
      HeadersIndexed(a, hash, g);
    }
    if fork.Some? && fork.value >= lo && Agreed(stored, chain, fork.value) {
      HeadersIndexed(a, hash, fork.value);
    }
  }

  /** The detection can see what has to go: an orphaned event among the compared headers, or no event above them. */
  predicate Detectable(a: seq<ChainEvent>, common: int, hi: nat) {
    (exists i :: 0 <= i < |a| && common < a[i].height <= hi) || forall i :: 0 <= i < |a| ==> a[i].height <= hi
  }

  /** A fork is reported exactly when an indexed event lies on a compared block that the chains do not share. */
  lemma {:induction false} ForkReported(a: seq<ChainEvent>, hash: nat -> nat, stored: map<nat, nat>,
                                        chain: map<nat, nat>, lo: nat, hi: nat, common: int,
                     fork: Option<int>)
    requires HashedBy(a, hash) && stored == Indexed(a).headers && ForksAt(hash, chain, lo, hi, common)
             && Detected(stored, chain, lo, hi, fork)
    ensures fork.Some? <==> exists i :: 0 <= i < |a| && common < a[i].height <= hi
  {
    if i :| 0 <= i < |a| && common < a[i].height <= hi {
      OrphanReported(a, hash, stored, chain, lo, hi, common, fork, i);
    }
    if fork.Some? {
      var g: nat :| fork.value < g <= hi && lo <= g && Conflict(stored, chain, g);
      HeadersIndexed(a, hash, g);
      var i :| 0 <= i < |a| && a[i].height == g;
      assert common < a[i].height <= hi;
    }
  }

  lemma {:induction false} OrphanReported(a: seq<ChainEvent>, hash: nat -> nat, stored: map<nat, nat>,
                                          chain: map<nat, nat>, lo: nat, hi: nat, common: int,
                       fork: Option<int>, i: nat)
    requires HashedBy(a, hash) && stored == Indexed(a).headers && ForksAt(hash, chain, lo, hi, common)
             && Detected(stored, chain, lo, hi, fork)
    requires i < |a| && common < a[i].height <= hi
    ensures fork.Some?
  {
    if fork.None? { ForkSeparates(a, hash, stored, chain, lo, hi, common, fork, i); }
  }

  function AfterDetection(t: Tables, fork: Option<int>): (r: Tables) {
    if fork.Some? then Rollback(t, fork.value) else t
  }

  lemma RewoundByDetection(t: Tables, a: seq<ChainEvent>, hash: nat -> nat, chain: map<nat, nat>, lo: nat, hi: nat,
                           common: int, n: nat, fork: Option<int>)
    requires Honest(a) && HeightsAscend(a) && HashedBy(a, hash) && Same(t, Indexed(a))
    requires ForksAt(hash, chain, lo, hi, common) && CutAt(a, n, common) && Detected(t.headers, chain, lo, hi, fork)
    requires fork.Some? || forall i :: 0 <= i < |a| ==> a[i].height <= hi
    ensures Same(AfterDetection(t, fork), Indexed(a[..n]))
  {
    forall i | 0 <= i < |a| ensures a[i].height <= common <==> (fork.None? || a[i].height <= fork.value) {
      ForkSeparates(a, hash, t.headers, chain, lo, hi, common, fork, i);
    }
    assert a[..|a|] == a;
    if fork.Some? {
      assert CutAt(a, n, fork.value);
      RollbackRewinds(t, a, |a|, n, fork.value);
    } else {
      assert n == |a|;
    }
  }

  /** An event above the header tip is kept unless a conflict below the tip is found. */
  lemma StaleAboveTip(t: Tables, a: seq<ChainEvent>, common: int, n: nat, i: nat)
    requires Same(t, Indexed(a)) && CutAt(a, n, common) && i < |a| && a[i].height > common
    ensures !Same(t, Indexed(a[..n]))
  {
    RawGrows(EMPTY_TABLES, a, 0, FingerprintOf(a[i]));
    IndexedTagged(a[..n], common);
  }

  /**
   After detection the tables hold exactly what both chains share, if and only if some orphaned event lies on a block
   whose header was compared, or no event lies above those blocks.
   */
  lemma {:induction false} DetectionRewinds(t: Tables, a: seq<ChainEvent>, hash: nat -> nat, chain: map<nat, nat>,
                                            lo: nat, hi: nat, common: int, n: nat, fork: Option<int>)
    requires Honest(a) && HeightsAscend(a) && HashedBy(a, hash) && Same(t, Indexed(a))
    requires ForksAt(hash, chain, lo, hi, common) && CutAt(a, n, common) && Detected(t.headers, chain, lo, hi, fork)
    ensures Same(AfterDetection(t, fork), Indexed(a[..n])) <==> Detectable(a, common, hi)
  {
    ForkReported(a, hash, t.headers, chain, lo, hi, common, fork);
    if fork.Some? || forall i :: 0 <= i < |a| ==> a[i].height <= hi {
      RewoundByDetection(t, a, hash, chain, lo, hi, common, n, fork);
    } else {
      var i :| 0 <= i < |a| && a[i].height > hi;
      StaleAboveTip(t, a, common, n, i);
    }
  }

  /** Any injective naming of blocks will do. */
  function HashIs(height: nat): nat { height }

  function TwoEvents(): (a: seq<ChainEvent>)
    ensures |a| == 2 && a[0].height == 5 && a[1].height == 9
    ensures Honest(a) && HeightsAscend(a) && HashedBy(a, HashIs)
  {
    [ChainEvent(Deployed, 5, Some(5), Some(0), None), ChainEvent(Setup([], 1, 1, EMPTY_KEY), 9, Some(9), Some(1), None)]
  }

  const SHORTER_CHAIN: map<nat, nat> := map[1 := 1, 2 := 2, 3 := 3, 4 := 4, 5 := 5, 6 := 6, 7 := 7]

  lemma ShorterChain()
    ensures ForksAt(HashIs, SHORTER_CHAIN, 1, 7, 7) && forall h :: h in SHORTER_CHAIN ==> SHORTER_CHAIN[h] == HashIs(h)
  {
  }

  /**
   A shorter tip that goes unnoticed: events at 5 and 9 were indexed, the chain now ends at 7 and has the same block 5.
   Nothing is reported and the event at 9 stays in the tables.
   */
  lemma {:induction false} StaleTipExample()
    ensures CutAt(TwoEvents(), 1, 7) && Detected(Indexed(TwoEvents()).headers, SHORTER_CHAIN, 1, 7, None)
    ensures ForksAt(HashIs, SHORTER_CHAIN, 1, 7, 7) && !Detectable(TwoEvents(), 7, 7)
    ensures !Same(AfterDetection(Indexed(TwoEvents()), None), Indexed(TwoEvents()[..1]))
  {
    var a := TwoEvents();
    ShorterChain();
    HeadersMatch(a, HashIs, SHORTER_CHAIN);
    IndexedOrdered(a);
    StaleAboveTip(Indexed(a), a, 7, 1, 1);
  }

  lemma HeadersMatch(a: seq<ChainEvent>, hash: nat -> nat, chain: map<nat, nat>)
    requires HashedBy(a, hash) && forall h :: h in chain ==> chain[h] == hash(h)
    ensures forall h: nat :: !Conflict(Indexed(a).headers, chain, h)
  {
    forall h: nat ensures !Conflict(Indexed(a).headers, chain, h) { HeadersIndexed(a, hash, h); }
  }

  /**
   Reorg reconstruction: from tables holding chain `a`, detection against the headers of a chain that shares
   `a`'s blocks up to `common`, followed by fetching and applying that chain's blocks `first` to `last`, gives
   the tables of the new chain through `last` as indexed from empty.
   */
  lemma {:induction false} ReorgReconstructs(t: Tables, a: seq<ChainEvent>, archive: seq<ChainEvent>, hash: nat -> nat,
                                             chain: map<nat, nat>, lo: nat, hi: nat,
                                             common: int, n: nat, fork: Option<int>, first: int, last: int, from: nat,
                                             to: nat)
    requires Honest(a) && HeightsAscend(a) && HashedBy(a, hash) && Same(t, Indexed(a))
    requires ForksAt(hash, chain, lo, hi, common) && Detected(t.headers, chain, lo, hi, fork)
    requires Detectable(a, common, hi)
    requires OneBlockPerTx(archive) && CutAt(a, n, common) && CutAt(ApplyOrder(archive), n, common)
             && a[..n] == ApplyOrder(archive)[..n]
    requires first - 1 <= common <= last && CutAt(ApplyOrder(archive), from, first - 1)
             && CutAt(ApplyOrder(archive), to, last)
    ensures Same(IngestAll(AfterDetection(t, fork), ApplyOrder(Window(archive, first, last)), 0),
                 Indexed(ApplyOrder(archive)[..to]))
  {
    var b := ApplyOrder(archive);
    CutsOrdered(b, from, first - 1, n, common);
    CutsOrdered(b, n, common, to, last);
    ForkReported(a, hash, t.headers, chain, lo, hi, common, fork);
    RewoundByDetection(t, a, hash, chain, lo, hi, common, n, fork);
    FetchedSlice(archive, first, last, from, to);
    ApplyOrderAscends(archive);
    WindowExtends(AfterDetection(t, fork), b, from, n, to, common);
  }

  lemma CutsOrdered(c: seq<ChainEvent>, m: nat, low: int, n: nat, high: int)
    requires CutAt(c, m, low) && CutAt(c, n, high) && low <= high
    ensures m <= n
  {
    assert n < |c| ==> c[n].height > high;
  }
}
