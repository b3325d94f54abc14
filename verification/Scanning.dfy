/**
 Which blocks the indexer reads: the tick cursor, resumable first scans under a per-tick budget, the
 replay window of scanned contracts, and the chunks of one archive fetch. What each contract sync
 answers and which rollback was found are parameters.
 */
module Scanning {
  import opened Primitives

  const EVENT_QUERY_BLOCK_SPAN: nat := 5000
  const EVENT_REPLAY_BLOCKS: nat := 290
  const FIRST_SCAN_STEPS_PER_TICK: nat := 5
  const MAX_HEIGHT: nat := 2147483647

  // ---- one fetch ----

  /** A half-open range of blocks. */
  datatype Chunk = Chunk(from: nat, to: nat)

  predicate Chunked(cs: seq<Chunk>, from: nat, to: nat) {
    && (forall i :: 0 <= i < |cs| ==> cs[i].from < cs[i].to <= cs[i].from + 5000)
    && (if cs == [] then from == to else cs[0].from == from && cs[|cs| - 1].to == to)
    && (forall i :: 0 < i < |cs| ==> cs[i - 1].to == cs[i].from)
  }

  /** The archive requests of one inclusive range, or None for an invalid range. */
  method FetchRange(fromHeight: int, toHeight: int) returns (r: Option<seq<Chunk>>)
    ensures r.Some? <==> 0 <= fromHeight <= toHeight < 2147483647
    ensures r.Some? ==> Chunked(r.value, fromHeight, toHeight + 1)
  {
    if fromHeight < 0 || toHeight < fromHeight || toHeight >= MAX_HEIGHT { return None; }
    var chunks: seq<Chunk> := [];
    var from: nat := fromHeight;
    while from <= toHeight
      invariant fromHeight <= from
      invariant Chunked(chunks, fromHeight, if from <= toHeight then from else toHeight + 1)
      decreases toHeight + 1 - from
    {
      var to := if from + EVENT_QUERY_BLOCK_SPAN < toHeight + 1 then from + EVENT_QUERY_BLOCK_SPAN else toHeight + 1;
      chunks := chunks + [Chunk(from, to)];
      from := from + EVENT_QUERY_BLOCK_SPAN;
    }
    return Some(chunks);
  }

  predicate Holds(c: Chunk, block: nat) { c.from <= block < c.to }

  /** The chunks partition the range: every block of it is in exactly one chunk, and no other block is in any. */
  lemma {:induction false} ChunksPartition(cs: seq<Chunk>, from: nat, to: nat, block: nat)
    requires Chunked(cs, from, to)
    ensures from <= to
    ensures from <= block < to <==> exists i :: 0 <= i < |cs| && Holds(cs[i], block)
    ensures forall i, j :: 0 <= i < |cs| && 0 <= j < |cs| && Holds(cs[i], block) && Holds(cs[j], block) ==> i == j
  {
    if cs != [] {
      var init, last := cs[..|cs| - 1], cs[|cs| - 1];
      ChunksPartition(init, from, last.from, block);
      if i :| 0 <= i < |init| && Holds(init[i], block) { assert Holds(cs[i], block); }
      if Holds(last, block) { assert Holds(cs[|cs| - 1], block); }
      forall i | 0 <= i < |cs| && Holds(cs[i], block) ensures from <= block < to {
        if i < |init| { assert Holds(init[i], block); }
      }
      forall i, j | 0 <= i < |cs| && 0 <= j < |cs| && Holds(cs[i], block) && Holds(cs[j], block) ensures i == j {
        if i < |init| { assert Holds(init[i], block); }
        if j < |init| { assert Holds(init[j], block); }
      }
    }
  }

  // ---- ticks ----

  /** `synced` is a non-null lastSyncedAt. */
  datatype Vault = Vault(discoveredAt: Option<nat>, ready: bool, synced: bool)

  datatype Scan = Scan(start: nat, next: nat)

  /**
   How syncing one contract over a range ended: done (with whether an event was applied), account missing or refused,
   or failed.
   */
  datatype Answer = Done(applied: bool) | Refused(unsafe: bool) | Failed

  datatype Step = Step(vault: nat, from: nat, to: nat)

  function ScanStart(v: Vault, indexStart: nat): nat {
    if v.discoveredAt.Some? then v.discoveredAt.value else indexStart
  }

  ghost predicate Covers(read: set<nat>, from: int, to: int) { forall b: nat :: from <= b <= to ==> b in read }

  function Range(from: nat, last: int): (s: set<nat>)
    ensures forall b: nat :: b in s <==> from <= b <= last
    decreases last - from
  {
    if last < from then {} else Range(from, last - 1) + {last}
  }

  /** The first block of a tick's replay window. */
  function WindowStart(indexStart: nat, indexed: int): (from: nat)
  {
    var back := indexed - EVENT_REPLAY_BLOCKS + 1;
    if back > indexStart then back else indexStart
  }

  /** The window starts at or below the indexed height exactly when the cursor is at or above the configured start. */
  lemma WindowOverlaps(indexStart: nat, indexed: int)
    ensures WindowStart(indexStart, indexed) <= indexed <==> indexStart <= indexed
    ensures indexStart <= WindowStart(indexStart, indexed)
  {
  }

  /** An answered window completes a contract through the tip exactly when everything before the window was read. */
  lemma WindowCompletes(read: set<nat>, start: int, from: nat, latest: nat)
    requires from <= latest
    ensures Covers(read + Range(from, latest), start, latest) <==> Covers(read, start, from - 1)
  {
    if Covers(read + Range(from, latest), start, latest) {
      forall b: nat | start <= b <= from - 1 ensures b in read { assert b in read + Range(from, latest); }
    }
  }

  // ---- coverage of one contract ----

  /**
   The blocks from the contract's start on that were read and not rolled back, and a height through which none is
   missing.
   */
  datatype Coverage = Coverage(read: set<nat>, complete: int)

  /** Reads a window; completeness moves to its end if the window connects. */
  function Visited(c: Coverage, from: nat, last: nat): (r: Coverage)
  {
    Coverage(c.read + Range(from, last), if from - 1 <= c.complete && c.complete < last then last else c.complete)
  }

  function RolledBackCover(c: Coverage, start: nat, fork: int): (r: Coverage)
  {
    var kept := if c.complete < fork then c.complete else fork;
    Coverage(set b | b in c.read && b <= fork, if kept < start - 1 then start - 1 else kept)
  }

  /** A window as far as it concerns a contract with this start. */
  function FirstFor(start: nat, from: nat): nat { if start > from then start else from }

  /**
   A tick as one scanned contract sees it: the tip, whether the contract's window was answered, and whether the whole
   tick succeeded; or a rollback.
   */
  datatype Seen = Ticked(latest: nat, answered: bool, ok: bool) | RolledTo(fork: int)

  /** A tick with a tip behind the cursor or the window reads nothing. */
  predicate Runs(indexStart: nat, indexed: int, latest: nat) {
    indexed <= latest && WindowStart(indexStart, indexed) <= latest
  }

  predicate Reads(indexStart: nat, indexed: int, s: Seen) {
    s.Ticked? && s.answered && Runs(indexStart, indexed, s.latest)
  }

  function AfterTick(c: Coverage, start: nat, indexStart: nat, indexed: int, s: Seen): (r: Coverage)
  {
    if s.RolledTo? then RolledBackCover(c, start, s.fork)
    else if Reads(indexStart, indexed, s) then Visited(c, FirstFor(start, WindowStart(indexStart, indexed)), s.latest)
    else c
  }

  function CursorAfter(indexStart: nat, indexed: int, s: Seen): (r: int)
  {
    if s.RolledTo? then s.fork else if s.ok && Runs(indexStart, indexed, s.latest) then s.latest else indexed
  }

  /** Coverage after a run of ticks. */
  function AfterTicks(c: Coverage, start: nat, indexStart: nat, indexed: int, seen: seq<Seen>): (r: Coverage)
    decreases |seen|
  {
    if seen == [] then c
    else
      AfterTicks(AfterTick(c, start, indexStart, indexed, seen[0]), start, indexStart,
                 CursorAfter(indexStart, indexed, seen[0]), seen[1..])
  }

  /**
   `complete` is exact: everything up to it is read and the next block is not. What is read beyond it is below the
   cursor, or cut off by a gap that no window reaches.
   */
  ghost predicate Settled(c: Coverage, start: nat, indexStart: nat, indexed: int) {
    && start - 1 <= c.complete
    && Covers(c.read, start, c.complete)
    && (forall b: nat :: b in c.read ==> start <= b && b != c.complete + 1)
    && (c.complete < WindowStart(indexStart, indexed) - 1 || forall b: nat ::
        b in c.read ==> b <= c.complete || b <= indexed)
  }

  lemma SettledExact(c: Coverage, start: nat, indexStart: nat, indexed: int, h: int)
    requires Settled(c, start, indexStart, indexed)
    ensures Covers(c.read, start, h) <==> h <= c.complete
  {
    var next: nat := c.complete + 1;
    assert next !in c.read;
  }

  /** An answered tick completes a contract through the tip exactly when everything before the window was read. */
  lemma TickCompletes(c: Coverage, start: nat, indexStart: nat, indexed: int, s: Seen)
    requires Reads(indexStart, indexed, s)
    ensures Covers(AfterTick(c, start, indexStart, indexed, s).read, start, s.latest)
            <==> Covers(c.read, start, WindowStart(indexStart, indexed) - 1)
  {
    var first := FirstFor(start, WindowStart(indexStart, indexed));
    if first <= s.latest { WindowCompletes(c.read, start, first, s.latest); }
  }

  lemma TickSettles(c: Coverage, start: nat, indexStart: nat, indexed: int, s: Seen)
    requires Settled(c, start, indexStart, indexed)
    ensures Settled(AfterTick(c, start, indexStart, indexed, s), start, indexStart, CursorAfter(indexStart, indexed, s))
  {
  }

  /**
   Over any run of ticks, answered or refused, successful, failed or rolling back, a scanned contract is complete
   through a height exactly up to `complete`.
   */
  lemma {:induction false} CompleteExactly(c: Coverage, start: nat, indexStart: nat, indexed: int, seen: seq<Seen>,
                                           h: int)
    requires Settled(c, start, indexStart, indexed)
    ensures var r := AfterTicks(c, start, indexStart, indexed, seen); Covers(r.read, start, h) <==> h <= r.complete
    decreases |seen|
  {
    if seen == [] {
      SettledExact(c, start, indexStart, indexed, h);
    } else {
      TickSettles(c, start, indexStart, indexed, seen[0]);
      CompleteExactly(AfterTick(c, start, indexStart, indexed, seen[0]), start, indexStart,
                      CursorAfter(indexStart, indexed, seen[0]), seen[1..], h);
    }
  }

  // ---- refused windows ----

  /**
   Before every window that was answered, the cursor was at most the replay window above the highest tip answered
   before (`have` at the beginning), and the configured start not above it.
   */
  predicate Reconnects(indexStart: nat, indexed: int, have: int, seen: seq<Seen>)
    decreases |seen|
  {
    seen == [] || (
      var read := Reads(indexStart, indexed, seen[0]);
      && (read ==> indexed <= have + EVENT_REPLAY_BLOCKS && indexStart <= have + 1)
      && Reconnects(indexStart, CursorAfter(indexStart, indexed, seen[0]),
                    if read && seen[0].latest > have then seen[0].latest else have, seen[1..]))
  }

  predicate NoRollback(seen: seq<Seen>) { forall i :: 0 <= i < |seen| ==> seen[i].Ticked? }

  function Cursor(indexStart: nat, indexed: int, seen: seq<Seen>): (r: int)
    decreases |seen|
  {
    if seen == [] then indexed else Cursor(indexStart, CursorAfter(indexStart, indexed, seen[0]), seen[1..])
  }

  /** The last tick of the run read a window. */
  predicate EndsAnswered(indexStart: nat, indexed: int, seen: seq<Seen>) {
    seen != [] && Reads(indexStart, Cursor(indexStart, indexed, seen[..|seen| - 1]), seen[|seen| - 1])
  }

  /** Once a gap opened behind the window, completeness stays where it was. */
  lemma {:induction false} GapStays(c: Coverage, start: nat, indexStart: nat, indexed: int, seen: seq<Seen>)
    requires NoRollback(seen) && start - 1 <= c.complete < WindowStart(indexStart, indexed) - 1
    ensures AfterTicks(c, start, indexStart, indexed, seen).complete == c.complete
    decreases |seen|
  {
    if seen != [] {
      GapStays(AfterTick(c, start, indexStart, indexed, seen[0]), start, indexStart,
               CursorAfter(indexStart, indexed, seen[0]), seen[1..]);
    }
  }

  lemma {:induction false} CursorRises(indexStart: nat, indexed: int, seen: seq<Seen>)
    requires NoRollback(seen)
    ensures indexed <= Cursor(indexStart, indexed, seen)
    decreases |seen|
  {
    if seen != [] { CursorRises(indexStart, CursorAfter(indexStart, indexed, seen[0]), seen[1..]); }
  }

  lemma EndShifts(indexStart: nat, indexed: int, seen: seq<Seen>)
    requires |seen| > 1 && EndsAnswered(indexStart, indexed, seen)
    ensures EndsAnswered(indexStart, CursorAfter(indexStart, indexed, seen[0]), seen[1..])
  {
    assert seen[..|seen| - 1][1..] == seen[1..][..|seen| - 2];
  }

  /**
   With every answered window connecting, completeness reaches every answered tip; a window that does not leaves it
   short.
   */
  lemma {:induction false} ReconnectedReaches(c: Coverage, start: nat, indexStart: nat, indexed: int, seen: seq<Seen>)
    requires NoRollback(seen) && EndsAnswered(indexStart, indexed, seen) && start - 1 <= c.complete
    ensures seen[|seen| - 1].latest <= AfterTicks(c, start, indexStart, indexed, seen).complete
            <==> Reconnects(indexStart, indexed, c.complete, seen)
    decreases |seen|
  {
    var next, cursor := AfterTick(c, start, indexStart, indexed, seen[0]), CursorAfter(indexStart, indexed, seen[0]);
    if Reads(indexStart, indexed, seen[0]) && c.complete < WindowStart(indexStart, indexed) - 1 {
      GapStays(c, start, indexStart, indexed, seen);
      CursorRises(indexStart, indexed, seen[..|seen| - 1]);
    } else if |seen| == 1 {
      assert seen[1..] == [];
    } else {
      EndShifts(indexStart, indexed, seen);
      ReconnectedReaches(next, start, indexStart, cursor, seen[1..]);
    }
  }

  /**
   After any run of ticks, failed ones included, that ends with an answered window, a contract is complete through
   the tip exactly when no refusal before an answered window outlasted the replay window.
   */
  lemma {:induction false} RefusalRecovered(c: Coverage, start: nat, indexStart: nat, indexed: int, seen: seq<Seen>)
    requires Settled(c, start, indexStart, indexed) && NoRollback(seen) && EndsAnswered(indexStart, indexed, seen)
    ensures Covers(AfterTicks(c, start, indexStart, indexed, seen).read, start, seen[|seen| - 1].latest)
            <==> Reconnects(indexStart, indexed, c.complete, seen)
  {
    CompleteExactly(c, start, indexStart, indexed, seen, seen[|seen| - 1].latest);
    ReconnectedReaches(c, start, indexStart, indexed, seen);
  }

  /** A run that loses blocks: a refusal of a thousand blocks leaves 1001 to 1710 unread. */
  lemma {:induction false} RefusalLosesBlocks(b: nat)
    requires 1001 <= b <= 1710
    ensures var r := AfterTicks(Coverage(Range(0, 1000), 1000), 0, 0, 1000,
                                [Ticked(2000, false, true), Ticked(3000, true, true)]);
            b !in r.read && !Covers(r.read, 0, 3000)
  {
    var c, seen := Coverage(Range(0, 1000), 1000), [Ticked(2000, false, true), Ticked(3000, true, true)];
    assert seen[1..] == [Ticked(3000, true, true)] && seen[1..][1..] == [];
    assert AfterTicks(c, 0, 0, 1000, seen) == AfterTicks(c, 0, 0, 2000, seen[1..]);
    assert AfterTicks(c, 0, 0, 2000, seen[1..]) == AfterTicks(Visited(c, 1711, 3000), 0, 0, 3000, []);
  }

  // ---- one vault ----

  function ScanOf(scans: map<nat, Scan>, id: nat): Option<Scan> { if id in scans then Some(scans[id]) else None }

  /**
   A first scan has read exactly everything before its next block; a scanned vault has none and is exactly complete.
   */
  ghost predicate Tracked(v: Vault, c: Coverage, scan: Option<Scan>, indexStart: nat, indexed: int) {
    var start := ScanStart(v, indexStart);
    if v.synced then scan == None && Settled(c, start, indexStart, indexed)
    else
      && !v.ready
      && c.read == Range(start, c.complete)
      && (if scan.Some? then scan.value.start == start <= scan.value.next && c.complete == scan.value.next - 1
          else c.complete == start - 1)
  }

  /** A sync of a scanned vault reads the tick's window, of another one the next blocks of its scan. */
  predicate InTurn(v: Vault, scan: Option<Scan>, from: nat, to: nat, indexStart: nat, indexed: int) {
    if v.synced then Runs(indexStart, indexed, to)
      && FirstFor(ScanStart(v, indexStart), from)
      == FirstFor(ScanStart(v, indexStart), WindowStart(indexStart, indexed))
    else scan.Some? && from == scan.value.next <= to
  }

  /** What a vault becomes by a sync. */
  function Synced(v: Vault, finish: bool, stored: bool, answer: Answer): (r: Vault)
  {
    if answer.Done? && finish then v.(synced := true, ready := v.ready || answer.applied || stored)
    else if answer.Refused? && answer.unsafe then v.(ready := false)
    else v
  }

  lemma WindowTracked(v: Vault, c: Coverage, from: nat, latest: nat, answer: Answer, indexStart: nat, indexed: int)
    requires v.synced && Tracked(v, c, None, indexStart, indexed) && InTurn(v, None, from, latest, indexStart, indexed)
    ensures var r := if answer.Done? then Visited(c, FirstFor(ScanStart(v, indexStart), from), latest) else c;
            Tracked(Synced(v, true, false, answer), r, None, indexStart, indexed)
  {
    TickSettles(c, ScanStart(v, indexStart), indexStart, indexed, Ticked(latest, answer.Done?, false));
  }

  lemma StepTracked(v: Vault, c: Coverage, scan: Scan, last: nat, answer: Answer, stored: bool, finish: bool,
                    indexStart: nat, indexed: int)
    requires !v.synced && Tracked(v, c, Some(scan), indexStart, indexed) && scan.next <= last && answer.Done?
    ensures var r := Visited(c, FirstFor(ScanStart(v, indexStart), scan.next), last);
            && r.read == Range(scan.start, last) && r.complete == last && c.read <= r.read
            && Tracked(Synced(v, finish, stored, answer), r, if finish then None else Some(Scan(scan.start, last + 1)),
                       indexStart, indexed)
  {
  }

  lemma CursorTracked(v: Vault, c: Coverage, scan: Option<Scan>, indexStart: nat, indexed: int, latest: nat)
    requires Tracked(v, c, scan, indexStart, indexed) && indexed <= latest
    ensures Tracked(v, c, scan, indexStart, latest)
  {
  }

  lemma RollbackTracked(v: Vault, c: Coverage, scan: Option<Scan>, indexStart: nat, indexed: int, fork: int,
                        emptied: bool)
    requires Tracked(v, c, scan, indexStart, indexed)
    ensures Tracked(if emptied then v.(ready := false) else v, RolledBackCover(c, ScanStart(v, indexStart), fork),
                    if scan.Some? then Some(Rewound(scan.value, fork)) else None, indexStart, fork)
  {
    if v.synced { TickSettles(c, ScanStart(v, indexStart), indexStart, indexed, RolledTo(fork)); }
  }

  function Unready(vaults: seq<Vault>, emptied: nat -> bool): (r: seq<Vault>)
    ensures |r| == |vaults| && forall i ::
              0 <= i < |r| ==> r[i] == if emptied(i) then vaults[i].(ready := false) else vaults[i]
  {
    seq(|vaults|, i requires 0 <= i < |vaults| => if emptied(i) then vaults[i].(ready := false) else vaults[i])
  }

  function RolledCovers(vaults: seq<Vault>, cover: seq<Coverage>, indexStart: nat, fork: int): (r: seq<Coverage>)
    requires |vaults| == |cover|
    ensures |r| == |cover| && forall i ::
              0 <= i < |r| ==> r[i] == RolledBackCover(cover[i], ScanStart(vaults[i], indexStart), fork)
  {
    seq(|cover|, i requires 0 <= i < |cover| => RolledBackCover(cover[i], ScanStart(vaults[i], indexStart), fork))
  }

  function RolledScans(scans: map<nat, Scan>, fork: int): (r: map<nat, Scan>)
    ensures r.Keys == scans.Keys && forall id :: id in r ==> r[id] == Rewound(scans[id], fork)
  {
    map id | id in scans :: Rewound(scans[id], fork)
  }

  lemma {:induction false} RollbackAll(vaults: seq<Vault>, cover: seq<Coverage>, scans: map<nat, Scan>, indexStart: nat,
                                       indexed: int, fork: int,
                                       emptied: nat -> bool)
    requires |vaults| == |cover| && forall i ::
               0 <= i < |vaults| ==> Tracked(vaults[i], cover[i], ScanOf(scans, i), indexStart, indexed)
    ensures forall i :: 0 <= i < |vaults| ==>
              Tracked(Unready(vaults, emptied)[i], RolledCovers(vaults, cover, indexStart, fork)[i],
                      ScanOf(RolledScans(scans, fork), i), indexStart, fork)
  {
    forall i | 0 <= i < |vaults|
      ensures Tracked(Unready(vaults, emptied)[i], RolledCovers(vaults, cover, indexStart, fork)[i],
                      ScanOf(RolledScans(scans, fork), i), indexStart, fork)
    {
      RollbackTracked(vaults[i], cover[i], ScanOf(scans, i), indexStart, indexed, fork, emptied(i));
    }
  }

  lemma {:induction false} VisitedTwice(c: Coverage, from: nat, last: nat)
    ensures Visited(Visited(c, from, last), from, last) == Visited(c, from, last)
  {
  }

  class Scanner {
    const indexStart: nat
    var indexed: int
    var vaults: seq<Vault>
    var scans: map<nat, Scan>
    ghost var cover: seq<Coverage>

    /** Every vault's coverage is known exactly. */
    ghost predicate Valid()
      reads this
    {
      && |cover| == |vaults|
      && (forall id :: 0 <= id < |vaults| ==> Tracked(vaults[id], cover[id], ScanOf(scans, id), indexStart, indexed))
      && (forall id :: id in scans ==> id < |vaults|)
    }

    constructor (indexStart: nat)
      ensures Valid() && this.indexStart == indexStart && indexed == indexStart && vaults == [] && scans == map[]
    {
      this.indexStart := indexStart;
      indexed, vaults, scans, cover := indexStart, [], map[], [];
    }

    /** The first block of a vault's history. */
    function Start(id: nat): nat
      reads this
      requires id < |vaults|
    {
      ScanStart(vaults[id], indexStart)
    }

    /** A new contract; its start is fixed from then on. */
    method Subscribe(discoveredAt: Option<nat>)
      requires Valid()
      modifies this
      ensures Valid() && vaults == old(vaults) + [Vault(discoveredAt, false, false)] && indexed == old(indexed)
              && scans == old(scans)
    {
      var v := Vault(discoveredAt, false, false);
      vaults := vaults + [v];
      cover := cover + [Coverage({}, ScanStart(v, indexStart) - 1)];
    }

    /** In every state a scanned vault is complete through a height exactly up to the height recorded. */
    lemma ScannedExactly(id: nat, h: int)
      requires Valid() && id < |vaults| && vaults[id].synced
      ensures Covers(cover[id].read, Start(id), h) <==> h <= cover[id].complete
    {
      SettledExact(cover[id], Start(id), indexStart, indexed, h);
    }

    /** A rollback deletes what was read above the fork; scans and cursor go back with it. */
    method RolledBack(fork: int, emptied: nat -> bool)
      requires Valid()
      modifies this
      ensures Valid() && indexed == fork && vaults == Unready(old(vaults), emptied)
      ensures cover == RolledCovers(old(vaults), old(cover), indexStart, fork) && scans == RolledScans(old(scans), fork)
    {
      RollbackAll(vaults, cover, scans, indexStart, indexed, fork, emptied);
      cover := RolledCovers(vaults, cover, indexStart, fork);
      vaults := Unready(vaults, emptied);
      scans := RolledScans(scans, fork);
      indexed := fork;
    }

    /** Syncs one vault over a range and stores the outcome; `finish` is false for a scan that continues. */
    method Sync(id: nat, from: nat, to: nat, finish: bool, stored: bool, answer: Answer)
      requires id < |vaults| == |cover|
      modifies this`vaults, this`cover
      ensures vaults == old(vaults)[id := Synced(old(vaults)[id], finish, stored, answer)]
      ensures answer.Done? && finish ==>
                vaults[id].synced && (vaults[id].ready <==> old(vaults)[id].ready || answer.applied || stored)
      ensures answer.Refused? && answer.unsafe ==> !vaults[id].ready
      ensures !(answer.Done? && finish) && !(answer.Refused? && answer.unsafe) ==> vaults == old(vaults)
      ensures cover == if answer.Done?
                then old(cover)[id := Visited(old(cover)[id], FirstFor(old(Start(id)), from), to)] else old(cover)
    {
      if answer.Done? {
        cover := cover[id := Visited(cover[id], FirstFor(Start(id), from), to)];
        if finish {
          vaults := vaults[id := vaults[id].(synced := true, ready := vaults[id].ready || answer.applied || stored)];
        }
      } else if answer.Refused? && answer.unsafe {
        vaults := vaults[id := vaults[id].(ready := false)];
      }
    }

    /** Syncs a scanned vault over the tick's window. */
    method SyncWindow(id: nat, from: nat, latest: nat, answer: Answer)
      requires Valid() && id < |vaults| && vaults[id].synced
               && InTurn(vaults[id], None, from, latest, indexStart, indexed)
      modifies this`vaults, this`cover
      ensures Valid() && vaults == old(vaults)[id := Synced(old(vaults)[id], true, false, answer)]
      ensures cover == if answer.Done?
                then old(cover)[id := Visited(old(cover)[id], FirstFor(old(Start(id)), from), latest)] else old(cover)
    {
      WindowTracked(vaults[id], cover[id], from, latest, answer, indexStart, indexed);
      Sync(id, from, latest, true, false, answer);
    }

    /** The running scan of a vault, started or restarted when its start changed. */
    method OpenScan(id: nat) returns (scan: Scan)
      requires Valid() && id < |vaults| && !vaults[id].synced
      modifies this`scans
      ensures Valid() && ScanOf(scans, id) == Some(scan)
      ensures scans == old(scans)[id := scan] && (id in old(scans) ==> scan == old(scans)[id])
    {
      assert Tracked(vaults[id], cover[id], ScanOf(scans, id), indexStart, indexed);
      var start := ScanStart(vaults[id], indexStart);
      if id in scans && scans[id].start == start { return scans[id]; }
      scan := Scan(start, start);
      scans := scans[id := scan];
    }

    /** Only vault `id` has changed, what was read stays read, and no start has moved. */
    ghost predicate Advanced(id: nat, before: seq<Vault>, had: seq<Coverage>)
      reads this
    {
      && |vaults| == |before| == |cover| == |had| && id < |vaults|
      && (forall j :: 0 <= j < |vaults| && j != id ==> vaults[j] == before[j] && cover[j] == had[j])
      && had[id].read <= cover[id].read
      && vaults[id].discoveredAt == before[id].discoveredAt
    }

    /** A finished scan has read everything from the vault's start to the tip. */
    ghost predicate DoneCovers(id: nat, latest: nat)
      reads this
    {
      && id < |vaults| && id < |cover|
      && (vaults[id].synced ==> cover[id] == Coverage(Range(Start(id), latest), latest))
    }

    /** One step of a running scan: done and continuing, done and finished, refused, or failed. */
    method ScanStep(id: nat, scan: Scan, latest: nat, stored: bool, answered: Answer)
      returns (more: bool, failed: bool, next: Scan)
      requires Valid() && id < |vaults| && ScanOf(scans, id) == Some(scan) && !vaults[id].synced
      modifies this`vaults, this`scans, this`cover
      ensures Valid() && Advanced(id, old(vaults), old(cover))
      ensures more ==> !failed && !vaults[id].synced && ScanOf(scans, id) == Some(next)
                       && next == Scan(scan.start, StepEnd(scan, latest) + 1)
      ensures DoneCovers(id, latest) && (vaults[id].synced ==> !failed)
      ensures !more && !vaults[id].synced && !failed ==> answered.Refused?
    {
      more, failed, next := false, false, scan;
      var last := StepEnd(scan, latest);
      // A tip behind the scan makes the range invalid, and its fetch throws.
      var a := if scan.next > last && answered.Done? then Failed else answered;
      assert Tracked(vaults[id], cover[id], Some(scan), indexStart, indexed);
      if a.Done? { StepTracked(vaults[id], cover[id], scan, last, a, stored, last == latest, indexStart, indexed); }
      Sync(id, scan.next, last, last == latest, stored, a);
      if a.Failed? { failed := true; return; }
      if a.Refused? { return; }
      if last == latest {
        scans := scans - {id};
        return;
      }
      next := Scan(scan.start, last + 1);
      scans := scans[id := next];
      more := true;
    }

    /**
     Advances one first scan by at most `budget` requests. A step continues where the last one ended and spans at
     most EVENT_QUERY_BLOCK_SPAN blocks; a refused account leaves the scan as it is, and a failure ends the tick.
     */
    method FirstScan(id: nat, latest: nat, budget: nat, stored: bool, answer: (nat, nat, nat) -> Answer)
      returns (left: nat, failed: bool, steps: seq<Step>)
      requires Valid() && id < |vaults| && !vaults[id].synced
      modifies this`vaults, this`scans, this`cover
      ensures Valid() && Advanced(id, old(vaults), old(cover)) && left + |steps| == budget && StepsOf(steps, id, latest)
      ensures DoneCovers(id, latest) && (vaults[id].synced ==> !failed)
      ensures !vaults[id].synced && !failed && left > 0 ==>
                steps != [] && answer(id, steps[|steps| - 1].from, steps[|steps| - 1].to).Refused?
    {
      left, failed, steps := budget, false, [];
      var scan := OpenScan(id);
      var more := true;
      while left > 0 && more
        invariant Valid() && Advanced(id, old(vaults), old(cover)) && left + |steps| == budget
                  && StepsOf(steps, id, latest)
        invariant more ==> !failed && !vaults[id].synced && ScanOf(scans, id) == Some(scan)
        invariant more && steps != [] ==> scan.next == steps[|steps| - 1].to + 1
        invariant DoneCovers(id, latest) && (vaults[id].synced ==> !failed)
        invariant !more && !vaults[id].synced && !failed ==>
                    steps != [] && answer(id, steps[|steps| - 1].from, steps[|steps| - 1].to).Refused?
        decreases left
      {
        left := left - 1;
        var last := StepEnd(scan, latest);
        StepsSnoc(steps, id, latest, Step(id, scan.next, last));
        steps := steps + [Step(id, scan.next, last)];
        more, failed, scan := ScanStep(id, scan, latest, stored, answer(id, scan.next, last));
      }
    }

    /**
     A contract that was scanned but has no event yet replays the tick's window, from its own start at the earliest.
     */
    method Replay(id: nat, from: nat, latest: nat, answer: (nat, nat, nat) -> Answer)
      returns (failed: bool, ghost read: bool)
      requires Valid() && id < |vaults| && vaults[id].synced && from == WindowStart(indexStart, indexed)
               && Runs(indexStart, indexed, latest)
      modifies this`vaults, this`cover
      ensures Valid() && |vaults| == |old(vaults)| && vaults[id].synced
              && vaults[id].discoveredAt == old(vaults)[id].discoveredAt
      ensures vaults == old(vaults)[id := vaults[id]]
      ensures cover == old(cover)[id :=
                                  AfterTick(old(cover)[id], Start(id), indexStart, indexed,
                                            Ticked(latest, read, false))]
    {
      var floor := if vaults[id].discoveredAt.Some? then vaults[id].discoveredAt.value else 0;
      var first := if floor > from then floor else from;
      read := false;
      if first > latest { return false, false; }
      var a := answer(id, first, latest);
      SyncWindow(id, first, latest, a);
      return a.Failed?, a.Done?;
    }

    /** What a tick did so far: what was read stays read, no start moved, and a scanned vault stayed scanned. */
    ghost predicate Grown(before: seq<Vault>, had: seq<Coverage>)
      reads this
    {
      && |vaults| == |before| == |cover| == |had|
      && forall j :: 0 <= j < |had| ==>
           had[j].read <= cover[j].read && vaults[j].discoveredAt == before[j].discoveredAt
           && (before[j].synced ==> vaults[j].synced)
    }

    /**
     Whoever finished a first scan has every block from its start to the tip, and every scanned vault has seen its
     window.
     */
    ghost predicate Swept(before: seq<Vault>, had: seq<Coverage>, latest: nat, read: seq<bool>)
      reads this
    {
      && |vaults| == |before| == |cover| == |had| == |read|
      && forall j :: 0 <= j < |vaults| ==>
           && (before[j].synced ==>
                 cover[j] == AfterTick(had[j], Start(j), indexStart, indexed, Ticked(latest, read[j], false)))
           && (!before[j].synced && vaults[j].synced ==>
               cover[j].complete == latest && Covers(cover[j].read, Start(j), latest))
    }

    /** One unready contract: a replay if it was scanned before, else steps of its first scan. */
    method RescanOne(id: nat, from: nat, latest: nat, budget: nat, stored: bool, answer: (nat, nat, nat) -> Answer)
      returns (left: nat, failed: bool, ghost read: bool)
      requires Valid() && id < |vaults| && from == WindowStart(indexStart, indexed) && Runs(indexStart, indexed, latest)
      modifies this`vaults, this`scans, this`cover
      ensures Valid() && Advanced(id, old(vaults), old(cover)) && left <= budget
              && (old(vaults)[id].synced ==> vaults[id].synced)
      ensures if old(vaults)[id].synced
                then cover[id] == AfterTick(old(cover)[id], Start(id), indexStart, indexed, Ticked(latest, read, false))
              else vaults[id].synced ==> cover[id].complete == latest && Covers(cover[id].read, Start(id), latest)
    {
      left, failed, read := budget, false, false;
      if vaults[id].synced {
        failed, read := Replay(id, from, latest, answer);
      } else if ScanStart(vaults[id], indexStart) <= latest {
        var steps;
        left, failed, steps := FirstScan(id, latest, budget, stored, answer);
      }
    }

    /** Scans every unready contract, with one request budget for all first scans together. */
    method RescanUnready(from: nat, latest: nat, stored: nat -> bool, answer: (nat, nat, nat) -> Answer)
      returns (failed: bool, requests: nat, ghost read: seq<bool>)
      requires Valid() && from == WindowStart(indexStart, indexed) && Runs(indexStart, indexed, latest)
      modifies this`vaults, this`scans, this`cover
      ensures Valid() && Grown(old(vaults), old(cover)) && Swept(old(vaults), old(cover), latest, read)
      ensures requests <= 5
      ensures forall j ::
                0 <= j < |vaults| && old(vaults)[j].ready ==>
                  vaults[j] == old(vaults)[j] && cover[j] == old(cover)[j] && !read[j]
    {
      failed := false;
      var left: nat := FIRST_SCAN_STEPS_PER_TICK;
      var unready := vaults;
      read := seq(|vaults|, i => false);
      Unscanned();
      scans := map id | id in scans && id < |unready| && !unready[id].ready && !unready[id].synced :: scans[id];
      for id := 0 to |unready|
        invariant Valid() && Grown(unready, old(cover)) && Swept(unready, old(cover), latest, read)
                  && left <= FIRST_SCAN_STEPS_PER_TICK
        invariant Untouched(unready, old(cover), id, read)
      {
        if !unready[id].ready {
          ghost var before, had, was := vaults, cover, read;
          ghost var r;
          left, failed, r := RescanOne(id, from, latest, left, stored(id), answer);
          read := read[id := r];
          StepSweeps(id, unready, before, old(cover), had, latest, was, r);
          if failed { return true, FIRST_SCAN_STEPS_PER_TICK - left, read; }
        }
      }
      requests := FIRST_SCAN_STEPS_PER_TICK - left;
    }

    /** Only unscanned vaults have scans, so clearing those of others drops none. */
    lemma Unscanned()
      requires Valid()
      ensures scans == map id | id in scans && id < |vaults| && !vaults[id].ready && !vaults[id].synced :: scans[id]
    {
      forall id | id in scans ensures id < |vaults| && !vaults[id].ready && !vaults[id].synced {
        assert Tracked(vaults[id], cover[id], ScanOf(scans, id), indexStart, indexed);
      }
    }

    /** Vaults that were ready, and vaults from `id` on, are as they were. */
    ghost predicate Untouched(before: seq<Vault>, had: seq<Coverage>, id: nat, read: seq<bool>)
      reads this
    {
      && |vaults| == |before| == |cover| == |had| == |read|
      && forall j :: 0 <= j < |vaults| && (id <= j || before[j].ready) ==>
           vaults[j] == before[j] && cover[j] == had[j] && !read[j]
    }

    lemma StepSweeps(id: nat, start: seq<Vault>, before: seq<Vault>, first: seq<Coverage>, had: seq<Coverage>,
                     latest: nat,
                     was: seq<bool>, r: bool)
      requires |start| == |before| == |first| == |had| == |was| && Advanced(id, before, had)
      requires !start[id].ready && before[id] == start[id] && had[id] == first[id]
               && (start[id].synced ==> vaults[id].synced)
      requires forall j ::
                 0 <= j < |before| && (id <= j || start[j].ready) ==>
                   before[j] == start[j] && had[j] == first[j] && !was[j]
      requires forall j :: 0 <= j < |before| ==>
                 && first[j].read <= had[j].read && before[j].discoveredAt == start[j].discoveredAt
                    && (start[j].synced ==> before[j].synced)
                 && (start[j].synced ==>
                       had[j] == AfterTick(first[j], ScanStart(before[j], indexStart), indexStart, indexed,
                                           Ticked(latest, was[j], false)))
                 && (!start[j].synced && before[j].synced ==>
                       had[j].complete == latest && Covers(had[j].read, ScanStart(before[j], indexStart), latest))
      requires if start[id].synced
                 then cover[id] == AfterTick(had[id], Start(id), indexStart, indexed, Ticked(latest, r, false))
               else vaults[id].synced ==> cover[id].complete == latest && Covers(cover[id].read, Start(id), latest)
      ensures Grown(start, first) && Swept(start, first, latest, was[id := r])
              && Untouched(start, first, id + 1, was[id := r])
    {
    }

    /** Reads the tick's window for every ready contract; a refusal does not stop the sweep, a failure does. */
    method SyncKnown(from: nat, latest: nat, answer: (nat, nat, nat) -> Answer)
      returns (failed: bool, ghost read: seq<bool>)
      requires Valid() && from == WindowStart(indexStart, indexed) && Runs(indexStart, indexed, latest)
      modifies this`vaults, this`cover
      ensures Valid() && scans == old(scans) && SweptReady(old(vaults), old(cover), latest, read)
      ensures forall j :: 0 <= j < |vaults| && !old(vaults)[j].ready ==> !read[j]
      ensures !failed ==> forall j ::
                0 <= j < |vaults| && old(vaults)[j].ready ==>
                  && read[j] == answer(j, from, latest).Done?
                  && (vaults[j].ready <==> answer(j, from, latest) != Refused(true))
    {
      failed := false;
      var known := vaults;
      read := seq(|vaults|, i => false);
      for id := 0 to |known|
        invariant Valid() && !failed && SweptReady(known, old(cover), latest, read)
        invariant forall j :: id <= j < |vaults| ==> vaults[j] == known[j] && cover[j] == old(cover)[j] && !read[j]
        invariant forall j :: 0 <= j < |vaults| && !known[j].ready ==> !read[j]
        invariant forall j :: 0 <= j < id && known[j].ready ==>
                    && read[j] == answer(j, from, latest).Done?
                    && (vaults[j].ready <==> answer(j, from, latest) != Refused(true))
      {
        if known[id].ready {
          assert Tracked(vaults[id], cover[id], ScanOf(scans, id), indexStart, indexed);
          var a := answer(id, from, latest);
          SyncWindow(id, from, latest, a);
          read := read[id := a.Done?];
          if a.Failed? { failed := true; return; }
        }
      }
    }

    /** Scanned or not, no vault changed but by its window. */
    ghost predicate SweptReady(before: seq<Vault>, had: seq<Coverage>, latest: nat, read: seq<bool>)
      reads this
    {
      && |vaults| == |before| == |cover| == |had| == |read|
      && forall j :: 0 <= j < |vaults| ==>
           && vaults[j].synced == before[j].synced && vaults[j].discoveredAt == before[j].discoveredAt
           && cover[j] == AfterTick(had[j], Start(j), indexStart, indexed, Ticked(latest, read[j], false))
    }

    /** Every scanned vault stayed scanned and has seen the window where it was read. */
    ghost predicate SawWindow(before: seq<Vault>, had: seq<Coverage>, latest: nat, read: seq<bool>)
      reads this
    {
      && |read| == |vaults| == |before| == |cover| == |had|
      && forall j :: 0 <= j < |vaults| && before[j].synced ==>
           vaults[j].synced && cover[j]
           == AfterTick(had[j], Start(j), indexStart, indexed, Ticked(latest, read[j], false))
    }

    /** A vault read in either half of a tick has read the tick's window. */
    lemma BothHalves(before: seq<Vault>, had: seq<Coverage>, middle: seq<Vault>, mid: seq<Coverage>, latest: nat,
                     first: seq<bool>, second: seq<bool>, read: seq<bool>)
      requires |vaults| == |before| == |cover| == |had| == |middle| == |mid| == |first| == |second| == |read|
      requires Runs(indexStart, indexed, latest) && forall j :: 0 <= j < |read| ==> read[j] == (first[j] || second[j])
      requires forall j :: 0 <= j < |vaults| ==>
                 && vaults[j].synced == middle[j].synced
                    && vaults[j].discoveredAt == middle[j].discoveredAt == before[j].discoveredAt
                 && (before[j].synced ==> middle[j].synced)
                 && (before[j].synced ==>
                       mid[j] == AfterTick(had[j], Start(j), indexStart, indexed, Ticked(latest, first[j], false)))
                 && cover[j] == AfterTick(mid[j], Start(j), indexStart, indexed, Ticked(latest, second[j], false))
      ensures SawWindow(before, had, latest, read)
    {
      forall j | 0 <= j < |vaults| && before[j].synced
        ensures cover[j] == AfterTick(had[j], Start(j), indexStart, indexed, Ticked(latest, read[j], false))
      {
        VisitedTwice(had[j], FirstFor(Start(j), WindowStart(indexStart, indexed)), latest);
      }
    }

    function Either(first: seq<bool>, second: seq<bool>): (r: seq<bool>)
      requires |first| == |second|
      ensures |r| == |first| && forall j :: 0 <= j < |r| ==> r[j] == (first[j] || second[j])
    {
      seq(|first|, j requires 0 <= j < |first| => first[j] || second[j])
    }

    /** Both halves of a tick that found no rollback: unready contracts, then ready ones. */
    method Sweep(from: nat, latest: nat, stored: nat -> bool, answer: (nat, nat, nat) -> Answer)
      returns (failed: bool, requests: nat, ghost read: seq<bool>)
      requires Valid() && from == WindowStart(indexStart, indexed) && Runs(indexStart, indexed, latest)
      modifies this`vaults, this`scans, this`cover
      ensures Valid() && requests <= 5 && SawWindow(old(vaults), old(cover), latest, read)
      ensures Grown(old(vaults), old(cover)) && Completed(old(vaults), old(cover), from, latest, read)
      ensures forall j ::
                0 <= j < |vaults| && vaults[j].synced && !old(vaults)[j].synced ==>
                  Covers(cover[j].read, Start(j), latest)
      ensures !failed ==> forall j ::
                0 <= j < |vaults| && old(vaults)[j].ready ==>
                  && read[j] == answer(j, from, latest).Done?
                  && (vaults[j].ready <==> answer(j, from, latest) != Refused(true))
    {
      ghost var before, had := vaults, cover;
      ghost var first, second;
      failed, requests, first := RescanUnready(from, latest, stored, answer);
      ghost var middle, mid := vaults, cover;
      second := seq(|vaults|, i => false);
      if !failed { failed, second := SyncKnown(from, latest, answer); }
      read := Either(first, second);
      BothHalves(before, had, middle, mid, latest, first, second, read);
      WindowsComplete(before, had, latest, read);
    }

    /** Whoever read the window is complete through the tip exactly when it had everything before the window. */
    ghost predicate Completed(before: seq<Vault>, had: seq<Coverage>, from: nat, latest: nat, read: seq<bool>)
      reads this
    {
      && |read| == |vaults| == |before| == |cover| == |had|
      && forall j :: 0 <= j < |vaults| && before[j].synced && read[j] ==>
           (Covers(cover[j].read, Start(j), latest) <==> Covers(had[j].read, Start(j), from - 1))
    }

    lemma WindowsComplete(before: seq<Vault>, had: seq<Coverage>, latest: nat, read: seq<bool>)
      requires SawWindow(before, had, latest, read) && Runs(indexStart, indexed, latest)
      ensures Completed(before, had, WindowStart(indexStart, indexed), latest, read)
    {
      forall j | 0 <= j < |vaults| && before[j].synced && read[j]
        ensures Covers(cover[j].read, Start(j), latest)
                <==> Covers(had[j].read, Start(j), WindowStart(indexStart, indexed) - 1)
      {
        TickCompletes(had[j], Start(j), indexStart, indexed, Ticked(latest, read[j], false));
      }
    }

    /** The tick as each vault saw it. */
    ghost predicate SeenAs(seen: seq<Seen>, before: seq<Vault>, had: seq<Coverage>, cursor: int)
      reads this
    {
      && |seen| == |vaults| == |before| == |cover| == |had|
      && forall j :: 0 <= j < |vaults| && before[j].synced ==>
           && vaults[j].synced && cover[j] == AfterTick(had[j], Start(j), indexStart, cursor, seen[j])
           && indexed == CursorAfter(indexStart, cursor, seen[j])
    }

    /**
     One tick. A rollback rewinds cursor and scans and ends the tick. Otherwise the cursor moves only forward, to the
     tip, and only when every sync returned. `seen` is the tick as each vault saw it: coverage and cursor of every
     scanned vault follow it, whether the tick succeeded or not.
     */
    method Tick(latest: nat, rollback: Option<int>, emptied: nat -> bool, stored: nat -> bool,
                answer: (nat, nat, nat) -> Answer)
      returns (ok: bool, requests: nat, ghost seen: seq<Seen>)
      requires Valid()
      modifies this
      ensures Valid() && requests <= 5 && SeenAs(seen, old(vaults), old(cover), old(indexed))
      ensures forall j :: 0 <= j < |seen| ==>
                if rollback.Some? then seen[j] == RolledTo(rollback.value)
                else seen[j].Ticked? && seen[j].latest == latest && seen[j].ok == ok
      ensures rollback.Some? ==> indexed == rollback.value
      ensures rollback.None? ==>
                indexed == (if ok then latest else old(indexed)) && indexed >= old(indexed)
                && Grown(old(vaults), old(cover))
      ensures rollback.None? && ok ==> forall j :: 0 <= j < |vaults| && old(vaults)[j].ready ==>
                var a := answer(j, WindowStart(indexStart, old(indexed)), latest);
                seen[j].Ticked? && seen[j].answered == a.Done? && (vaults[j].ready <==> a != Refused(true))
      ensures rollback.None? && ok ==> forall j ::
                0 <= j < |vaults| && old(vaults)[j].synced && seen[j].Ticked? && seen[j].answered ==>
                (Covers(cover[j].read, Start(j), latest) <==>
                 Covers(old(cover)[j].read, Start(j), WindowStart(indexStart, old(indexed)) - 1))
      ensures rollback.None? ==> forall j :: 0 <= j < |vaults| && vaults[j].synced && !old(vaults)[j].synced ==>
                Covers(cover[j].read, Start(j), latest)
    {
      requests := 0;
      if rollback.Some? {
        seen := seq(|vaults|, i => RolledTo(rollback.value));
        RolledBack(rollback.value, emptied);
        return true, 0, seen;
      }
      var from := WindowStart(indexStart, indexed);
      if latest < indexed || latest < from { return false, 0, seq(|vaults|, i => Ticked(latest, false, false)); }
      var failed;
      ghost var read;
      failed, requests, read := Sweep(from, latest, stored, answer);
      seen := seq(|read|, i requires 0 <= i < |read| => Ticked(latest, read[i], !failed));
      if !failed { Advance(latest); }
      return !failed, requests, seen;
    }

    /** Moves the cursor to the tip. */
    method Advance(latest: nat)
      requires Valid() && indexed <= latest
      modifies this`indexed
      ensures Valid() && indexed == latest
    {
      forall j | 0 <= j < |vaults| ensures Tracked(vaults[j], cover[j], ScanOf(scans, j), indexStart, latest) {
        CursorTracked(vaults[j], cover[j], ScanOf(scans, j), indexStart, indexed, latest);
      }
      indexed := latest;
    }
  }

  function Rewound(s: Scan, fork: int): Scan {
    var capped: int := if s.next <= fork + 1 then s.next else fork + 1;
    Scan(s.start, if capped > s.start then capped else s.start)
  }

  /** The last block of a scan's next request. */
  function StepEnd(s: Scan, latest: nat): nat {
    if s.next + EVENT_QUERY_BLOCK_SPAN - 1 < latest then s.next + EVENT_QUERY_BLOCK_SPAN - 1 else latest
  }

  /** Contiguous requests of bounded size for one vault. */
  predicate StepsOf(steps: seq<Step>, id: nat, latest: nat) {
    && (forall i :: 0 <= i < |steps| ==>
          steps[i].vault == id && steps[i].to <= latest && steps[i].to < steps[i].from + 5000)
    && (forall i :: 0 < i < |steps| ==> steps[i].from == steps[i - 1].to + 1)
  }

  lemma StepsSnoc(steps: seq<Step>, id: nat, latest: nat, step: Step)
    requires StepsOf(steps, id, latest) && step.vault == id && step.to <= latest
             && step.to < step.from + EVENT_QUERY_BLOCK_SPAN
    requires steps != [] ==> step.from == steps[|steps| - 1].to + 1
    ensures StepsOf(steps + [step], id, latest)
  {
  }
}
