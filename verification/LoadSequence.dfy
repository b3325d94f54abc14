/**
 Loads against an honest archive, one after another while the guard moves on.

 Whatever a load starts from, it ends with the guard's contents. Starting from what an earlier load
 recorded, the increment alone succeeds exactly when the recorded block left no vote and no execution behind.
 */
module LoadSequence {
  import opened Primitives
  import opened Sequences
  import opened Guards
  import opened GuardInvariant
  import opened Ledger
  import opened LedgerInvariant
  import opened Executions
  import opened Storage
  import opened EventRebuild
  import opened EventSourcing
  import opened EventRoots
  import opened OwnerReplay
  import opened EventCompleteness
  import opened Reorg
  import opened HonestEvents
  import opened CallGroups
  import opened StoreCheckpoint

  function ContentsOf(g: Guard): Contents { Contents(OwnerList(g), g.approvals, g.voteNullifiers) }

  /** The account state of a guard as read from the chain. */
  function ChainStateOf(g: Guard): ChainState {
    ChainState(Some(g.ownersCommitment), Some(g.approvals), Some(g.voteNullifiers))
  }

  function LastHeight(es: seq<Emitted>): (h: nat) { if es == [] then 0 else es[|es| - 1].height }

  /** What a load should leave behind: the guard's contents, through the block of its last event. */
  function HonestBasis(g: Guard): (b: Basis) { Basis(ContentsOf(g), Some(LastHeight(g.events))) }

  /** The archive's complete answer from a block on, in any order and with repetitions. */
  ghost predicate AnswersFrom(rows: seq<Row>, es: seq<Emitted>, from: int) {
    forall r :: r in rows <==> r in RowsOf(es) && r.height.value >= from
  }

  /** Both reads of the account return the guard's state, and both answers of the archive are complete. */
  ghost predicate AnswersHonestly(g: Guard, basis: Option<Basis>, source: Source) {
    && source.chainSince == source.chainAll == Some(ChainStateOf(g))
    && source.all.Some? && SameElements(source.all.value, RowsOf(g.events))
    && (Incremental(basis) ==> source.since.Some? && AnswersFrom(source.since.value, g.events, Behind(basis) + 1))
  }

  // ---- any basis ----

  /**
   An attempt that succeeded against a guard's true state holds that guard's contents, and the guard is initialized.
   */
  lemma SuccessMatchesGuard(initial: Option<Contents>, from: int, rows: Option<seq<Row>>, g: Guard, order: Base58)
    requires Succeeds(initial, from, rows, Some(ChainStateOf(g)), order)
    ensures Initialized(g) && RebuiltContents(rows.value, initial, order) == ContentsOf(g)
  {
  }

  lemma InitializedRoots(w: World, a: PublicKey)
    requires Reachable(w) && a in w.guards && Initialized(w.guards[a])
    ensures ChainStateOf(w.guards[a]) == RootsOf(ContentsOf(w.guards[a]))
  {
    HierarchyCapped(w, a);
  }

  /** With every event of an initialized guard, in any order, the full attempt succeeds with the guard's contents. */
  lemma {:induction false} HonestReplaySucceeds(w: World, a: PublicKey, all: seq<Row>, order: Base58)
    requires Reachable(w) && a in w.guards && Initialized(w.guards[a]) && SameElements(all, RowsOf(w.guards[a].events))
    ensures Succeeds(None, 0, Some(all), Some(ChainStateOf(w.guards[a])), order)
    ensures RebuiltContents(all, None, order) == ContentsOf(w.guards[a])
  {
    RebuildIsComplete(w, a, all, order);
    InitializedRoots(w, a);
  }

  /**
   Whatever the cached entry or snapshot and whatever the incremental answer, a load given all events and
   the chain state returns the guard's contents; before setup it returns and records nothing.
   */
  lemma {:induction false} EveryLoadDelivers(w: World, a: PublicKey, basis: Option<Basis>, source: Source,
                                             order: Base58)
    requires Reachable(w) && a in w.guards && source.all.Some?
             && SameElements(source.all.value, RowsOf(w.guards[a].events))
    requires source.chainSince == source.chainAll == Some(ChainStateOf(w.guards[a]))
    ensures Outcome(basis, source, order).Some? <==> Initialized(w.guards[a])
    ensures Outcome(basis, source, order).Some? ==>
              Outcome(basis, source, order).value.contents == ContentsOf(w.guards[a])
  {
    var g := w.guards[a];
    if Initialized(g) { HonestReplaySucceeds(w, a, source.all.value, order); }
    if SinceResult(basis, source, order).Some? {
      SuccessMatchesGuard(Initial(basis), Behind(basis) + 1, source.since, g, order);
    } else if AttemptResult(None, source.all, source.chainAll, order).Some? {
      SuccessMatchesGuard(None, 0, source.all, g, order);
    }
  }

  // ---- the recorded block ----

  /** Rows of heights up to `m`, one of them `m` unless the basis is already there, are recorded as `m`. */
  lemma {:induction false} RecordedBlock(rows: seq<Row>, from: Option<int>, m: nat)
    requires forall r :: r in rows ==> Placed(r) && r.height.value <= m
    requires (from.Some? ==> 0 <= from.value <= m) && (from == Some(m) || exists r :: r in rows && r.height == Some(m))
    ensures Through(rows, from) == Some(m)
  {
    if rows != [] {
      var next := Later(from, rows[0].height.value);
      assert rows == [rows[0]] + rows[1..];
      RecordedBlock(rows[1..], next, m);
    }
  }

  lemma {:induction false} RowAt(es: seq<Emitted>, r: Row) returns (i: nat)
    requires r in RowsOf(es)
    ensures i < |es| && RowOf(es[i]) == r
  {
    i :| 0 <= i < |es| && RowsOf(es)[i] == r;
  }

  lemma {:induction false} LastRowRecorded(es: seq<Emitted>, now: nat, rows: seq<Row>, from: Option<int>)
    requires HeightsInv(es, now) && es != [] && (from.Some? ==> 0 <= from.value <= LastHeight(es))
    requires AnswersFrom(rows, es, if from.Some? then from.value + 1 else 0)
    ensures Through(rows, from) == Some(LastHeight(es))
  {
    forall r | r in rows ensures Placed(r) && r.height.value <= LastHeight(es) { var i := RowAt(es, r); }
    if from != Some(LastHeight(es)) {
      assert RowsOf(es)[|es| - 1] in rows;
    }
    RecordedBlock(rows, from, LastHeight(es));
  }

  lemma HasEvents(w: World, a: PublicKey)
    requires Reachable(w) && a in w.guards && Initialized(w.guards[a])
    ensures w.guards[a].events != []
  {
    HierarchyCapped(w, a);
    if w.guards[a].events == [] { RebuildIsComplete(w, a, [], _ => 0); }
  }

  /** A first load records the guard through its last event. */
  lemma {:induction false} FirstLoad(w: World, a: PublicKey, source: Source, order: Base58)
    requires Reachable(w) && a in w.guards && AnswersHonestly(w.guards[a], None, source)
    ensures Outcome(None, source, order) == if Initialized(w.guards[a]) then Some(HonestBasis(w.guards[a])) else None
  {
    EveryLoadDelivers(w, a, None, source, order);
    if Initialized(w.guards[a]) { FullRecord(w, a, source, order); }
  }

  lemma FullRecord(w: World, a: PublicKey, source: Source, order: Base58)
    requires Reachable(w) && a in w.guards && Initialized(w.guards[a])
    requires source.all.Some? && SameElements(source.all.value, RowsOf(w.guards[a].events))
             && source.chainAll == Some(ChainStateOf(w.guards[a]))
    ensures AttemptResult(None, source.all, source.chainAll, order) == Some(HonestBasis(w.guards[a]))
  {
    HonestReplaySucceeds(w, a, source.all.value, order);
    ReachableEvents(w, a, order);
    HasEvents(w, a);
    LastRowRecorded(w.guards[a].events, w.height, source.all.value, None);
  }

  // ---- what the recorded block left behind ----

  /** Events emitted after a state was loaded, yet in the block recorded for it. */
  function LeftBehind(g: Guard, g': Guard): (es: seq<Emitted>)
  {
    var cut := Cut(g'.events, LastHeight(g.events));
    if |g.events| <= cut then g'.events[|g.events|..cut] else []
  }

  predicate ExecutesHere(e: Event) { e.Execution? && !ExecutesForParent(Some(e.txType)) }

  predicate Harmless(es: seq<Emitted>) {
    forall i :: 0 <= i < |es| ==> !es[i].event.Approval? && !ExecutesHere(es[i].event)
  }

  /** What is known of a guard's events and of an earlier, shorter history that ended at a call. */
  ghost predicate History(es: seq<Emitted>, n: nat, now: nat) {
    && 0 < n <= |es| && HeightsInv(es, now) && NoRepeats(es) && InGroups(es) && InGroups(es[..n])
    && forall i :: 0 <= i < |es| ==> Typed(es[i].event)
  }

  /** The state an increment builds from the first `n` events and the rows above the recorded block. */
  function Advanced<K(!new)>(es: seq<Emitted>, n: nat, rows: seq<Row>, write: Row -> Option<Write<K>>): map<K, nat>
    requires n <= |es|
  {
    RaiseAll(RaiseAll(map[], RowsOf(es[..n]), write), rows, write)
  }

  predicate Kept(es: seq<Emitted>, n: nat, i: nat) {
    i < |es| && 0 < n <= |es| && (i < n || es[i].height > es[n - 1].height)
  }

  /** A leaf the increment builds was written by a kept event. */
  lemma {:induction false} Writer<K(!new)>(es: seq<Emitted>, n: nat, rows: seq<Row>, write: Row -> Option<Write<K>>,
                                           k: K) returns (i: nat)
    requires 0 < n <= |es| && AnswersFrom(rows, es, es[n - 1].height + 1) && Leaf(Advanced(es, n, rows, write), k) > 0
    ensures Kept(es, n, i) && write(RowOf(es[i])) == Some(Write(k, Leaf(Advanced(es, n, rows, write), k)))
  {
    var before := RaiseAll(map[], RowsOf(es[..n]), write);
    RaisedLeaf(before, rows, write, k);
    RaisedLeaf(map[], RowsOf(es[..n]), write, k);
    var v := Leaf(Advanced(es, n, rows, write), k);
    if v == Leaf(before, k) {
      var r :| r in RowsOf(es[..n]) && WritesTo(r, write, k, v);
      i := RowAt(es[..n], r);
    } else {
      var r :| r in rows && WritesTo(r, write, k, v);
      i := RowAt(es, r);
    }
  }

  /** An event left behind is not kept, and no kept event has its subject. */
  lemma {:induction false} NotKept(es: seq<Emitted>, n: nat, now: nat, i: nat, j: nat)
    requires History(es, n, now) && n <= j < Cut(es, es[n - 1].height) && Kept(es, n, i)
    ensures i != j && !SameSubject(es[i].event, es[j].event)
  {
    CutSplits(es, es[n - 1].height, j);
    if SameSubject(es[i].event, es[j].event) { OneIndex(es, i, j); }
  }

  /** A kept proposal keeps its proposer's approval. */
  lemma {:induction false} KeptGroup(es: seq<Emitted>, n: nat, now: nat, i: nat)
    requires History(es, n, now) && Kept(es, n, i) && es[i].event.Proposed?
    ensures var last := i + 1 + |es[i].event.hash.receivers|;
            Kept(es, n, last) && es[last].event.Approval? && es[last].event.hash == es[i].event.hash
              && es[last].event.approver == es[i].event.proposer
  {
    assert GroupedAt(es, i);
    if i < n {
      assert es[..n][i] == es[i] && GroupedAt(es[..n], i);
    }
  }

  lemma {:induction false} MissedVote(es: seq<Emitted>, n: nat, now: nat, rows: seq<Row>, j: nat)
    requires History(es, n, now) && AnswersFrom(rows, es, es[n - 1].height + 1)
    requires n <= j < Cut(es, es[n - 1].height) && es[j].event.Approval?
    ensures Advanced(es, n, rows, VoteWrite) != RaiseAll(map[], RowsOf(es), VoteWrite)
  {
    var k := VoteKey(es[j].event.hash, es[j].event.approver);
    LeafOfRow(es, j, VoteWrite);
    if Leaf(Advanced(es, n, rows, VoteWrite), k) > 0 {
      var i := Writer(es, n, rows, VoteWrite, k);
      NotKept(es, n, now, i, j);
      KeptGroupApart(es, n, now, i, j);
    }
  }

  /** No kept event writes the vote of an approval left behind. */
  lemma {:induction false} KeptGroupApart(es: seq<Emitted>, n: nat, now: nat, i: nat, j: nat)
    requires History(es, n, now) && Kept(es, n, i) && n <= j < Cut(es, es[n - 1].height) && es[j].event.Approval?
    requires !SameSubject(es[i].event, es[j].event)
    ensures VoteWrite(RowOf(es[i])) == None
            || VoteWrite(RowOf(es[i])).value.key != VoteKey(es[j].event.hash, es[j].event.approver)
  {
    if es[i].event.Proposed? {
      KeptGroup(es, n, now, i);
      NotKept(es, n, now, i + 1 + |es[i].event.hash.receivers|, j);
    }
  }

  lemma {:induction false} MissedExecution(es: seq<Emitted>, n: nat, now: nat, rows: seq<Row>, j: nat)
    requires History(es, n, now) && AnswersFrom(rows, es, es[n - 1].height + 1)
    requires n <= j < Cut(es, es[n - 1].height) && ExecutesHere(es[j].event)
    ensures Advanced(es, n, rows, ApprovalWrite) != RaiseAll(map[], RowsOf(es), ApprovalWrite)
  {
    var h := es[j].event.hash;
    LeafOfRow(es, j, ApprovalWrite);
    if Leaf(Advanced(es, n, rows, ApprovalWrite), h) >= EXECUTED_MARKER {
      var i := Writer(es, n, rows, ApprovalWrite, h);
      NotKept(es, n, now, i, j);
      OnlyItMarks(es, i, es[j].event);
    }
  }

  /** No event but its execution marks a proposal executed. */
  lemma {:induction false} OnlyItMarks(es: seq<Emitted>, i: nat, execution: Event)
    requires i < |es| && GroupedAt(es, i) && execution.Execution? && !SameSubject(es[i].event, execution)
    ensures ApprovalWrite(RowOf(es[i])).Some? && ApprovalWrite(RowOf(es[i])).value.key == execution.hash
            ==> ApprovalWrite(RowOf(es[i])).value.value < EXECUTED_MARKER
  {
  }

  /** Missing a vote or an execution of the guard shows in the rebuilt maps. */
  lemma {:induction false} MissedShows(es: seq<Emitted>, n: nat, now: nat, rows: seq<Row>)
    requires History(es, n, now) && AnswersFrom(rows, es, es[n - 1].height + 1) && n <= Cut(es, es[n - 1].height)
    requires !Harmless(es[n..Cut(es, es[n - 1].height)])
    ensures || Advanced(es, n, rows, VoteWrite) != RaiseAll(map[], RowsOf(es), VoteWrite)
            || Advanced(es, n, rows, ApprovalWrite) != RaiseAll(map[], RowsOf(es), ApprovalWrite)
  {
    var left := es[n..Cut(es, es[n - 1].height)];
    var k :| 0 <= k < |left| && (left[k].event.Approval? || ExecutesHere(left[k].event));
    assert left[k] == es[n + k];
    if left[k].event.Approval? { MissedVote(es, n, now, rows, n + k); } else {
      MissedExecution(es, n, now, rows, n + k);
    }
  }

  // ---- what may be missed ----

  /** A proposal left behind leaves its proposer's approval behind too. */
  lemma {:induction false} ProposalWithVote(es: seq<Emitted>, n: nat, now: nat, j: nat)
    requires History(es, n, now) && n <= j < Cut(es, es[n - 1].height) && es[j].event.Proposed?
    ensures var last := j + 1 + |es[j].event.hash.receivers|;
            last < Cut(es, es[n - 1].height) && es[last].event.Approval?
  {
    assert GroupedAt(es, j);
    CutSplits(es, es[n - 1].height, j);
    CutSplits(es, es[n - 1].height, j + 1 + |es[j].event.hash.receivers|);
  }

  /** An owner change left behind leaves its execution behind too. */
  lemma {:induction false} ChangeWithExecution(es: seq<Emitted>, n: nat, now: nat, j: nat)
    requires History(es, n, now) && n <= j < Cut(es, es[n - 1].height) && es[j].event.OwnerChange?
    ensures j > n && ExecutesHere(es[j - 1].event)
  {
    assert GroupedAt(es, j);
    assert es[..n][n - 1] == es[n - 1] && GroupedAt(es[..n], n - 1);
  }

  /** Without a vote and an execution, nothing left behind writes a map or changes the owners. */
  lemma {:induction false} HarmlessIsQuiet(es: seq<Emitted>, n: nat, now: nat, j: nat)
    requires History(es, n, now) && n <= j < Cut(es, es[n - 1].height)
    requires forall i :: n <= i < Cut(es, es[n - 1].height) ==> !es[i].event.Approval? && !ExecutesHere(es[i].event)
    ensures var r := RowOf(es[j]); ApprovalWrite(r) == None && VoteWrite(r) == None && ChangeOf(r) == None
  {
    if es[j].event.Proposed? { ProposalWithVote(es, n, now, j); }
    if es[j].event.OwnerChange? { ChangeWithExecution(es, n, now, j); }
  }

  lemma {:induction false} QuietRows(es: seq<Emitted>, n: nat, now: nat)
    requires History(es, n, now) && n <= Cut(es, es[n - 1].height) && Harmless(es[n..Cut(es, es[n - 1].height)])
    ensures forall r ::
              r in RowsOf(es[n..Cut(es, es[n - 1].height)]) ==>
                ApprovalWrite(r) == None && VoteWrite(r) == None && ChangeOf(r) == None
  {
    var left := es[n..Cut(es, es[n - 1].height)];
    forall i | n <= i < Cut(es, es[n - 1].height) ensures !es[i].event.Approval? && !ExecutesHere(es[i].event) {
      assert es[i] == left[i - n];
    }
    forall r | r in RowsOf(left) ensures ApprovalWrite(r) == None && VoteWrite(r) == None && ChangeOf(r) == None {
      var i := RowAt(left, r);
      HarmlessIsQuiet(es, n, now, n + i);
    }
  }

  lemma {:induction false} AboveCut(es: seq<Emitted>, now: nat, height: int, rows: seq<Row>)
    requires HeightsInv(es, now) && AnswersFrom(rows, es, height + 1)
    ensures SameElements(rows, RowsOf(es[Cut(es, height)..]))
  {
    forall r | r in rows ensures r in RowsOf(es[Cut(es, height)..]) { AboveIsLate(es, now, height, r); }
    forall r | r in RowsOf(es[Cut(es, height)..]) ensures r in rows { LateIsAbove(es, now, height, r); }
  }

  lemma {:induction false} LateIsAbove(es: seq<Emitted>, now: nat, height: int, r: Row)
    requires HeightsInv(es, now) && r in RowsOf(es[Cut(es, height)..])
    ensures r in RowsOf(es) && r.height.value >= height + 1
  {
    var cut := Cut(es, height);
    var i := RowAt(es[cut..], r);
    CutSplits(es, height, cut + i);
    assert RowsOf(es)[cut + i] == r;
  }

  lemma {:induction false} AboveIsLate(es: seq<Emitted>, now: nat, height: int, r: Row)
    requires HeightsInv(es, now) && r in RowsOf(es) && r.height.value >= height + 1
    ensures r in RowsOf(es[Cut(es, height)..])
  {
    var cut := Cut(es, height);
    var i := RowAt(es, r);
    CutSplits(es, height, i);
    assert RowsOf(es[cut..])[i - cut] == r;
  }

  lemma {:induction false} SkippedWrites<K(!new)>(m: map<K, nat>, left: seq<Emitted>, late: seq<Emitted>,
                                                  rows: seq<Row>, write: Row -> Option<Write<K>>)
    requires Canonical(m) && SameElements(rows, RowsOf(late)) && forall r :: r in RowsOf(left) ==> write(r) == None
    ensures RaiseAll(m, rows, write) == RaiseAll(m, RowsOf(left + late), write)
  {
    RowsConcat(left, late);
    RaiseAllConcat(m, RowsOf(left), RowsOf(late), write);
    RaiseAllNone(m, RowsOf(left), write);
    RaiseAllSame(m, rows, RowsOf(late), write);
  }

  lemma {:induction false} SkippedChanges(left: seq<Emitted>, late: seq<Emitted>, rows: seq<Row>)
    requires SameElements(rows, RowsOf(late)) && forall r :: r in RowsOf(left) ==> ChangeOf(r) == None
    requires StrictlyAscending(Collect(RowsOf(left + late), ChangeOf), NonceOf)
    ensures OrderedChanges(rows) == OrderedChanges(RowsOf(left + late))
  {
    RowsConcat(left, late);
    CollectConcat(RowsOf(left), RowsOf(late), ChangeOf);
    CollectNone(RowsOf(left), ChangeOf);
    assert Collect(RowsOf(left + late), ChangeOf) == Collect(RowsOf(late), ChangeOf);
    ChangesRestored(rows, RowsOf(late));
    ChangesRestored(RowsOf(left + late), RowsOf(left + late));
  }

  // ---- the increment, exactly ----

  lemma HistoryOf(w: World, acts: seq<Action>, a: PublicKey)
    requires Reachable(w) && a in w.guards && Initialized(w.guards[a])
    ensures var g, g' := w.guards[a], Read(Run(w, acts), a);
            g.events <= g'.events && History(g'.events, |g.events|, Run(w, acts).height)
  {
    GuardEvolves(w, acts, a);
    ReachableRun(w, acts);
    HasEvents(w, a);
    ReachableGrouped(w, a);
    ReachableGrouped(Run(w, acts), a);
    ReachableEvents(Run(w, acts), a, _ => 0);
    ReachableSubjects(Run(w, acts), a);
    var g, g' := w.guards[a], Run(w, acts).guards[a];
    assert g'.events[..|g.events|] == g.events;
  }

  lemma {:induction false} CutBeyond(es: seq<Emitted>, n: nat, now: nat)
    requires 0 < n <= |es| && HeightsInv(es, now)
    ensures n <= Cut(es, es[n - 1].height)
  {
    CutSplits(es, es[n - 1].height, n - 1);
  }

  /** Harmless events left behind change nothing of what the increment rebuilds. */
  lemma {:induction false} HarmlessIncrement(g: Guard, g': Guard, now: nat, rows: seq<Row>, order: Base58)
    requires g.events <= g'.events && History(g'.events, |g.events|, now) && MapsInv(g) && ReplayInv(g', order)
    requires AnswersFrom(rows, g'.events, LastHeight(g.events) + 1) && Harmless(LeftBehind(g, g'))
    ensures RebuiltContents(rows, Some(ContentsOf(g)), order)
            == RebuiltContents(RowsOf(EmittedSince(g, g')), Some(ContentsOf(g)), order)
  {
    var late := g'.events[Cut(g'.events, LastHeight(g.events))..];
    LateRows(g, g', now, rows);
    LateChangesAscend(g, g', order);
    SkippedContents(g, LeftBehind(g, g'), late, rows, order);
  }

  lemma LeftBehindIs(g: Guard, g': Guard, now: nat)
    requires g.events <= g'.events && g.events != [] && HeightsInv(g'.events, now)
    ensures var cut := Cut(g'.events, LastHeight(g.events));
            |g.events| <= cut && LeftBehind(g, g') == g'.events[|g.events|..cut]
  {
    assert g'.events[|g.events| - 1] == g.events[|g.events| - 1];
    CutBeyond(g'.events, |g.events|, now);
  }

  /** The answer holds the later events except those left behind, which are quiet. */
  lemma {:induction false} LateRows(g: Guard, g': Guard, now: nat, rows: seq<Row>)
    requires g.events <= g'.events && History(g'.events, |g.events|, now)
    requires AnswersFrom(rows, g'.events, LastHeight(g.events) + 1) && Harmless(LeftBehind(g, g'))
    ensures var late := g'.events[Cut(g'.events, LastHeight(g.events))..];
            EmittedSince(g, g') == LeftBehind(g, g') + late && SameElements(rows, RowsOf(late))
    ensures forall r ::
              r in RowsOf(LeftBehind(g, g')) ==> ApprovalWrite(r) == None && VoteWrite(r) == None && ChangeOf(r) == None
  {
    var es, n := g'.events, |g.events|;
    assert es[n - 1] == g.events[n - 1];
    LeftBehindIs(g, g', now);
    SplitAt(es, n, Cut(es, es[n - 1].height));
    QuietRows(es, n, now);
    AboveCut(es, now, es[n - 1].height, rows);
  }

  lemma {:induction false} SplitAt(es: seq<Emitted>, n: nat, cut: nat)
    requires n <= cut <= |es|
    ensures es[n..] == es[n..cut] + es[cut..]
  {
  }

  lemma {:induction false} SkippedContents(g: Guard, left: seq<Emitted>, late: seq<Emitted>, rows: seq<Row>,
                                           order: Base58)
    requires MapsInv(g) && SameElements(rows, RowsOf(late))
             && StrictlyAscending(Collect(RowsOf(left + late), ChangeOf), NonceOf)
    requires forall r :: r in RowsOf(left) ==> ApprovalWrite(r) == None && VoteWrite(r) == None && ChangeOf(r) == None
    ensures RebuiltContents(rows, Some(ContentsOf(g)), order)
            == RebuiltContents(RowsOf(left + late), Some(ContentsOf(g)), order)
  {
    SkippedChanges(left, late, rows);
    SkippedMaps(g, left, late, rows);
  }

  lemma LateChangesAscend(g: Guard, g': Guard, order: Base58)
    requires g.events <= g'.events && ReplayInv(g', order)
    ensures StrictlyAscending(Collect(RowsOf(EmittedSince(g, g')), ChangeOf), NonceOf)
  {
    var late := EmittedSince(g, g');
    assert g'.events == g.events + late;
    RowsConcat(g.events, late);
    CollectConcat(RowsOf(g.events), RowsOf(late), ChangeOf);
    AscendingTail(Changes(g), Collect(RowsOf(late), ChangeOf), NonceOf);
  }

  lemma {:induction false} SkippedMaps(g: Guard, left: seq<Emitted>, late: seq<Emitted>, rows: seq<Row>)
    requires MapsInv(g) && SameElements(rows, RowsOf(late)) && forall r ::
               r in RowsOf(left) ==> ApprovalWrite(r) == None && VoteWrite(r) == None
    ensures RaiseAll(g.approvals, rows, ApprovalWrite) == RaiseAll(g.approvals, RowsOf(left + late), ApprovalWrite)
    ensures RaiseAll(g.voteNullifiers, rows, VoteWrite) == RaiseAll(g.voteNullifiers, RowsOf(left + late), VoteWrite)
  {
    FoldIsCanonical(RowsOf(g.events), ApprovalWrite);
    FoldIsCanonical(RowsOf(g.events), VoteWrite);
    SkippedWrites(g.approvals, left, late, rows, ApprovalWrite);
    SkippedWrites(g.voteNullifiers, left, late, rows, VoteWrite);
  }

  lemma {:induction false} FoldIsCanonical<K(!new)>(rows: seq<Row>, write: Row -> Option<Write<K>>)
    ensures Canonical(RaiseAll(map[], rows, write))
  {
    if k: K :| k in RaiseAll(map[], rows, write) { RaisedLeaf(map[], rows, write, k); }
  }

  /** A vote or an execution left behind keeps the rebuilt maps from matching. */
  lemma HarmfulIncrement(g: Guard, g': Guard, now: nat, rows: seq<Row>, order: Base58)
    requires g.events <= g'.events && History(g'.events, |g.events|, now) && MapsInv(g) && MapsInv(g')
    requires AnswersFrom(rows, g'.events, LastHeight(g.events) + 1) && !Harmless(LeftBehind(g, g'))
    ensures RebuiltContents(rows, Some(ContentsOf(g)), order) != ContentsOf(g')
  {
    var es, n := g'.events, |g.events|;
    assert es[n - 1] == g.events[n - 1] && es[..n] == g.events;
    CutBeyond(es, n, now);
    MissedShows(es, n, now, rows);
  }

  /**
   From what an honest load recorded, the increment with all rows above the recorded block succeeds exactly
   when no vote and no execution of the guard was left behind in that block, and then records the guard anew.
   */
  lemma {:induction false} IncrementExactly(w: World, acts: seq<Action>, a: PublicKey, source: Source, order: Base58)
    requires Reachable(w) && a in w.guards && Initialized(w.guards[a])
    requires AnswersHonestly(Read(Run(w, acts), a), Some(HonestBasis(w.guards[a])), source)
    ensures var g, g' := w.guards[a], Read(Run(w, acts), a);
            SinceResult(Some(HonestBasis(g)), source, order) == if Harmless(LeftBehind(g, g'))
              then Some(HonestBasis(g')) else None
  {
    var g, g' := w.guards[a], Read(Run(w, acts), a);
    var rows := source.since.value;
    IncrementContents(w, acts, a, rows, order);
    GuardEvolves(w, acts, a);
    ReachableRun(w, acts);
    ParentIsForever(w, acts, a);
    InitializedRoots(Run(w, acts), a);
    HistoryOf(w, acts, a);
    RecordedAnew(g, g', Run(w, acts).height, rows);
    ExactResult(g, g', rows, source, order);
  }

  lemma IncrementContents(w: World, acts: seq<Action>, a: PublicKey, rows: seq<Row>, order: Base58)
    requires Reachable(w) && a in w.guards && Initialized(w.guards[a])
    requires AnswersFrom(rows, Read(Run(w, acts), a).events, LastHeight(w.guards[a].events) + 1)
    ensures var g, g' := w.guards[a], Read(Run(w, acts), a);
            RebuiltContents(rows, Some(ContentsOf(g)), order) == ContentsOf(g') <==> Harmless(LeftBehind(g, g'))
  {
    var g, g' := w.guards[a], Read(Run(w, acts), a);
    HistoryOf(w, acts, a);
    GuardEvolves(w, acts, a);
    ReachableRun(w, acts);
    ReachableEvents(w, a, order);
    ReachableEvents(Run(w, acts), a, order);
    if Harmless(LeftBehind(g, g')) {
      HarmlessIncrement(g, g', Run(w, acts).height, rows, order);
      AdvancedContents(w, acts, a, RowsOf(EmittedSince(g, g')), order);
    } else {
      HarmfulIncrement(g, g', Run(w, acts).height, rows, order);
    }
  }

  lemma {:induction false} AdvancedContents(w: World, acts: seq<Action>, a: PublicKey, rows: seq<Row>, order: Base58)
    requires Reachable(w) && a in w.guards && Initialized(w.guards[a])
    requires SameElements(rows, RowsOf(EmittedSince(w.guards[a], Read(Run(w, acts), a))))
    ensures RebuiltContents(rows, Some(ContentsOf(w.guards[a])), order) == ContentsOf(Read(Run(w, acts), a))
  {
    IncrementalIsComplete(w, acts, a, rows, order);
  }

  lemma RecordedAnew(g: Guard, g': Guard, now: nat, rows: seq<Row>)
    requires g.events <= g'.events && History(g'.events, |g.events|, now)
             && AnswersFrom(rows, g'.events, LastHeight(g.events) + 1)
    ensures Through(rows, Some(LastHeight(g.events))) == Some(LastHeight(g'.events))
            && FromBlock(rows, LastHeight(g.events) + 1)
  {
    assert g'.events[|g.events| - 1] == g.events[|g.events| - 1];
    LastRowRecorded(g'.events, now, rows, Some(LastHeight(g.events)));
  }

  lemma ExactResult(g: Guard, g': Guard, rows: seq<Row>, source: Source, order: Base58)
    requires source.since == Some(rows) && source.chainSince == Some(ChainStateOf(g'))
             && ChainStateOf(g') == RootsOf(ContentsOf(g'))
    requires RebuiltContents(rows, Some(ContentsOf(g)), order) == ContentsOf(g') <==> Harmless(LeftBehind(g, g'))
    requires Through(rows, Some(LastHeight(g.events))) == Some(LastHeight(g'.events))
             && FromBlock(rows, LastHeight(g.events) + 1)
    ensures SinceResult(Some(HonestBasis(g)), source, order) == if Harmless(LeftBehind(g, g'))
              then Some(HonestBasis(g')) else None
  {
    if SinceResult(Some(HonestBasis(g)), source, order).Some? {
      SuccessMatchesGuard(Some(ContentsOf(g)), LastHeight(g.events) + 1, Some(rows), g', order);
    }
  }

  // ---- one load after another ----

  /** A later load returns the guard's contents and records its last block, in one attempt unless the block was cut. */
  lemma {:induction false} NextLoad(w: World, acts: seq<Action>, a: PublicKey, source: Source, order: Base58)
    requires Reachable(w) && a in w.guards && Initialized(w.guards[a])
    requires AnswersHonestly(Read(Run(w, acts), a), Some(HonestBasis(w.guards[a])), source)
    ensures Outcome(Some(HonestBasis(w.guards[a])), source, order) == Some(HonestBasis(Read(Run(w, acts), a)))
  {
    IncrementExactly(w, acts, a, source, order);
    GuardEvolves(w, acts, a);
    ReachableRun(w, acts);
    ParentIsForever(w, acts, a);
    FullRecord(Run(w, acts), a, source, order);
  }

  /**
   A load, what happened on chain before it, and the earlier load whose record it starts from: by the cached entry or
   by the snapshot that load wrote. None when neither is left.
   */
  datatype Visit = Visit(acts: seq<Action>, source: Source, from: Option<nat>)

  function WorldAt(w: World, visits: seq<Visit>): (r: World)
  {
    if visits == [] then w else Run(WorldAt(w, visits[..|visits| - 1]), visits[|visits| - 1].acts)
  }

  /** What the last load starts from. */
  function StartOf(visits: seq<Visit>, order: Base58): (b: Option<Basis>)
    requires visits != []
    decreases |visits|, 0
  {
    var from := visits[|visits| - 1].from;
    if from.Some? && from.value < |visits| - 1 then RecordedBy(visits[..from.value + 1], order) else None
  }

  /** What the last load records. */
  function RecordedBy(visits: seq<Visit>, order: Base58): (b: Option<Basis>)
    requires visits != []
    decreases |visits|, 1
  {
    Outcome(StartOf(visits, order), visits[|visits| - 1].source, order)
  }

  /** Every load got honest answers about the guard as it was then. */
  ghost predicate AllHonest(w: World, a: PublicKey, visits: seq<Visit>, order: Base58) {
    visits == [] || (
      && AllHonest(w, a, visits[..|visits| - 1], order)
      && a in WorldAt(w, visits).guards
      && AnswersHonestly(WorldAt(w, visits).guards[a], StartOf(visits, order), visits[|visits| - 1].source))
  }

  lemma {:induction false} ReachableAt(w: World, visits: seq<Visit>)
    requires Reachable(w)
    ensures Reachable(WorldAt(w, visits))
  {
    if visits != [] {
      ReachableAt(w, visits[..|visits| - 1]);
      ReachableRun(WorldAt(w, visits[..|visits| - 1]), visits[|visits| - 1].acts);
    }
  }

  lemma {:induction false} HonestBefore(w: World, a: PublicKey, visits: seq<Visit>, order: Base58, n: nat)
    requires AllHonest(w, a, visits, order) && n <= |visits|
    ensures AllHonest(w, a, visits[..n], order)
  {
    if n == |visits| {
      assert visits[..n] == visits;
    } else {
      HonestBefore(w, a, visits[..|visits| - 1], order, n);
      assert visits[..|visits| - 1][..n] == visits[..n];
    }
  }

  /** The world of a later load is a continuation of an earlier one's. */
  lemma {:induction false} ActsBetween(w: World, visits: seq<Visit>, n: nat) returns (acts: seq<Action>)
    requires n <= |visits|
    ensures WorldAt(w, visits) == Run(WorldAt(w, visits[..n]), acts)
  {
    if n == |visits| {
      acts := [];
      assert visits[..n] == visits;
    } else {
      var init, last := visits[..|visits| - 1], visits[|visits| - 1];
      var before := ActsBetween(w, init, n);
      assert init[..n] == visits[..n];
      acts := before + last.acts;
      RunConcat(WorldAt(w, visits[..n]), before, last.acts);
    }
  }

  /**
   However many honest loads there were while the guard moved on, each starting from nothing or from the cached or
   persisted record of any earlier one, each records exactly the guard it saw, and nothing before setup.
   */
  lemma {:induction false} LoadsFollowTheGuard(w: World, a: PublicKey, visits: seq<Visit>, order: Base58)
    requires Reachable(w) && visits != [] && AllHonest(w, a, visits, order)
    ensures var g := Read(WorldAt(w, visits), a);
            RecordedBy(visits, order) == if Initialized(g) then Some(HonestBasis(g)) else None
    decreases |visits|
  {
    ReachableAt(w, visits);
    if StartOf(visits, order).Some? {
      var n := visits[|visits| - 1].from.value + 1;
      HonestBefore(w, a, visits, order, n);
      LoadsFollowTheGuard(w, a, visits[..n], order);
      LaterLoad(w, a, visits, order, n);
    } else {
      FirstLoad(WorldAt(w, visits), a, visits[|visits| - 1].source, order);
    }
  }

  /** A load that starts from the record of an earlier one. */
  lemma {:induction false} LaterLoad(w: World, a: PublicKey, visits: seq<Visit>, order: Base58, n: nat)
    requires Reachable(w) && 0 < n < |visits| && AllHonest(w, a, visits, order)
    requires a in WorldAt(w, visits[..n]).guards && Initialized(WorldAt(w, visits[..n]).guards[a])
    requires StartOf(visits, order) == Some(HonestBasis(WorldAt(w, visits[..n]).guards[a]))
    ensures Initialized(Read(WorldAt(w, visits), a))
    ensures RecordedBy(visits, order) == Some(HonestBasis(Read(WorldAt(w, visits), a)))
  {
    ReachableAt(w, visits[..n]);
    var acts := ActsBetween(w, visits, n);
    NextLoad(WorldAt(w, visits[..n]), acts, a, visits[|visits| - 1].source, order);
    ParentIsForever(WorldAt(w, visits[..n]), acts, a);
  }

  // ---- whole blocks ----

  /** Once the recorded block is over, nothing is left behind in it. */
  lemma {:induction false} WholeBlockLeavesNothing(w: World, acts: seq<Action>, a: PublicKey)
    requires Reachable(w) && a in w.guards && Initialized(w.guards[a]) && LastHeight(w.guards[a].events) < w.height
    ensures LeftBehind(w.guards[a], Read(Run(w, acts), a)) == []
  {
    var g, g' := w.guards[a], Read(Run(w, acts), a);
    HistoryOf(w, acts, a);
    EmittedLater(w, acts, a);
    var cut := Cut(g'.events, LastHeight(g.events));
    if cut > |g.events| {
      CutSplits(g'.events, LastHeight(g.events), |g.events|);
    }
  }

  lemma {:induction false} EmittedLater(w: World, acts: seq<Action>, a: PublicKey)
    requires a in w.guards
    ensures a in Run(w, acts).guards && w.height <= Run(w, acts).height
    ensures var es := Run(w, acts).guards[a].events;
            |w.guards[a].events| <= |es| && forall i :: |w.guards[a].events| <= i < |es| ==> es[i].height >= w.height
  {
    if acts != [] {
      var init, last := acts[..|acts| - 1], acts[|acts| - 1];
      EmittedLater(w, init, a);
      var mid := Run(w, init);
      if Can(mid, last) && last.Invoke? && last.at == a {
        CallEmits(mid, a, last.call);
        Called(mid, last, a);
      } else {
        Uncalled(mid, last, a);
      }
    }
  }
}
