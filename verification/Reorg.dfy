/**
 Rollback and replay reconstruct the tables: after a reorganization the index holds what indexing the
 new chain from empty tables would hold, and reading overlapping ranges again changes nothing.
 */
module Reorg {
  import opened Primitives
  import opened Sequences
  import opened Guards
  import opened EventOrder
  import opened IndexTables

  predicate HeightsAscend(c: seq<ChainEvent>) { forall i, j :: 0 <= i < j < |c| ==> c[i].height <= c[j].height }

  /** What indexing a chain's events from empty tables in one batch yields. */
  function Indexed(c: seq<ChainEvent>): (t: Tables) { IngestAll(EMPTY_TABLES, c, 0) }

  // ---- equality up to the absolute order column ----

  /** Snapshot rows without their batch positions. */
  function Unnumbered(rows: seq<ConfigRow>): (r: seq<ConfigRow>)
    ensures |r| == |rows| && forall i :: 0 <= i < |rows| ==> r[i] == rows[i].(order := 0)
  {
    seq(|rows|, i requires 0 <= i < |rows| => rows[i].(order := 0))
  }

  predicate SameRows(a: seq<ConfigRow>, b: seq<ConfigRow>) { Unnumbered(a) == Unnumbered(b) }

  predicate Ordered(rows: seq<ConfigRow>) { forall i, j :: 0 <= i < j < |rows| ==> Newer(rows[j], rows[i]) }

  /** A row at this block and order would be newer than all of these. */
  predicate Before(rows: seq<ConfigRow>, block: nat, order: nat) {
    forall i :: 0 <= i < |rows| ==> rows[i].block < block || (rows[i].block == block && rows[i].order < order)
  }

  /** The same tables, except that snapshot rows may carry other batch positions in the same order. */
  predicate Same(t: Tables, s: Tables) {
    && t.(configs := Unnumbered(t.configs)) == s.(configs := Unnumbered(s.configs))
    && Ordered(t.configs) && Ordered(s.configs)
  }

  lemma {:induction false} LatestIsLast(rows: seq<ConfigRow>)
    requires Ordered(rows)
    ensures Latest(rows) == if rows == [] then None else Some(rows[|rows| - 1])
  {
    if rows != [] { LatestIsLast(rows[..|rows| - 1]); }
  }

  lemma SnapshotSame(a: seq<ConfigRow>, b: seq<ConfigRow>, block: nat, i: nat, j: nat, changes: ConfigFields)
    requires SameRows(a, b) && Ordered(a) && Ordered(b) && Before(a, block, i) && Before(b, block, j)
    ensures SameRows(AppendSnapshot(a, block, i, changes), AppendSnapshot(b, block, j, changes))
    ensures Ordered(AppendSnapshot(a, block, i, changes)) && Before(AppendSnapshot(a, block, i, changes), block, i + 1)
    ensures Ordered(AppendSnapshot(b, block, j, changes)) && Before(AppendSnapshot(b, block, j, changes), block, j + 1)
  {
    LatestIsLast(a);
    LatestIsLast(b);
  }

  lemma IngestSame(t: Tables, s: Tables, e: ChainEvent, i: nat, j: nat)
    requires Same(t, s) && Before(t.configs, e.height, i) && Before(s.configs, e.height, j)
    ensures Same(Ingest(t, e, i), Ingest(s, e, j))
    ensures Before(Ingest(t, e, i).configs, e.height, i + 1) && Before(Ingest(s, e, j).configs, e.height, j + 1)
  {
    if FingerprintOf(e) !in t.raw {
      var changes := ChangesBy(t, e.event);
      assert ChangesBy(RecordEvent(t, e), e.event) == changes == ChangesBy(RecordEvent(s, e), e.event);
      if changes.Some? { SnapshotSame(t.configs, s.configs, e.height, i, j, changes.value); }
    }
  }

  /** Both tables are ready to take event `k` of a batch at their own positions. */
  predicate InStep(es: seq<ChainEvent>, i: nat, j: nat, t: Tables, s: Tables, k: nat) {
    Same(t, s) && (k < |es| ==> Before(t.configs, es[k].height, i + k) && Before(s.configs, es[k].height, j + k))
  }

  lemma StepsTogether(es: seq<ChainEvent>, i: nat, j: nat, t: Tables, s: Tables, k: nat)
    requires HeightsAscend(es) && k < |es| && InStep(es, i, j, t, s, k)
    ensures InStep(es, i, j, Ingest(t, es[k], i + k), Ingest(s, es[k], j + k), k + 1)
  {
    IngestSame(t, s, es[k], i + k, j + k);
    if k + 1 < |es| {
      BeforeLater(Ingest(t, es[k], i + k).configs, es[k].height, es[k + 1].height, i + k + 1);
      BeforeLater(Ingest(s, es[k], j + k).configs, es[k].height, es[k + 1].height, j + k + 1);
    }
  }

  lemma IngestAllSame(t: Tables, s: Tables, es: seq<ChainEvent>, i: nat, j: nat)
    requires HeightsAscend(es) && Same(t, s)
    requires es != [] ==> Before(t.configs, es[0].height, i) && Before(s.configs, es[0].height, j)
    ensures Same(IngestAll(t, es, i), IngestAll(s, es, j))
  {
    var rel := (x: Tables, y: Tables, k: nat) => InStep(es, i, j, x, y, k);
    forall k: nat, x: Tables, y: Tables | k < |es| && rel(x, y, k)
      ensures rel(Ingest(x, es[k], i + k), Ingest(y, es[k], j + k), k + 1) {
      StepsTogether(es, i, j, x, y, k);
    }
    FoldRelated(t, s, es, i, j, Ingest, rel);
  }

  lemma BeforeLater(rows: seq<ConfigRow>, block: nat, later: nat, order: nat)
    requires Before(rows, block, order) && block <= later
    ensures Before(rows, later, order)
  {
  }

  // ---- re-reading ----

  lemma {:induction false} RawGrows(t: Tables, es: seq<ChainEvent>, base: nat, f: Fingerprint)
    ensures f in IngestAll(t, es, base).raw <==> f in t.raw || exists i :: 0 <= i < |es| && FingerprintOf(es[i]) == f
  {
    if es != [] {
      var init, last := es[..|es| - 1], es[|es| - 1];
      RawGrows(t, init, base, f);
      if i :| 0 <= i < |es| && FingerprintOf(es[i]) == f { assert i < |init| ==> FingerprintOf(init[i]) == f; }
      if i :| 0 <= i < |init| && FingerprintOf(init[i]) == f { assert FingerprintOf(es[i]) == f; }
      if FingerprintOf(last) == f { assert FingerprintOf(es[|es| - 1]) == f; }
    }
  }

  /** Events already recorded are skipped, whatever their position in the batch. */
  lemma {:induction false} RereadChangesNothing(t: Tables, es: seq<ChainEvent>, base: nat)
    requires forall i :: 0 <= i < |es| ==> FingerprintOf(es[i]) in t.raw
    ensures IngestAll(t, es, base) == t
  {
    if es != [] { RereadChangesNothing(t, es[..|es| - 1], base); }
  }

  /** Every row is tagged with a height of at most `height`, and belongs to a present proposal. */
  ghost predicate TaggedUpTo(t: Tables, height: int) {
    && (forall h :: h in t.headers ==> h <= height)
    && (forall f :: f in t.raw ==> f.height <= height)
    && (forall i :: 0 <= i < |t.configs| ==> t.configs[i].block <= height)
    && (forall i :: 0 <= i < |t.members| ==> t.members[i].block <= height)
    && (forall h :: h in t.proposals ==> t.proposals[h].createdAt <= height)
    && (forall k :: k in t.approvals ==> t.approvals[k].block <= height && k.hash in t.proposals)
    && (forall h :: h in t.executions ==> t.executions[h].block <= height && h in t.proposals)
  }

  lemma IngestTagged(t: Tables, e: ChainEvent, order: nat, height: int)
    requires TaggedUpTo(t, height) && e.height <= height
    ensures TaggedUpTo(Ingest(t, e, order), height)
  {
  }

  lemma {:induction false} IndexedTagged(es: seq<ChainEvent>, height: int)
    requires forall i :: 0 <= i < |es| ==> es[i].height <= height
    ensures TaggedUpTo(Indexed(es), height)
  {
    if es != [] {
      IndexedTagged(es[..|es| - 1], height);
      IngestTagged(Indexed(es[..|es| - 1]), es[|es| - 1], |es| - 1, height);
    }
  }

  lemma IndexedOrdered(es: seq<ChainEvent>)
    requires HeightsAscend(es)
    ensures Same(Indexed(es), Indexed(es))
  {
    IngestAllSame(EMPTY_TABLES, EMPTY_TABLES, es, 0, 0);
  }

  /** `n` separates the blocks up to `height` from those above. */
  predicate CutAt(c: seq<ChainEvent>, n: nat, height: int) {
    && n <= |c|
    && (forall i :: 0 <= i < n ==> c[i].height <= height)
    && (forall i :: n <= i < |c| ==> c[i].height > height)
  }

  /**
   Tables that hold a chain through some block, given the events of any window of blocks that
   starts no later than the next block, hold the chain through the end of the window.
   */
  lemma {:induction false} WindowExtends(t: Tables, c: seq<ChainEvent>, from: nat, n: nat, to: nat, height: int)
    requires HeightsAscend(c) && CutAt(c, n, height) && from <= n <= to <= |c|
    requires Same(t, Indexed(c[..n]))
    ensures Same(IngestAll(t, c[from..to], 0), Indexed(c[..to]))
  {
    OverlapSkipped(t, c, from, n);
    WindowIsNews(t, c, from, n, to);
    IndexedGrows(c, n, to);
    if n < |c| { IndexedBefore(t, c, n, height, n - from); }
    IngestAllSame(t, Indexed(c[..n]), c[n..to], n - from, n);
  }

  lemma IndexedGrows(c: seq<ChainEvent>, n: nat, to: nat)
    requires n <= to <= |c|
    ensures Indexed(c[..to]) == IngestAll(Indexed(c[..n]), c[n..to], n)
  {
    assert c[..to] == c[..n] + c[n..to];
    FoldConcat(EMPTY_TABLES, c[..n], c[n..to], 0, Ingest);
  }

  lemma WindowIsNews(t: Tables, c: seq<ChainEvent>, from: nat, n: nat, to: nat)
    requires from <= n <= to <= |c| && IngestAll(t, c[from..n], 0) == t
    ensures IngestAll(t, c[from..to], 0) == IngestAll(t, c[n..to], n - from)
  {
    assert c[from..to] == c[from..n] + c[n..to];
    FoldConcat(t, c[from..n], c[n..to], 0, Ingest);
  }

  lemma OverlapSkipped(t: Tables, c: seq<ChainEvent>, from: nat, n: nat)
    requires from <= n <= |c| && t.raw == Indexed(c[..n]).raw
    ensures IngestAll(t, c[from..n], 0) == t
  {
    var again := c[from..n];
    forall i | 0 <= i < |again| ensures FingerprintOf(again[i]) in t.raw {
      assert again[i] == c[..n][from + i];
      RawGrows(EMPTY_TABLES, c[..n], 0, FingerprintOf(again[i]));
    }
    RereadChangesNothing(t, again, 0);
  }

  /** Rows of blocks up to the cut precede any row of the next event. */
  lemma IndexedBefore(t: Tables, c: seq<ChainEvent>, n: nat, height: int, order: nat)
    requires CutAt(c, n, height) && n < |c| && SameRows(t.configs, Indexed(c[..n]).configs)
    ensures Before(t.configs, c[n].height, order) && Before(Indexed(c[..n]).configs, c[n].height, n)
  {
    IndexedTagged(c[..n], height);
  }

  // ---- rollback ----

  predicate SameSubject(a: Event, b: Event) {
    || (a.Proposed? && b.Proposed? && a.hash == b.hash)
    || (a.Approval? && b.Approval? && a.hash == b.hash && a.approver == b.approver)
    || (a.Execution? && b.Execution? && a.hash == b.hash)
  }

  /**
   What the contract guarantees of the events of one chain: one proposal, one approval per voter and
   one execution per hash, and receiver slots in the block of their proposal.
   */
  predicate Honest(c: seq<ChainEvent>) {
    && (forall i, j :: 0 <= i < j < |c| && SameSubject(c[i].event, c[j].event) ==>
          FingerprintOf(c[i]) == FingerprintOf(c[j]))
    && (forall i, j ::
          0 <= i < |c| && 0 <= j < |c| && c[i].event.Proposed? && c[j].event.ReceiverSlot?
          && c[i].event.hash == c[j].event.hash ==>
          c[i].height == c[j].height)
  }

  predicate CreatedBy(e: ChainEvent, h: Proposal, block: nat) {
    e.event.Proposed? && e.event.hash == h && e.height == block
  }

  lemma {:induction false} ProposalSource(c: seq<ChainEvent>, h: Proposal)
    requires h in Indexed(c).proposals
    ensures exists i :: 0 <= i < |c| && CreatedBy(c[i], h, Indexed(c).proposals[h].createdAt)
  {
    var init, last := c[..|c| - 1], c[|c| - 1];
    var before := Indexed(init).proposals;
    if h in before && before[h].createdAt == Indexed(c).proposals[h].createdAt {
      ProposalSource(init, h);
      var i :| 0 <= i < |init| && CreatedBy(init[i], h, before[h].createdAt);
      assert c[i] == init[i];
    } else {
      assert CreatedBy(c[|c| - 1], h, Indexed(c).proposals[h].createdAt);
    }
  }

  lemma {:induction false} ApprovalSource(c: seq<ChainEvent>, k: VoteKey)
    requires k in Indexed(c).approvals
    ensures exists i :: 0 <= i < |c| && c[i].event.Approval? && VoteKey(c[i].event.hash, c[i].event.approver) == k
  {
    var init := c[..|c| - 1];
    if k in Indexed(init).approvals {
      ApprovalSource(init, k);
      var i :| 0 <= i < |init| && init[i].event.Approval? && VoteKey(init[i].event.hash, init[i].event.approver) == k;
      assert c[i] == init[i];
    } else {
      assert c[|c| - 1].event.Approval?;
    }
  }

  lemma {:induction false} ExecutionSource(c: seq<ChainEvent>, h: Proposal)
    requires h in Indexed(c).executions
    ensures exists i :: 0 <= i < |c| && c[i].event.Execution? && c[i].event.hash == h
  {
    var init := c[..|c| - 1];
    if h in Indexed(init).executions {
      ExecutionSource(init, h);
      var i :| 0 <= i < |init| && init[i].event.Execution? && init[i].event.hash == h;
      assert c[i] == init[i];
    } else {
      assert c[|c| - 1].event.Execution?;
    }
  }

  /** The event creates rows of its own or extends a proposal of its own block. */
  predicate FreshFor(t: Tables, e: ChainEvent) {
    && (e.event.Proposed? ==> e.event.hash !in t.proposals)
    && (e.event.ReceiverSlot? && e.event.hash in t.proposals ==> t.proposals[e.event.hash].createdAt == e.height)
    && (e.event.Approval? ==> VoteKey(e.event.hash, e.event.approver) !in t.approvals)
    && (e.event.Execution? ==> e.event.hash !in t.executions)
  }

  lemma HonestIsFresh(c: seq<ChainEvent>, n: nat)
    requires Honest(c) && n < |c| && FingerprintOf(c[n]) !in Indexed(c[..n]).raw
    ensures FreshFor(Indexed(c[..n]), c[n])
  {
    var t, e := Indexed(c[..n]), c[n];
    forall i | 0 <= i < n ensures FingerprintOf(c[i]) != FingerprintOf(e) {
      assert c[..n][i] == c[i];
      RawGrows(EMPTY_TABLES, c[..n], 0, FingerprintOf(c[i]));
    }
    assert forall i :: 0 <= i < n ==> !SameSubject(c[i].event, c[n].event);
    if (e.event.Proposed? || e.event.ReceiverSlot?) && e.event.hash in t.proposals {
      ProposalSource(c[..n], e.event.hash);
      var i :| 0 <= i < n && CreatedBy(c[..n][i], e.event.hash, t.proposals[e.event.hash].createdAt);
      assert c[..n][i] == c[i];
    }
    if e.event.Approval? && VoteKey(e.event.hash, e.event.approver) in t.approvals {
      ApprovalSource(c[..n], VoteKey(e.event.hash, e.event.approver));
    }
    if e.event.Execution? && e.event.hash in t.executions { ExecutionSource(c[..n], e.event.hash); }
  }

  lemma {:induction false} RowsUpToSnoc(rows: seq<ConfigRow>, r: ConfigRow, fork: int)
    ensures RowsUpTo(rows + [r], fork) == if r.block > fork then RowsUpTo(rows, fork) else RowsUpTo(rows, fork) + [r]
  {
    assert (rows + [r])[..|rows|] == rows;
  }

  lemma {:induction false} MembersUpToSnoc(rows: seq<MemberRow>, r: MemberRow, fork: int)
    ensures MembersUpTo(rows + [r], fork) == if r.block > fork then MembersUpTo(rows, fork)
              else MembersUpTo(rows, fork) + [r]
  {
    assert (rows + [r])[..|rows|] == rows;
  }

  lemma RollbackRows(t: Tables, e: ChainEvent, order: nat, fork: int)
    requires e.height > fork && FingerprintOf(e) !in t.raw
    ensures RowsUpTo(Ingest(t, e, order).configs, fork) == RowsUpTo(t.configs, fork)
    ensures MembersUpTo(Ingest(t, e, order).members, fork) == MembersUpTo(t.members, fork)
  {
    var r := Ingest(t, e, order);
    if |r.configs| > |t.configs| { RowsUpToSnoc(t.configs, r.configs[|t.configs|], fork); }
    if NewMembers(e) != [] { MembersUpToSnoc(t.members, NewMembers(e)[0], fork); }
    else { assert t.members + [] == t.members; }
  }

  lemma RollbackProposals(t: Tables, e: ChainEvent, order: nat, fork: int)
    requires e.height > fork && FingerprintOf(e) !in t.raw && FreshFor(t, e)
    ensures Rollback(Ingest(t, e, order), fork).proposals == Rollback(t, fork).proposals
  {
  }

  /** The approvals of kept proposals at or below the fork. */
  function ApprovalsUpTo(m: map<VoteKey, ApprovalRow>, kept: map<Proposal, ProposalRow>,
                         fork: int): (r: map<VoteKey, ApprovalRow>) {
    map k | k in m && m[k].block <= fork && k.hash in kept :: m[k]
  }

  function ExecutionsUpTo(m: map<Proposal, ExecutionRow>, kept: map<Proposal, ProposalRow>,
                          fork: int): (r: map<Proposal, ExecutionRow>) {
    map h | h in m && m[h].block <= fork && h in kept :: m[h]
  }

  lemma ApprovalAbove(m: map<VoteKey, ApprovalRow>, k: VoteKey, row: ApprovalRow, kept: map<Proposal, ProposalRow>,
                      fork: int)
    requires k !in m && row.block > fork
    ensures ApprovalsUpTo(m[k := row], kept, fork) == ApprovalsUpTo(m, kept, fork)
  {
  }

  lemma ExecutionAbove(m: map<Proposal, ExecutionRow>, h: Proposal, row: ExecutionRow, kept: map<Proposal, ProposalRow>,
                       fork: int)
    requires h !in m && row.block > fork
    ensures ExecutionsUpTo(m[h := row], kept, fork) == ExecutionsUpTo(m, kept, fork)
  {
  }

  /** Which rows a rollback keeps depends on the kept proposals alone. */
  lemma RollbackByKept(t: Tables, fork: int)
    ensures Rollback(t, fork).approvals == ApprovalsUpTo(t.approvals, Rollback(t, fork).proposals, fork)
    ensures Rollback(t, fork).executions == ExecutionsUpTo(t.executions, Rollback(t, fork).proposals, fork)
  {
  }

  lemma IngestVotes(t: Tables, e: ChainEvent, order: nat, kept: map<Proposal, ProposalRow>, fork: int)
    requires e.height > fork && FingerprintOf(e) !in t.raw && FreshFor(t, e)
    ensures ApprovalsUpTo(Ingest(t, e, order).approvals, kept, fork) == ApprovalsUpTo(t.approvals, kept, fork)
    ensures ExecutionsUpTo(Ingest(t, e, order).executions, kept, fork) == ExecutionsUpTo(t.executions, kept, fork)
  {
    if e.event.Approval? {
      ApprovalAbove(t.approvals, VoteKey(e.event.hash, e.event.approver), ApprovalRow(e.event.approvalCount, e.height),
                    kept, fork);
    }
    if e.event.Execution? { ExecutionAbove(t.executions, e.event.hash, ExecutionRow(e.height, e.txHash), kept, fork); }
  }

  lemma RollbackMarks(t: Tables, e: ChainEvent, order: nat, fork: int)
    requires e.height > fork && FingerprintOf(e) !in t.raw
    ensures Rollback(Ingest(t, e, order), fork).headers == Rollback(t, fork).headers
    ensures Rollback(Ingest(t, e, order), fork).raw == Rollback(t, fork).raw
  {
  }

  /** Ingesting an event above the fork leaves nothing that the rollback keeps. */
  lemma RollbackUndoes(t: Tables, e: ChainEvent, order: nat, fork: int)
    requires e.height > fork && (FingerprintOf(e) in t.raw || FreshFor(t, e))
    ensures Rollback(Ingest(t, e, order), fork) == Rollback(t, fork)
  {
    if FingerprintOf(e) !in t.raw {
      RollbackRows(t, e, order, fork);
      RollbackProposals(t, e, order, fork);
      RollbackByKept(t, fork);
      RollbackByKept(Ingest(t, e, order), fork);
      IngestVotes(t, e, order, Rollback(t, fork).proposals, fork);
      RollbackMarks(t, e, order, fork);
    }
  }

  lemma {:induction false} RowsKept(rows: seq<ConfigRow>, fork: int)
    requires forall i :: 0 <= i < |rows| ==> rows[i].block <= fork
    ensures RowsUpTo(rows, fork) == rows
  {
    if rows != [] { RowsKept(rows[..|rows| - 1], fork); assert rows == rows[..|rows| - 1] + [rows[|rows| - 1]]; }
  }

  lemma {:induction false} MembersKept(rows: seq<MemberRow>, fork: int)
    requires forall i :: 0 <= i < |rows| ==> rows[i].block <= fork
    ensures MembersUpTo(rows, fork) == rows
  {
    if rows != [] { MembersKept(rows[..|rows| - 1], fork); assert rows == rows[..|rows| - 1] + [rows[|rows| - 1]]; }
  }

  /** A row is left exactly when it was there, is tagged at or below the fork, and its proposal is left too. */
  ghost predicate LeftBelow(t: Tables, r: Tables, fork: int) {
    && (forall h :: h in r.headers <==> h in t.headers && h <= fork)
       && (forall h :: h in r.headers ==> r.headers[h] == t.headers[h])
    && (forall f :: f in r.raw <==> f in t.raw && f.height <= fork)
    && (forall row :: row in r.configs <==> row in t.configs && row.block <= fork)
    && (forall row :: row in r.members <==> row in t.members && row.block <= fork)
    && (forall h :: h in r.proposals <==> h in t.proposals && t.proposals[h].createdAt <= fork)
       && (forall h :: h in r.proposals ==> r.proposals[h] == t.proposals[h])
    && (forall k :: k in r.approvals <==> k in t.approvals && t.approvals[k].block <= fork && k.hash in r.proposals)
    && (forall k :: k in r.approvals ==> r.approvals[k] == t.approvals[k])
    && (forall h :: h in r.executions <==> h in t.executions && t.executions[h].block <= fork && h in r.proposals)
    && (forall h :: h in r.executions ==> r.executions[h] == t.executions[h])
  }

  lemma {:induction false} ConfigLeft(rows: seq<ConfigRow>, fork: int, row: ConfigRow)
    ensures row in RowsUpTo(rows, fork) <==> row in rows && row.block <= fork
  {
    if rows != [] {
      assert rows == rows[..|rows| - 1] + [rows[|rows| - 1]];
      ConfigLeft(rows[..|rows| - 1], fork, row);
    }
  }

  lemma {:induction false} MemberLeft(rows: seq<MemberRow>, fork: int, row: MemberRow)
    ensures row in MembersUpTo(rows, fork) <==> row in rows && row.block <= fork
  {
    if rows != [] {
      assert rows == rows[..|rows| - 1] + [rows[|rows| - 1]];
      MemberLeft(rows[..|rows| - 1], fork, row);
    }
  }

  lemma RollbackLeaves(t: Tables, fork: int)
    ensures LeftBelow(t, Rollback(t, fork), fork)
  {
    forall row ensures row in RowsUpTo(t.configs, fork) <==> row in t.configs && row.block <= fork {
      ConfigLeft(t.configs, fork, row);
    }
    forall row ensures row in MembersUpTo(t.members, fork) <==> row in t.members && row.block <= fork {
      MemberLeft(t.members, fork, row);
    }
  }

  lemma RollbackKeeps(t: Tables, fork: int)
    requires TaggedUpTo(t, fork)
    ensures Rollback(t, fork) == t
  {
    RowsKept(t.configs, fork);
    MembersKept(t.members, fork);
  }

  lemma IndexedSnoc(c: seq<ChainEvent>, k: nat)
    requires k < |c|
    ensures Indexed(c[..k + 1]) == Ingest(Indexed(c[..k]), c[k], k)
  {
    assert c[..k + 1][..k] == c[..k];
  }

  /** Rolling back an indexed chain is indexing the chain through the fork. */
  lemma {:induction false} RollbackIsPrefix(c: seq<ChainEvent>, k: nat, n: nat, fork: int)
    requires Honest(c) && CutAt(c, n, fork) && n <= k <= |c|
    ensures Rollback(Indexed(c[..k]), fork) == Indexed(c[..n])
  {
    if k == n {
      RollbackKeepsPrefix(c[..n], fork);
    } else {
      RollbackIsPrefix(c, k - 1, n, fork);
      RollbackDropsLast(c, k - 1, fork);
    }
  }

  lemma RollbackKeepsPrefix(c: seq<ChainEvent>, fork: int)
    requires forall i :: 0 <= i < |c| ==> c[i].height <= fork
    ensures Rollback(Indexed(c), fork) == Indexed(c)
  {
    IndexedTagged(c, fork);
    RollbackKeeps(Indexed(c), fork);
  }

  lemma RollbackDropsLast(c: seq<ChainEvent>, k: nat, fork: int)
    requires Honest(c) && k < |c| && c[k].height > fork
    ensures Rollback(Indexed(c[..k + 1]), fork) == Rollback(Indexed(c[..k]), fork)
  {
    IndexedSnoc(c, k);
    if FingerprintOf(c[k]) !in Indexed(c[..k]).raw { HonestIsFresh(c, k); }
    RollbackUndoes(Indexed(c[..k]), c[k], k, fork);
  }

  lemma {:induction false} RowsUpToSame(a: seq<ConfigRow>, b: seq<ConfigRow>, fork: int)
    requires SameRows(a, b)
    ensures SameRows(RowsUpTo(a, fork), RowsUpTo(b, fork))
  {
    if a != [] {
      var n := |a| - 1;
      assert Unnumbered(a)[n] == Unnumbered(b)[n];
      assert Unnumbered(a[..n]) == Unnumbered(a)[..n] && Unnumbered(b[..n]) == Unnumbered(b)[..n];
      RowsUpToSame(a[..n], b[..n], fork);
      UnnumberedSnoc(RowsUpTo(a[..n], fork), a[n]);
      UnnumberedSnoc(RowsUpTo(b[..n], fork), b[n]);
    }
  }

  lemma UnnumberedSnoc(rows: seq<ConfigRow>, r: ConfigRow)
    ensures Unnumbered(rows + [r]) == Unnumbered(rows) + [r.(order := 0)]
  {
  }

  lemma {:induction false} RowsUpToOrdered(a: seq<ConfigRow>, fork: int)
    requires Ordered(a)
    ensures Ordered(RowsUpTo(a, fork)) && forall i :: 0 <= i < |RowsUpTo(a, fork)| ==> RowsUpTo(a, fork)[i] in a
  {
    if a != [] {
      RowsUpToOrdered(a[..|a| - 1], fork);
      assert forall r :: r in a[..|a| - 1] ==> r in a && Newer(a[|a| - 1], r);
    }
  }

  lemma RollbackSame(t: Tables, s: Tables, fork: int)
    requires Same(t, s)
    ensures Same(Rollback(t, fork), Rollback(s, fork))
  {
    RowsUpToSame(t.configs, s.configs, fork);
    RowsUpToOrdered(t.configs, fork);
    RowsUpToOrdered(s.configs, fork);
  }

  /** Tables that hold a chain through some block hold it through the fork after a rollback. */
  lemma {:induction false} RollbackRewinds(t: Tables, c: seq<ChainEvent>, k: nat, n: nat, fork: int)
    requires Honest(c) && HeightsAscend(c) && CutAt(c, n, fork) && k <= |c| && Same(t, Indexed(c[..k]))
    ensures Same(Rollback(t, fork), Indexed(c[..if k < n then k else n]))
  {
    RollbackSame(t, Indexed(c[..k]), fork);
    if k < n {
      RollbackKeepsPrefix(c[..k], fork);
    } else {
      RollbackIsPrefix(c, k, n, fork);
    }
  }
}
