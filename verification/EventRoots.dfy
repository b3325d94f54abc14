/**
 The roots a guard emits are checkpoints: each is the fold of the events up to it, every block that
 writes a map also emits its root afterwards, and so no block of a complete delivery diverges.
 */
module EventRoots {
  import opened Primitives
  import opened Sequences
  import opened Guards
  import opened GuardInvariant
  import opened Ledger
  import opened LedgerInvariant
  import opened EventRebuild
  import opened EventSourcing

  /** Heights never fall along a guard's events and never exceed the current block. */
  predicate HeightsInv(es: seq<Emitted>, height: nat) {
    && (forall i, j :: 0 <= i < j < |es| ==> es[i].height <= es[j].height)
    && (forall i :: 0 <= i < |es| ==> es[i].height <= height)
  }

  ghost predicate RootAt<K(!new)>(es: seq<Emitted>, i: nat, write: Row -> Option<Write<K>>,
                                  root: Row -> Option<map<K, nat>>)
    requires i < |es|
  {
    root(RowOf(es[i])).Some? ==> root(RowOf(es[i])).value == RaiseAll(map[], RowsOf(es[..i + 1]), write)
  }

  ghost predicate Sealed<K(!new)>(es: seq<Emitted>, i: nat, write: Row -> Option<Write<K>>,
                                  root: Row -> Option<map<K, nat>>)
    requires i < |es|
  {
    write(RowOf(es[i])).Some? ==> exists j :: i <= j < |es| && es[j].height == es[i].height && root(RowOf(es[j])).Some?
  }

  /** An emitted root folds everything up to it, and every write is followed by a root in its own block. */
  ghost predicate RootsInv<K(!new)>(es: seq<Emitted>, write: Row -> Option<Write<K>>,
                                    root: Row -> Option<map<K, nat>>) {
    forall i :: 0 <= i < |es| ==> RootAt(es, i, write, root) && Sealed(es, i, write, root)
  }

  // ---- one call ----

  lemma OldRoots<K(!new)>(es: seq<Emitted>, more: seq<Emitted>, i: nat, write: Row -> Option<Write<K>>,
                          root: Row -> Option<map<K, nat>>)
    requires RootsInv(es, write, root) && i < |es|
    ensures RootAt(es + more, i, write, root) && Sealed(es + more, i, write, root)
  {
    var all := es + more;
    assert RootAt(es, i, write, root) && Sealed(es, i, write, root);
    assert all[..i + 1] == es[..i + 1];
    if write(RowOf(es[i])).Some? {
      var j :| i <= j < |es| && es[j].height == es[i].height && root(RowOf(es[j])).Some?;
      assert all[j] == es[j];
    }
  }

  /** A batch without writes and roots. */
  lemma NoRoot<K(!new)>(es: seq<Emitted>, more: seq<Event>, height: nat, write: Row -> Option<Write<K>>,
                        root: Row -> Option<map<K, nat>>)
    requires RootsInv(es, write, root)
    requires forall r :: r in Batch(more, height) ==> write(r).None? && root(r).None?
    ensures RootsInv(es + Stamp(more, height), write, root)
  {
    var all := es + Stamp(more, height);
    forall i | 0 <= i < |all| ensures RootAt(all, i, write, root) && Sealed(all, i, write, root) {
      if i < |es| { OldRoots(es, Stamp(more, height), i, write, root); }
      else { assert RowOf(all[i]) == Batch(more, height)[i - |es|]; }
    }
  }

  /** A batch with one root, behind all its writes. */
  lemma OneRoot<K(!new)>(es: seq<Emitted>, more: seq<Event>, height: nat, n: nat, write: Row -> Option<Write<K>>,
                         root: Row -> Option<map<K, nat>>)
    requires RootsInv(es, write, root) && n < |more|
    requires forall i :: 0 <= i < |more| && i != n ==> root(Batch(more, height)[i]).None?
    requires forall i :: n < i < |more| ==> write(Batch(more, height)[i]).None?
    requires root(Batch(more, height)[n]) == Some(RaiseAll(map[], RowsOf(es) + Batch(more, height)[..n + 1], write))
    ensures RootsInv(es + Stamp(more, height), write, root)
  {
    var all := es + Stamp(more, height);
    var at := |es| + n;
    assert RowsOf(all[..at + 1]) == RowsOf(es) + Batch(more, height)[..n + 1];
    assert RowOf(all[at]) == Batch(more, height)[n];
    forall i | 0 <= i < |all| ensures RootAt(all, i, write, root) && Sealed(all, i, write, root) {
      if i < |es| { OldRoots(es, Stamp(more, height), i, write, root); }
      else { assert RowOf(all[i]) == Batch(more, height)[i - |es|] && all[i].height == all[at].height; }
    }
  }

  ghost predicate GuardRootsInv(g: Guard) {
    RootsInv(g.events, ApprovalWrite, ApprovalRootOf) && RootsInv(g.events, VoteWrite, NullifierRootOf)
  }

  lemma VoteRoots(g: Guard, more: seq<Event>, height: nat, g': Guard)
    requires GuardRootsInv(g) && MapsInv(g') && g'.events == g.events + Stamp(more, height)
    requires |more| > 0 && more[|more| - 1].Approval?
    requires more[|more| - 1].approvalRoot == g'.approvals && more[|more| - 1].voteNullifierRoot == g'.voteNullifiers
    requires forall i :: 0 <= i < |more| - 1 ==> !more[i].Approval? && !more[i].Execution?
    ensures GuardRootsInv(g')
  {
    RowsConcat(g.events, Stamp(more, height));
    assert Batch(more, height)[..|more|] == Batch(more, height);
    OneRoot(g.events, more, height, |more| - 1, ApprovalWrite, ApprovalRootOf);
    OneRoot(g.events, more, height, |more| - 1, VoteWrite, NullifierRootOf);
  }

  lemma QuietRoots(g: Guard, more: seq<Event>, height: nat, g': Guard)
    requires GuardRootsInv(g) && g'.events == g.events + Stamp(more, height)
    requires forall i :: 0 <= i < |more| ==> Quiet(more[i]) || (more[i].Execution? && RemoteType(more[i].txType))
    ensures GuardRootsInv(g')
  {
    NoRoot(g.events, more, height, ApprovalWrite, ApprovalRootOf);
    NoRoot(g.events, more, height, VoteWrite, NullifierRootOf);
  }

  lemma LocalRoots(g: Guard, p: Proposal, notices: seq<Event>, height: nat, g': Guard)
    requires GuardRootsInv(g) && MapsInv(g) && g'.events == g.events + Stamp([Executed(g, p)] + notices, height)
    requires LocalType(p.txType) && Leaf(g.approvals, p) < EXECUTED_MARKER
    requires forall i :: 0 <= i < |notices| ==> Quiet(notices[i]) && !notices[i].Execution?
    ensures GuardRootsInv(g')
  {
    LocalApprovalRoots(g, p, notices, height);
    NoRoot(g.events, [Executed(g, p)] + notices, height, VoteWrite, NullifierRootOf);
  }

  /** The root in an execution event folds the event itself. */
  lemma ExecutedRoot(g: Guard, p: Proposal, height: nat)
    requires g.approvals == RaiseAll(map[], RowsOf(g.events), ApprovalWrite)
    requires LocalType(p.txType) && Leaf(g.approvals, p) < EXECUTED_MARKER
    ensures var r := Row(PayloadOf(Executed(g, p)), Some(height));
            ApprovalRootOf(r) == Some(RaiseAll(map[], RowsOf(g.events) + [r], ApprovalWrite))
  {
    LastRow(map[], RowsOf(g.events), Row(PayloadOf(Executed(g, p)), Some(height)), ApprovalWrite);
  }

  lemma LocalApprovalRoots(g: Guard, p: Proposal, notices: seq<Event>, height: nat)
    requires RootsInv(g.events, ApprovalWrite, ApprovalRootOf)
             && g.approvals == RaiseAll(map[], RowsOf(g.events), ApprovalWrite)
    requires LocalType(p.txType) && Leaf(g.approvals, p) < EXECUTED_MARKER
    requires forall i :: 0 <= i < |notices| ==> Quiet(notices[i]) && !notices[i].Execution?
    ensures RootsInv(g.events + Stamp([Executed(g, p)] + notices, height), ApprovalWrite, ApprovalRootOf)
  {
    var more := [Executed(g, p)] + notices;
    var batch := Batch(more, height);
    NoticeRows(Executed(g, p), notices, height);
    assert batch[..1] == [batch[0]];
    ExecutedRoot(g, p, height);
    OneRoot(g.events, more, height, 0, ApprovalWrite, ApprovalRootOf);
  }

  lemma QuietRow(e: Event, height: nat)
    requires Quiet(e) && !e.Execution?
    ensures var r := Row(PayloadOf(e), Some(height)); ApprovalRootOf(r).None? && ApprovalWrite(r).None?
  {
  }

  /** Behind an execution event nothing writes the approval map or emits its root. */
  lemma NoticeRows(executed: Event, notices: seq<Event>, height: nat)
    requires forall i :: 0 <= i < |notices| ==> Quiet(notices[i]) && !notices[i].Execution?
    ensures var batch := Batch([executed] + notices, height);
            forall i :: 0 < i < |batch| ==> ApprovalRootOf(batch[i]).None? && ApprovalWrite(batch[i]).None?
  {
    var batch := Batch([executed] + notices, height);
    forall i | 0 < i < |batch| ensures ApprovalRootOf(batch[i]).None? && ApprovalWrite(batch[i]).None? {
      QuietRow(notices[i - 1], height);
      assert batch[i] == Row(PayloadOf(notices[i - 1]), Some(height));
    }
  }

  lemma NoticesNotExecutions(w: World, a: PublicKey, c: Call)
    requires Allowed(w, a, c) && (IsLocalExecution(c) || IsRemoteExecution(c))
    ensures forall i :: 0 <= i < |NoticesOf(w, a, c)| ==> !NoticesOf(w, a, c)[i].Execution?
  {
  }

  lemma VoteCallRoots(w: World, a: PublicKey, c: Call)
    requires Allowed(w, a, c) && IsVote(c) && GuardRootsInv(Read(w, a)) && MapsInv(After(w, a, c))
    ensures GuardRootsInv(After(w, a, c))
  {
    CallEmits(w, a, c);
    VoteRoots(Read(w, a), NewEvents(w, a, c), w.height, After(w, a, c));
  }

  lemma ExecutionCallRoots(w: World, a: PublicKey, c: Call)
    requires Allowed(w, a, c) && (IsLocalExecution(c) || IsRemoteExecution(c)) && RaisesLeaves(w, a, c)
    requires GuardRootsInv(Read(w, a)) && MapsInv(Read(w, a))
    ensures GuardRootsInv(After(w, a, c))
  {
    CallEmits(w, a, c);
    ExecutionEffect(w, a, c);
    NoticesQuiet(w, a, c);
    NoticesNotExecutions(w, a, c);
    if IsLocalExecution(c) {
      LocalRoots(Read(w, a), c.p, NoticesOf(w, a, c), w.height, After(w, a, c));
    } else {
      QuietRoots(Read(w, a), NewEvents(w, a, c), w.height, After(w, a, c));
    }
  }

  lemma InitCallRoots(w: World, a: PublicKey, c: Call)
    requires Allowed(w, a, c) && (c.DoSetup? || c.DoReserve? || c.DoSetupChild?) && GuardRootsInv(Read(w, a))
    ensures GuardRootsInv(After(w, a, c))
  {
    CallEmits(w, a, c);
    QuietRoots(Read(w, a), NewEvents(w, a, c), w.height, After(w, a, c));
  }

  lemma RootsStep(w: World, a: PublicKey, c: Call)
    requires Allowed(w, a, c) && RaisesLeaves(w, a, c)
    requires GuardRootsInv(Read(w, a)) && MapsInv(Read(w, a)) && MapsInv(After(w, a, c))
    ensures GuardRootsInv(After(w, a, c))
  {
    if IsVote(c) { VoteCallRoots(w, a, c); }
    else if IsLocalExecution(c) || IsRemoteExecution(c) { ExecutionCallRoots(w, a, c); }
    else { InitCallRoots(w, a, c); }
  }

  // ---- complete deliveries do not diverge ----

  /** Where the events of blocks above `height` begin. */
  function Cut(es: seq<Emitted>, height: int): (n: nat)
    ensures n <= |es|
  {
    if es == [] || es[|es| - 1].height <= height then |es| else Cut(es[..|es| - 1], height)
  }

  lemma {:induction false} CutSplits(es: seq<Emitted>, height: int, i: nat)
    requires (forall i, j :: 0 <= i < j < |es| ==> es[i].height <= es[j].height) && i < |es|
    ensures i < Cut(es, height) <==> es[i].height <= height
  {
    if es[|es| - 1].height > height && i < |es| - 1 { CutSplits(es[..|es| - 1], height, i); }
  }

  /** The rows up to a height, however delivered, fold like the events before the cut. */
  lemma PrefixDelivered<K(!new)>(es: seq<Emitted>, now: nat, rows: seq<Row>, height: int,
                                 write: Row -> Option<Write<K>>)
    requires HeightsInv(es, now) && SameElements(rows, RowsOf(es))
    ensures RaiseAll(map[], UpTo(rows, height), write) == RaiseAll(map[], RowsOf(es[..Cut(es, height)]), write)
  {
    var early := RowsOf(es[..Cut(es, height)]);
    forall r ensures r in UpTo(rows, height) <==> r in early {
      UpToMember(rows, height, r);
      if r in early {
        var i :| 0 <= i < |early| && early[i] == r;
        CutSplits(es, height, i);
        assert RowsOf(es)[i] == r;
      }
      if r in rows && r.height.Some? && r.height.value <= height {
        assert r in RowsOf(es);
        var i :| 0 <= i < |es| && RowsOf(es)[i] == r;
        CutSplits(es, height, i);
        assert early[i] == r;
      }
    }
    RaiseAllSame(map[], UpTo(rows, height), early, write);
  }

  /** The last index before `n` that emits a root in block `height`. */
  lemma {:induction false} LastRootIn<K(!new)>(es: seq<Emitted>, n: nat, height: int, root: Row -> Option<map<K, nat>>,
                                               some: nat) returns (i: nat)
    requires some < n <= |es| && es[some].height == height && root(RowOf(es[some])).Some?
    ensures some <= i < n && es[i].height == height && root(RowOf(es[i])).Some?
    ensures forall j :: i < j < n && es[j].height == height ==> root(RowOf(es[j])).None?
  {
    if es[n - 1].height == height && root(RowOf(es[n - 1])).Some? {
      i := n - 1;
    } else {
      i := LastRootIn(es, n - 1, height, root, some);
    }
  }

  /** Nothing behind the last root of a block writes in that block. */
  lemma SettledByLastRoot<K(!new)>(es: seq<Emitted>, now: nat, height: int, i: nat, write: Row -> Option<Write<K>>,
                                   root: Row -> Option<map<K, nat>>)
    requires HeightsInv(es, now) && RootsInv(es, write, root)
    requires i < Cut(es, height) && es[i].height == height
    requires forall j :: i < j < Cut(es, height) && es[j].height == height ==> root(RowOf(es[j])).None?
    ensures RaiseAll(map[], RowsOf(es[..Cut(es, height)]), write) == RaiseAll(map[], RowsOf(es[..i + 1]), write)
  {
    var n := Cut(es, height);
    var early, late := es[..i + 1], es[i + 1..n];
    forall k | 0 <= k < |late| ensures write(RowsOf(late)[k]).None? {
      assert late[k] == es[i + 1 + k];
      UnsealedWritesNothing(es, now, height, i, i + 1 + k, write, root);
    }
    assert es[..n] == early + late;
    QuietTail(early, late, write);
  }

  lemma QuietTail<K(!new)>(early: seq<Emitted>, late: seq<Emitted>, write: Row -> Option<Write<K>>)
    requires forall k :: 0 <= k < |late| ==> write(RowsOf(late)[k]).None?
    ensures RaiseAll(map[], RowsOf(early + late), write) == RaiseAll(map[], RowsOf(early), write)
  {
    RowsConcat(early, late);
    RaiseAllConcat(map[], RowsOf(early), RowsOf(late), write);
    RaiseAllNone(RaiseAll(map[], RowsOf(early), write), RowsOf(late), write);
  }

  lemma UnsealedWritesNothing<K(!new)>(es: seq<Emitted>, now: nat, height: int, i: nat, k: nat,
                                       write: Row -> Option<Write<K>>, root: Row -> Option<map<K, nat>>)
    requires HeightsInv(es, now) && RootsInv(es, write, root)
    requires i < k < Cut(es, height) && es[i].height == height
    requires forall j :: i < j < Cut(es, height) && es[j].height == height ==> root(RowOf(es[j])).None?
    ensures write(RowOf(es[k])).None?
  {
    CutSplits(es, height, k);
    assert Sealed(es, k, write, root);
    if j :| k <= j < |es| && es[j].height == es[k].height && root(RowOf(es[j])).Some? {
      CutSplits(es, height, j);
    }
  }

  lemma {:induction false} NoDivergence<K(!new)>(es: seq<Emitted>, now: nat, rows: seq<Row>, height: int,
                                                 write: Row -> Option<Write<K>>, root: Row -> Option<map<K, nat>>)
    requires HeightsInv(es, now) && RootsInv(es, write, root) && SameElements(rows, RowsOf(es))
    ensures !Diverges(map[], rows, write, root, height)
  {
    if r :| InBlock(rows, height, r) && root(r).Some? {
      assert r in RowsOf(es);
      var at :| 0 <= at < |es| && RowsOf(es)[at] == r;
      CutSplits(es, height, at);
      var i := LastRootIn(es, Cut(es, height), height, root, at);
      SettledByLastRoot(es, now, height, i, write, root);
      PrefixDelivered(es, now, rows, height, write);
      assert RootAt(es, i, write, root);
      assert RowsOf(es)[i] in rows && InBlock(rows, height, RowsOf(es)[i]);
    }
  }
}
