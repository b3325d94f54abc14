/**
 Two more runs in which what is promised elsewhere under a condition fails: a transfer that pays one receiver the
 same amount twice, and a vote cast in the block that a load has already recorded.
 */
module FailingRuns {
  import opened Primitives
  import opened Sequences
  import opened ListCommitment
  import opened Guards
  import opened Ledger
  import opened LedgerInvariant
  import opened Executions
  import opened Storage
  import opened EventRebuild
  import opened EventSourcing
  import opened EventRoots
  import opened EventCompleteness
  import opened EventOrder
  import opened IndexTables
  import opened Reorg
  import opened HonestEvents
  import opened ConfigColumns
  import opened ReceiverRows
  import opened GuardReceivers
  import opened StoreCheckpoint
  import opened LoadSequence
  import opened ExampleGuard

  /** Pays Bob five twice. */
  function TwiceProposal(): (p: Proposal)
    ensures WellFormed(p) && ProposeRules(p)
  {
    Proposal([Receiver(BOB, 5), Receiver(BOB, 5)] + EmptySlots(MAX_RECEIVERS - 2), NATIVE_TOKEN_ID, TRANSFER, ZERO, 0,
             1, 0, 0, GUARD,
             LOCAL, EMPTY_KEY)
  }

  // ---- equal receivers ----

  /** The transaction of each event, by its position in emission order. */
  function TxOf(d: seq<ChainEvent>): nat -> Option<nat> { (i: nat) => if i < |d| then d[i].txHash else None }

  lemma {:induction false} TxEvents(d: seq<ChainEvent>, es: seq<Emitted>, n: nat, t: nat)
    requires AsEmitted(d, es) && n <= |es|
    ensures SameEvents(OfTx(d[..n], t), InTx(es, n, TxOf(d), t))
  {
    if n > 0 {
      TxEvents(d, es, n - 1, t);
      assert d[..n][..n - 1] == d[..n - 1];
    }
  }

  /** The archive's answer, newest first, delivers what was emitted. */
  lemma {:induction false} NewestFirstDelivers(d: seq<ChainEvent>, es: seq<Emitted>) returns (at: seq<nat>)
    requires AsEmitted(d, es)
    ensures Delivers(Reversed(d), es, at, TxOf(d))
  {
    var raw := Reversed(d);
    at := seq(|raw|, i requires 0 <= i < |raw| => PositionIn(d, raw[i]));
    forall i | 0 <= i < |raw|
      ensures at[i] < |es| && raw[i].event == es[at[i]].event && raw[i].height == es[at[i]].height
              && raw[i].txHash == TxOf(d)(at[i])
    {
      ReversedMember(d, raw[i]);
      assert raw[i] in raw;
    }
  }

  lemma TwiceListed()
    ensures !Different(SlotOrder(TwiceProposal(), |TwiceProposal().receivers|))
  {
    var h := TwiceProposal();
    assert SlotOrder(h, 1) == [Receiver(BOB, 5)];
    assert SlotOrder(h, 2) == [Receiver(BOB, 5), Receiver(BOB, 5)];
    PaddingListsNone(h, MAX_RECEIVERS);
  }

  lemma {:induction false} PaddingListsNone(h: Proposal, n: nat)
    requires 2 <= n <= |h.receivers| && forall i :: 2 <= i < |h.receivers| ==> h.receivers[i].address == EMPTY_KEY
    ensures SlotOrder(h, n) == SlotOrder(h, 2)
  {
    if n > 2 { PaddingListsNone(h, n - 1); }
  }

  /** Alice proposes the transfer. */
  lemma {:induction false} TwiceProposed() returns (w: World, d: seq<ChainEvent>, k: nat)
    ensures Reachable(w) && Serves(d, w, 3) && w.height == 0 && Leaf(w.guards[GUARD].approvals, TwiceProposal()) != 0
    ensures k < |d| == k + 2 + |TwiceProposal().receivers| && d[k].event == Proposed(TwiceProposal(), ALICE)
    ensures forall i :: k <= i < |d| ==> d[i].txHash == Some(2)
  {
    var signature := Signature(ALICE, TwiceProposal(), ForPropose);
    w, d := Begun([signature]);
    assert signature in [signature];
    w, d := SetUp(w, [ALICE], d);
    k := |w.guards[GUARD].events|;
    w, d := ProposedBy(w, [ALICE], 0, 0, {}, TwiceProposal(), ALICE, d, 2);
  }

  /**
   A run after which the indexed receiver rows are not the proposal's receivers: the second of two equal ones is
   missing.
   */
  lemma {:induction false} EqualReceiversLost()
    returns (w: World, raw: seq<ChainEvent>, at: seq<nat>, tx: nat -> Option<nat>)
    ensures Reachable(w) && GUARD in w.guards && Delivers(raw, w.guards[GUARD].events, at, tx)
            && |raw| == |w.guards[GUARD].events|
    ensures Leaf(w.guards[GUARD].approvals, TwiceProposal()) != 0
    ensures RowsOfProposal(Indexed(OrderForApply(ReverseWithinEachTx(raw))), TwiceProposal())
            != SlotOrder(TwiceProposal(), |TwiceProposal().receivers|)
  {
    var d, k;
    w, d, k := TwiceProposed();
    raw, tx := Reversed(d), TxOf(d);
    at := NewestFirstDelivers(d, w.guards[GUARD].events);
    ReversedLength(d);
    TwiceListed();
    LastProposal(w, d, k);
  }

  lemma {:induction false} ReversedLength(d: seq<ChainEvent>)
    ensures |Reversed(d)| == |d|
  {
    if d != [] { ReversedLength(d[..|d| - 1]); }
  }

  /** The receiver rows of a proposal made by the last call. */
  lemma {:induction false} LastProposal(w: World, d: seq<ChainEvent>, k: nat)
    requires Reachable(w) && Serves(d, w, 3) && w.height == 0 && k < |d| && d[k].event.Proposed?
    requires |d| == k + 2 + |d[k].event.hash.receivers| && forall i :: k <= i < |d| ==> d[i].txHash == Some(2)
    ensures var h := d[k].event.hash; var rows :=
            RowsOfProposal(Indexed(OrderForApply(ReverseWithinEachTx(Reversed(d)))), h);
            rows == SlotOrder(h, |h.receivers|) <==> Different(SlotOrder(h, |h.receivers|))
  {
    var es := w.guards[GUARD].events;
    var at := NewestFirstDelivers(d, es);
    var emitted := OfTx(d, 2);
    TxEvents(d, es, |es|, 2);
    assert d[..|es|] == d;
    ReversedOfTx(d, 2);
    ReachableEvents(w, GUARD, _ => 0);
    assert ProposedInTx(es, k, TxOf(d), 2);
    ReceiversOfGuard(w, GUARD, Reversed(d), at, TxOf(d), 2, k, emitted);
  }

  // ---- a block cut in half ----

  /** Bob approves in the block in which Alice proposed. */
  function LateVote(): seq<Action> { [Invoke(GUARD, DoApprove(TwiceProposal(), BOB))] }

  lemma {:induction false} LoadedWorld() returns (w: World)
    ensures Reachable(w) && At(w, [ALICE, BOB], 0, 0, {TwiceProposal()})
            && Signature(BOB, TwiceProposal(), ForApprove) in w.signed
    ensures Leaf(w.guards[GUARD].approvals, TwiceProposal()) == 2
    ensures Leaf(w.guards[GUARD].voteNullifiers, VoteKey(TwiceProposal(), BOB)) == 0
  {
    var d: seq<ChainEvent>;
    var first, second := Signature(ALICE, TwiceProposal(), ForPropose), Signature(BOB, TwiceProposal(), ForApprove);
    w, d := Begun([first, second]);
    assert first in [first, second] && second in [first, second];
    w, d := SetUp(w, [ALICE, BOB], d);
    w, d := ProposedBy(w, [ALICE, BOB], 0, 0, {}, TwiceProposal(), ALICE, d, 2);
    assert {} + {TwiceProposal()} == {TwiceProposal()};
  }

  lemma {:induction false} VotedLate(w: World) returns (w': World)
    requires Reachable(w) && At(w, [ALICE, BOB], 0, 0, {TwiceProposal()})
             && Signature(BOB, TwiceProposal(), ForApprove) in w.signed
    requires Leaf(w.guards[GUARD].approvals, TwiceProposal()) == 2
    requires Leaf(w.guards[GUARD].voteNullifiers, VoteKey(TwiceProposal(), BOB)) == 0
    ensures w' == Run(w, LateVote()) && GUARD in w'.guards && w'.height == 0
    ensures var es, es' := w.guards[GUARD].events, w'.guards[GUARD].events; es < es' && es'[|es|].event.Approval?
  {
    var c := DoApprove(TwiceProposal(), BOB);
    assert Allowed(w, GUARD, c);
    w' := Step(w, Invoke(GUARD, c));
    assert LateVote()[..0] == [];
    CallEmits(w, GUARD, c);
  }

  /** An increment that fails on honest answers: the load was made in the block in which another owner then voted. */
  lemma {:induction false} CutBlockMissesVote(order: Base58) returns (w: World, source: Source)
    ensures Reachable(w) && GUARD in w.guards && Initialized(w.guards[GUARD])
    ensures AnswersHonestly(Read(Run(w, LateVote()), GUARD), Some(HonestBasis(w.guards[GUARD])), source)
    ensures SinceResult(Some(HonestBasis(w.guards[GUARD])), source, order) == None
  {
    w := LoadedWorld();
    var w' := VotedLate(w);
    var g, g' := w.guards[GUARD], w'.guards[GUARD];
    source := Source(None, Some([]), Some(ChainStateOf(g')), Some(RowsOf(g'.events)), Some(ChainStateOf(g')));
    ReachableRun(w, LateVote());
    ReachableEvents(w', GUARD, order);
    LateVoteIsCut(w, w', order);
    IncrementExactly(w, LateVote(), GUARD, source, order);
  }

  /** All is in block zero, and the vote is left behind in it. */
  lemma {:induction false} LateVoteIsCut(w: World, w': World, order: Base58)
    requires Reachable(w) && GUARD in w.guards && Initialized(w.guards[GUARD]) && w' == Run(w, LateVote())
             && GUARD in w'.guards && w'.height == 0
    requires var es, es' := w.guards[GUARD].events, w'.guards[GUARD].events; es < es' && es'[|es|].event.Approval?
    ensures LastHeight(w.guards[GUARD].events) == 0 && !Harmless(LeftBehind(w.guards[GUARD], w'.guards[GUARD]))
    ensures forall r :: r in RowsOf(w'.guards[GUARD].events) ==> r.height.value == 0
  {
    var g, g' := w.guards[GUARD], w'.guards[GUARD];
    ReachableRun(w, LateVote());
    ReachableEvents(w', GUARD, order);
    HistoryOf(w, LateVote(), GUARD);
    OneBlock(g'.events);
    assert g'.events[|g.events| - 1] == g.events[|g.events| - 1];
    NextIsLeft(g, g', w'.height);
  }

  lemma OneBlock(es: seq<Emitted>)
    requires HeightsInv(es, 0)
    ensures forall i :: 0 <= i < |es| ==> es[i].height == 0
    ensures forall r :: r in RowsOf(es) ==> r.height.value == 0
  {
  }

  /** An approval that follows in the same block is left behind. */
  lemma {:induction false} NextIsLeft(g: Guard, g': Guard, now: nat)
    requires g.events < g'.events && g.events != [] && HeightsInv(g'.events, now)
    requires var next := g'.events[|g.events|]; next.event.Approval? && next.height == LastHeight(g.events)
    ensures !Harmless(LeftBehind(g, g'))
  {
    LeftBehindIs(g, g', now);
    CutSplits(g'.events, LastHeight(g.events), |g.events|);
    assert LeftBehind(g, g')[0].event.Approval?;
  }
}
