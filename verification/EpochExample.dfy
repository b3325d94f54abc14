/**
 A run in which the latest configuration row is wrong: a one-owner guard changes its threshold and then,
 with a proposal of the new epoch, adds an owner, all in one block.
 */
module EpochExample {
  import opened Primitives
  import opened Sequences
  import opened ListCommitment
  import opened Guards
  import opened Ledger
  import opened LedgerInvariant
  import opened EventOrder
  import opened IndexTables
  import opened Reorg
  import opened IndexMeaning
  import opened ConfigColumns
  import opened ExampleGuard

  /** Keeps the threshold at one, which the contract accepts as a change. */
  function ThresholdProposal(): Proposal {
    Proposal(EmptySlots(MAX_RECEIVERS), NATIVE_TOKEN_ID, CHANGE_THRESHOLD, Num(1), 0, 1, 0, 0, GUARD, LOCAL, EMPTY_KEY)
  }

  /** Adds Bob behind Alice, in the epoch the threshold change starts. */
  function OwnerProposal(): Proposal {
    Proposal([Receiver(BOB, 0)] + EmptySlots(MAX_RECEIVERS - 1), NATIVE_TOKEN_ID, ADD_OWNER, OwnersHash([ALICE, BOB]),
             0, 2, 1, 0, GUARD,
             LOCAL, EMPTY_KEY)
  }

  lemma {:induction false} ThresholdChanged(w: World, d: seq<ChainEvent>) returns (w': World, d': seq<ChainEvent>)
    requires Reachable(w) && At(w, [ALICE], 0, 0, {ThresholdProposal()}) && Serves(d, w, 3)
    requires Leaf(w.guards[GUARD].approvals, ThresholdProposal()) == 2
    ensures Reachable(w') && w'.signed == w.signed && At(w', [ALICE], 1, 1, {ThresholdProposal()}) && Serves(d', w', 4)
    ensures d' != [] && d'[|d'| - 1].event.ThresholdChange?
  {
    w', d' := Called(w, DoThresholdChange(ThresholdProposal(), 1), d, 3);
  }

  lemma {:induction false} OwnerAdded(w: World, voted: set<Proposal>, d: seq<ChainEvent>)
    returns (w': World, d': seq<ChainEvent>)
    requires Reachable(w) && At(w, [ALICE], 1, 1, voted) && Serves(d, w, 5)
    requires Leaf(w.guards[GUARD].approvals, OwnerProposal()) == 2
    ensures Reachable(w') && Serves(d', w', 6) && Initialized(w'.guards[GUARD]) && d < d'
            && d'[|d'| - 1].event.OwnerChange?
    ensures w'.height == 0
  {
    assert InsertBehind([ALICE], BOB, ALICE) == [ALICE, BOB] by {
      assert [ALICE][..0] == [];
      assert InsertBehind([], BOB, ALICE) + [ALICE, BOB] == [ALICE, BOB];
    }
    w', d' := Called(w, DoOwnerChange(OwnerProposal(), Some(ALICE)), d, 5);
  }

  /** Wherever an owner change follows a threshold change in the guard's last block, the row shows an older epoch. */
  lemma OwnerChangeBehindThreshold(w: World, a: PublicKey, d: seq<ChainEvent>, t: nat)
    requires Reachable(w) && a in w.guards && Initialized(w.guards[a]) && AsEmitted(d, w.guards[a].events)
             && OnlySlotsRepeat(d)
    requires t < |d| - 1 && d[t].event.ThresholdChange? && d[|d| - 1].event.OwnerChange?
             && d[t].height == d[|d| - 1].height
    ensures var latest := Latest(Indexed(OrderForApply(d)).configs);
            latest.Some? && !FieldsOf(latest.value.fields, w.guards[a])
  {
    var i := DecisiveExists(d, EpochColumn, t);
    LatestRowTracksGuard(w, a, d, i);
    assert ApplyRank(d[t]) <= ApplyRank(d[i]);
    assert Starts(d[|d| - 1].event);
  }

  /** Up to the threshold change, by a proposal of its own. */
  lemma {:induction false} FirstHalf() returns (w: World, d: seq<ChainEvent>)
    ensures Reachable(w) && At(w, [ALICE], 1, 1, {ThresholdProposal()}) && Serves(d, w, 4)
    ensures Signature(ALICE, OwnerProposal(), ForPropose) in w.signed && d != [] && d[|d| - 1].event.ThresholdChange?
  {
    var first, second := Signature(ALICE, ThresholdProposal(), ForPropose),
      Signature(ALICE, OwnerProposal(), ForPropose);
    w, d := Begun([first, second]);
    assert first in [first, second] && second in [first, second];
    w, d := SetUp(w, [ALICE], d);
    w, d := ProposedBy(w, [ALICE], 0, 0, {}, ThresholdProposal(), ALICE, d, 2);
    assert {} + {ThresholdProposal()} == {ThresholdProposal()};
    w, d := ThresholdChanged(w, d);
  }

  /** The run: its guard's last block holds a threshold change at `t` and ends with an owner change. */
  lemma {:induction false} TheRun() returns (w: World, d: seq<ChainEvent>, t: nat)
    ensures Reachable(w) && GUARD in w.guards && Initialized(w.guards[GUARD]) && w.height == 0 && Serves(d, w, 6)
    ensures t < |d| - 1 && d[t].event.ThresholdChange? && d[|d| - 1].event.OwnerChange?
  {
    w, d := FirstHalf();
    t := |d| - 1;
    w, d := ProposedBy(w, [ALICE], 1, 1, {ThresholdProposal()}, OwnerProposal(), ALICE, d, 4);
    w, d := OwnerAdded(w, {ThresholdProposal()} + {OwnerProposal()}, d);
  }

  /**
   Indexing every event of a reachable guard, each call in a transaction of its own, can leave a latest row that is
   not its configuration.
   */
  lemma {:induction false} RowCanBeWrong() returns (w: World, d: seq<ChainEvent>)
    ensures Reachable(w) && GUARD in w.guards && Initialized(w.guards[GUARD]) && Serves(d, w, 6)
    ensures var latest := Latest(Indexed(OrderForApply(d)).configs);
            latest.Some? && !FieldsOf(latest.value.fields, w.guards[GUARD])
  {
    var t;
    w, d, t := TheRun();
    ColumnFacts(w, GUARD);
    OwnerChangeBehindThreshold(w, GUARD, d, t);
  }
}
