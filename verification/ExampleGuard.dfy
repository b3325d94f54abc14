/**
 Building concrete runs of one root guard, with the events as an archive serves them: one transaction per call.
 */
module ExampleGuard {
  import opened Primitives
  import opened Sequences
  import opened ListCommitment
  import opened Guards
  import opened Ledger
  import opened LedgerInvariant
  import opened Executions
  import opened EventSourcing
  import opened EventOrder
  import opened IndexTables
  import opened IndexMeaning
  import opened ConfigColumns

  const GUARD: PublicKey := PublicKey(1, false)
  const ALICE: PublicKey := PublicKey(2, false)
  const BOB: PublicKey := PublicKey(3, false)

  function EmptySlots(n: nat): (rs: seq<Receiver>)
    ensures |rs| == n && forall i :: 0 <= i < n ==> rs[i] == Receiver(EMPTY_KEY, 0)
  {
    seq(n, i => Receiver(EMPTY_KEY, 0))
  }

  /** The owners in a setup's fixed-size array. */
  function Padded(owners: seq<PublicKey>): (r: seq<PublicKey>)
    requires |owners| <= MAX_OWNERS
    ensures |r| == MAX_OWNERS && r[..|owners|] == owners && forall i :: |owners| <= i < MAX_OWNERS ==> r[i] == EMPTY_KEY
  {
    owners + seq(MAX_OWNERS - |owners|, i => EMPTY_KEY)
  }

  /**
   The guard belongs to these owners with threshold one, is at this nonce and epoch, and `voted` is all that was
   voted on.
   */
  predicate At(w: World, owners: seq<PublicKey>, nonce: nat, epoch: nat, voted: set<Proposal>) {
    && w.slot == 0 && w.height == 0 && GUARD in w.guards
    && var g := w.guards[GUARD];
       && g.ownersCommitment == OwnersHash(owners) && g.threshold == 1 && g.numOwners == |owners|
          && g.parent == EMPTY_KEY
       && g.nonce == nonce && g.configNonce == epoch
       && (forall k :: k in g.voteNullifiers ==> k.hash in voted)
       && (forall h :: h in g.approvals ==> h in voted)
  }

  // ---- served events ----

  function Tagged(es: seq<Emitted>, tx: nat): (d: seq<ChainEvent>)
    ensures |d| == |es| && forall i ::
              0 <= i < |d| ==> d[i] == ChainEvent(es[i].event, es[i].height, None, Some(tx), None)
  {
    seq(|es|, i requires 0 <= i < |es| => ChainEvent(es[i].event, es[i].height, None, Some(tx), None))
  }

  /** All of the guard's events, in emission order and under the transactions numbered below `calls`. */
  predicate Serves(d: seq<ChainEvent>, w: World, calls: nat) {
    && GUARD in w.guards && AsEmitted(d, w.guards[GUARD].events) && OnlySlotsRepeat(d)
    && forall i :: 0 <= i < |d| ==> d[i].txHash.Some? && d[i].txHash.value < calls
  }

  /** A call emits nothing twice but receiver slots. */
  predicate OneOfEach(es: seq<Event>) { forall i, j :: 0 <= i < j < |es| && es[i] == es[j] ==> es[j].ReceiverSlot? }

  lemma {:induction false} ServedNext(d: seq<ChainEvent>, w: World, calls: nat, more: seq<Event>, w': World)
    requires Serves(d, w, calls) && OneOfEach(more) && GUARD in w'.guards
    requires w'.guards[GUARD].events == w.guards[GUARD].events + Stamp(more, w.height)
    ensures Serves(d + Tagged(Stamp(more, w.height), calls), w', calls + 1)
  {
    var late := Tagged(Stamp(more, w.height), calls);
    var all := d + late;
    forall i, j | 0 <= i < j < |all| && FingerprintOf(all[i]) == FingerprintOf(all[j])
      ensures all[j].event.ReceiverSlot? {
      if j >= |d| {
        assert all[j].txHash == Some(calls);
        assert i >= |d|;
        assert more[i - |d|] == more[j - |d|];
      }
    }
  }

  // ---- steps ----

  /** Signatures, then the deployment. */
  lemma {:induction false} Begun(signatures: seq<Signature>) returns (w: World, d: seq<ChainEvent>)
    ensures Reachable(w) && w.slot == 0 && w.height == 0 && w.guards == map[GUARD := Emit(BLANK, [Deployed], 0)]
    ensures (forall s :: s in signatures ==> s in w.signed) && Serves(d, w, 1)
  {
    var unsigned := AllSigned(signatures);
    w := Step(unsigned, Deploy(GUARD));
    ReachableStep(unsigned, Deploy(GUARD));
    d := Tagged(Stamp([Deployed], 0), 0);
  }

  lemma {:induction false} AllSigned(signatures: seq<Signature>) returns (w: World)
    ensures Reachable(w) && w.slot == 0 && w.height == 0 && w.guards == map[] && forall s ::
              s in signatures ==> s in w.signed
  {
    if signatures == [] {
      w := Genesis(map[]);
      assert w == Run(w, []);
    } else {
      var init, last := signatures[..|signatures| - 1], signatures[|signatures| - 1];
      assert signatures == init + [last];
      var before := AllSigned(init);
      w := Step(before, Sign(last));
      ReachableStep(before, Sign(last));
    }
  }

  /** A call that pays nothing and is allowed is a step, and its events are served under a transaction of their own. */
  lemma {:induction false} Called(w: World, c: Call, d: seq<ChainEvent>, calls: nat)
    returns (w': World, d': seq<ChainEvent>)
    requires Reachable(w) && Allowed(w, GUARD, c) && Outflow(w, GUARD, c) == [] && Serves(d, w, calls)
             && OneOfEach(NewEvents(w, GUARD, c))
    ensures Reachable(w') && w' == Step(w, Invoke(GUARD, c))
    ensures w'.guards == w.guards[GUARD := After(w, GUARD, c)] && w'.signed == w.signed && w'.slot == w.slot
            && w'.height == w.height
    ensures d' == d + Tagged(Stamp(NewEvents(w, GUARD, c), w.height), calls) && Serves(d', w', calls + 1)
    ensures w'.guards[GUARD].events == w.guards[GUARD].events + Stamp(NewEvents(w, GUARD, c), w.height)
  {
    w' := Step(w, Invoke(GUARD, c));
    ReachableStep(w, Invoke(GUARD, c));
    CallEmits(w, GUARD, c);
    d' := d + Tagged(Stamp(NewEvents(w, GUARD, c), w.height), calls);
    ServedNext(d, w, calls, NewEvents(w, GUARD, c), w');
  }

  lemma {:induction false} SetUp(w: World, owners: seq<PublicKey>, d: seq<ChainEvent>)
    returns (w': World, d': seq<ChainEvent>)
    requires Reachable(w) && w.slot == 0 && w.height == 0 && w.guards == map[GUARD := Emit(BLANK, [Deployed], 0)]
             && Serves(d, w, 1)
    requires 0 < |owners| <= MAX_OWNERS && XDistinct(owners) && EMPTY_KEY !in owners
    ensures Reachable(w') && w'.signed == w.signed && At(w', owners, 0, 0, {}) && Serves(d', w', 2)
  {
    var padded := Padded(owners);
    forall i | 0 <= i < MAX_OWNERS ensures i < |owners| <==> padded[i] != EMPTY_KEY {
      if i < |owners| { assert padded[..|owners|][i] == owners[i] && owners[i] in owners; }
    }
    assert Active(padded, |owners|) == owners;
    w', d' := Called(w, DoSetup(1, |owners|, padded), d, 1);
  }

  /** An owner proposes: the proposal has one vote and its events are the last of the chain. */
  lemma {:induction false} ProposedBy(w: World, owners: seq<PublicKey>, nonce: nat, epoch: nat, voted: set<Proposal>,
                                      p: Proposal, voter: PublicKey,
                                      d: seq<ChainEvent>, calls: nat) returns (w': World, d': seq<ChainEvent>)
    requires Reachable(w) && At(w, owners, nonce, epoch, voted) && Serves(d, w, calls) && p !in voted
    requires voter in owners && Signature(voter, p, ForPropose) in w.signed
    requires WellFormed(p) && ProposeRules(p) && ThresholdRule(p, |owners|) && p.destination == LOCAL
             && p.childAccount == EMPTY_KEY
    requires p.configNonce == epoch && p.guardAddress == GUARD && p.expirySlot == 0 && p.nonce > nonce
    ensures Reachable(w') && w'.signed == w.signed && At(w', owners, nonce, epoch, voted + {p})
            && Serves(d', w', calls + 1)
    ensures Leaf(w'.guards[GUARD].approvals, p) == 2
            && (forall v :: Leaf(w'.guards[GUARD].voteNullifiers, VoteKey(p, v)) != 0 ==> v == voter)
    ensures w.guards[GUARD].events <= w'.guards[GUARD].events && d <= d'
    ensures var k := |w.guards[GUARD].events|;
            && |d'| == k + 2 + |p.receivers| && d'[k].event == Proposed(p, voter)
            && forall i :: k <= i < |d'| ==> d'[i].txHash == Some(calls)
  {
    var c := DoPropose(p, voter);
    assert Allowed(w, GUARD, c);
    w', d' := Called(w, c, d, calls);
  }
}
