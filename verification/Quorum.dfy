/**
 Votes over whole runs: every execution is backed by a quorum of current owners, every vote is cast
 once and signed, and approval leaves count exactly the votes cast.
 */
module Quorum {
  import opened Primitives
  import opened Guards
  import opened GuardInvariant
  import opened GuardCalls
  import opened Ledger
  import opened LedgerInvariant

  predicate IsExecution(c: Call) { IsLocalExecution(c) || IsRemoteExecution(c) || c.DoSetupChild? }

  /** The guard whose owners approve: the guard itself, or the parent for a REMOTE proposal. */
  function Approver(w: World, a: PublicKey, c: Call): (q: PublicKey)
    requires IsExecution(c)
  {
    if IsLocalExecution(c) then a else Read(w, a).parent
  }

  /** Distinct keyholders of the guard's current owner list who each voted for and signed exactly `p`. */
  ghost predicate IsQuorum(signed: set<Signature>, g: Guard, p: Proposal, voters: set<PublicKey>) {
    && |voters| >= g.threshold >= 1
    && (forall v :: v in voters ==>
          v in OwnerList(g) && Leaf(g.voteNullifiers, VoteKey(p, v)) == 1 && VoteSigned(signed, VoteKey(p, v)))
    && (forall u, v :: u in voters && v in voters && u != v ==> u.x != v.x)
  }

  lemma ApprovedHasQuorum(signed: set<Signature>, q: PublicKey, g: Guard, p: Proposal)
    requires OwnersInv(g) && VotesInv(q, g.parent, g.approvals, g.voteNullifiers, g.configNonce, OwnerList(g))
             && VotesSigned(signed, g)
    requires p.configNonce == g.configNonce && Approved(g, p)
    ensures IsQuorum(signed, g, p, Voters(g.voteNullifiers, p))
  {
    var voters := Voters(g.voteNullifiers, p);
    assert LeafInv(g.approvals, g.voteNullifiers, p);
    forall v | v in voters
      ensures v in OwnerList(g) && Leaf(g.voteNullifiers, VoteKey(p, v)) == 1 && VoteSigned(signed, VoteKey(p, v)) {
      assert VoteKey(p, v) in g.voteNullifiers;
    }
  }

  /** In every run, whenever an execution succeeds, its proposal has a quorum at that moment. */
  lemma {:induction false} ExecutionHasQuorum(w: World, a: PublicKey, c: Call)
    requires Reachable(w) && Allowed(w, a, c) && IsExecution(c)
    ensures var g := Read(w, Approver(w, a, c)); IsQuorum(w.signed, g, c.p, Voters(g.voteNullifiers, c.p))
  {
    var q := Approver(w, a, c);
    ExecutionIsApproved(w, a, c);
    ApproverFacts(w, q);
    ApprovedHasQuorum(w.signed, q, Read(w, q), c.p);
  }

  /** Every execution requires an initialized approving guard whose current epoch approved the proposal. */
  lemma ExecutionIsApproved(w: World, a: PublicKey, c: Call)
    requires Allowed(w, a, c) && IsExecution(c)
    ensures var q := Approver(w, a, c);
            q in w.guards && Initialized(Read(w, q)) && c.p.configNonce == Read(w, q).configNonce
            && Approved(Read(w, q), c.p)
  {
  }

  lemma ApproverFacts(w: World, q: PublicKey)
    requires Reachable(w) && q in w.guards && Initialized(w.guards[q])
    ensures var g := w.guards[q];
            OwnersInv(g) && VotesInv(q, g.parent, g.approvals, g.voteNullifiers, g.configNonce, OwnerList(g))
              && VotesSigned(w.signed, g)
  {
    ReachableInv(w);
    assert GuardInv(q, w.guards[q]);
  }

  // ---- every vote is cast once ----

  /** Whether an attempt successfully casts the vote `k` on guard `a`. */
  predicate CastsVote(w: World, act: Action, a: PublicKey, k: VoteKey) {
    Can(w, act) && act.Invoke? && act.at == a && IsVote(act.call) && VoteKey(act.call.p, act.call.voter) == k
  }

  /** How often a run successfully casts the vote `k` on guard `a`. */
  function Casts(w: World, acts: seq<Action>, a: PublicKey, k: VoteKey): (n: nat)
  {
    if acts == [] then 0
    else
      Casts(w, acts[..|acts| - 1], a, k)
      + (if CastsVote(Run(w, acts[..|acts| - 1]), acts[|acts| - 1], a, k) then 1 else 0)
  }

  lemma CallNullifies(w: World, a: PublicKey, c: Call, k: VoteKey)
    requires Allowed(w, a, c) && (!Initialized(Read(w, a)) ==> Read(w, a).voteNullifiers == map[])
    ensures Leaf(After(w, a, c).voteNullifiers, k) ==
            Leaf(Read(w, a).voteNullifiers, k) + (if IsVote(c) && VoteKey(c.p, c.voter) == k then 1 else 0)
  {
  }

  lemma StepNullifies(w: World, act: Action, a: PublicKey, k: VoteKey)
    requires a in w.guards ==> (!Initialized(w.guards[a]) ==> w.guards[a].voteNullifiers == map[])
    ensures Leaf(Read(Step(w, act), a).voteNullifiers, k)
            == Leaf(Read(w, a).voteNullifiers, k) + (if CastsVote(w, act, a, k) then 1 else 0)
  {
    if Can(w, act) && act.Invoke? && act.at == a {
      CallNullifies(w, a, act.call, k);
    }
  }

  lemma NullifierFacts(w: World, a: PublicKey, k: VoteKey)
    requires Inv(w)
    ensures Leaf(Read(w, a).voteNullifiers, k) <= 1
    ensures a in w.guards ==> (!Initialized(w.guards[a]) ==> w.guards[a].voteNullifiers == map[])
  {
    if a in w.guards { assert GuardInv(a, w.guards[a]); }
  }

  /** The nullifier leaf is the number of times the vote was cast, and that is at most one. */
  lemma {:induction false} VoteCastAtMostOnce(balances: map<PublicKey, nat>, acts: seq<Action>, a: PublicKey,
                                              k: VoteKey)
    ensures Casts(Genesis(balances), acts, a, k) == Leaf(Read(Run(Genesis(balances), acts), a).voteNullifiers, k) <= 1
  {
    RunKeeps(Genesis(balances), acts);
    NullifierFacts(Run(Genesis(balances), acts), a, k);
    if acts != [] {
      var init := acts[..|acts| - 1];
      VoteCastAtMostOnce(balances, init, a, k);
      RunKeeps(Genesis(balances), init);
      NullifierFacts(Run(Genesis(balances), init), a, k);
      StepNullifies(Run(Genesis(balances), init), acts[|acts| - 1], a, k);
    }
  }

  // ---- approval leaves ----

  /** In every reachable state a leaf is 0 exactly when nobody voted, else one more than the voters, else executed. */
  lemma {:induction false} LeafCountsVoters(w: World, a: PublicKey, h: Proposal)
    requires Reachable(w) && a in w.guards
    ensures var g := w.guards[a]; var n := |Voters(g.voteNullifiers, h)|; var leaf := Leaf(g.approvals, h);
            && (leaf == 0 <==> n == 0)
            && n <= MAX_OWNERS
            && (leaf == 0 || leaf == PROPOSED_MARKER + n || leaf == EXECUTED_MARKER)
            && (leaf == EXECUTED_MARKER <==> h in Execs(g.events, LocalKind))
  {
    ReachableInv(w);
    var g := w.guards[a];
    assert GuardInv(a, g);
    assert h in g.approvals ==> LeafInv(g.approvals, g.voteNullifiers, h);
    assert h !in g.approvals ==> Voters(g.voteNullifiers, h) == {};
    if h in Execs(g.events, LocalKind) {
      var i :| 0 <= i < |Execs(g.events, LocalKind)| && Execs(g.events, LocalKind)[i] == h;
    }
  }

  /** Along every continuation leaves never decrease, and an executed leaf stays executed. */
  lemma {:induction false} LeavesOnlyRise(w: World, acts: seq<Action>, a: PublicKey, h: Proposal)
    requires Reachable(w) && a in w.guards
    ensures var before, after := Leaf(w.guards[a].approvals, h), Leaf(Read(Run(w, acts), a).approvals, h);
            before <= after && (before == EXECUTED_MARKER ==> after == EXECUTED_MARKER)
  {
    ReachableInv(w);
    RunKeeps(w, acts);
  }

  /** The call that moves a leaf away from zero is an accepted proposal of exactly that hash. */
  lemma CallRegisters(w: World, a: PublicKey, c: Call, h: Proposal)
    requires Allowed(w, a, c) && Leaf(Read(w, a).approvals, h) == 0 && Leaf(After(w, a, c).approvals, h) != 0
    ensures c.DoPropose? && c.p == h
  {
  }

  /** Every nonzero leaf was registered by an earlier step of the run that passed all the rules of propose(). */
  lemma {:induction false} RegisteredByPropose(balances: map<PublicKey, nat>, acts: seq<Action>, a: PublicKey,
                                               h: Proposal) returns (i: nat, proposer: PublicKey)
    requires Leaf(Read(Run(Genesis(balances), acts), a).approvals, h) != 0
    ensures i < |acts| && acts[i] == Invoke(a, DoPropose(h, proposer))
    ensures Can(Run(Genesis(balances), acts[..i]), acts[i])
  {
    var w, act := Run(Genesis(balances), acts[..|acts| - 1]), acts[|acts| - 1];
    if Leaf(Read(w, a).approvals, h) != 0 {
      i, proposer := RegisteredByPropose(balances, acts[..|acts| - 1], a, h);
      assert acts[..|acts| - 1][..i] == acts[..i];
    } else {
      i := |acts| - 1;
      CallRegisters(w, a, act.call, h);
      proposer := act.call.voter;
    }
  }
}
